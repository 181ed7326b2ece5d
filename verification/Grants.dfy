/**
 The grant compiler of backend/app/agent_capabilities/compiler.py: permission facts become rules
 unless an allow and a deny rule overlap, and requests are decided against the rules.  Command,
 network and skill scopes are taken as already normalized; path scopes are normalized here.
 */
module Grants {
  import opened Prelude
  import opened PathPolicy
  import opened Sorting
  import opened Strings

  datatype Capability = PathRead | PathWrite | CommandExecute | NetworkConnect | SkillUse

  datatype Effect = Allow | Deny

  datatype Command = Command(platform: Platform, argv: seq<string>, cwd: string, env: set<string>)

  datatype Target = Target(scheme: string, host: string, port: int, verifiedIps: seq<string>, unverified: bool)

  datatype Skill = Skill(identity: string, version: string, provenance: string)

  /** A normalized scope; a request has the same shape with a single root. */
  datatype Scope =
    | Paths(roots: seq<Root>)
    | Commands(command: Command)
    | Network(target: Target, redirects: seq<Target>)
    | Skills(skill: Skill)

  datatype Request =
    | PathRequest(path: Root)
    | CommandRequest(command: Command)
    | NetworkRequest(target: Target, redirects: seq<Target>)
    | SkillRequest(skill: Skill)

  datatype Rule = Rule(capability: Capability, effect: Effect, scope: Scope)

  predicate OnPaths(c: Capability) {
    c == PathRead || c == PathWrite
  }

  predicate Fits(c: Capability, s: Scope) {
    match c
    case PathRead => s.Paths?
    case PathWrite => s.Paths?
    case CommandExecute => s.Commands?
    case NetworkConnect => s.Network?
    case SkillUse => s.Skills?
  }

  predicate Asks(c: Capability, q: Request) {
    match c
    case PathRead => q.PathRequest?
    case PathWrite => q.PathRequest?
    case CommandExecute => q.CommandRequest?
    case NetworkConnect => q.NetworkRequest?
    case SkillUse => q.SkillRequest?
  }

  // ---------------------------------------------------------------- evaluating one rule

  datatype DenyReason =
    PathOutsideRoot | CommandNotAuthorized | NetworkNotAuthorized | RedirectNotAuthorized | SkillNotAuthorized

  datatype Verdict = Allowed | Denied(reason: DenyReason) | HostVerificationRequired

  function ReasonFor(c: Capability): DenyReason {
    match c
    case PathRead => PathOutsideRoot
    case PathWrite => PathOutsideRoot
    case CommandExecute => CommandNotAuthorized
    case NetworkConnect => NetworkNotAuthorized
    case SkillUse => SkillNotAuthorized
  }

  predicate CommandIsAuthorized(authority: Command, q: Command) {
    authority.platform == q.platform && authority.argv == q.argv && authority.cwd == q.cwd && q.env <= authority.env
  }

  function NetworkIsAuthorized(target: Target, redirects: seq<Target>, q: Request): Verdict
    requires q.NetworkRequest?
  {
    if q.target.unverified then HostVerificationRequired
    else if target != q.target then Denied(NetworkNotAuthorized)
    else if q.redirects == [] then Allowed
    else if redirects == [] || exists t <- q.redirects :: t !in redirects then Denied(RedirectNotAuthorized)
    else Allowed
  }

  function EvaluateRule(fold: CaseFold, c: Capability, s: Scope, q: Request): Verdict
    requires Fits(c, s) && Asks(c, q)
  {
    match s
    case Paths(roots) =>
      if exists r <- roots :: PathIsWithinRoot(fold, r, q.path) then Allowed else Denied(PathOutsideRoot)
    case Commands(command) =>
      if CommandIsAuthorized(command, q.command) then Allowed else Denied(CommandNotAuthorized)
    case Network(target, redirects) => NetworkIsAuthorized(target, redirects, q)
    case Skills(skill) => if skill == q.skill then Allowed else Denied(SkillNotAuthorized)
  }

  predicate Matches(fold: CaseFold, r: Rule, c: Capability, q: Request)
    requires Fits(r.capability, r.scope) && Asks(c, q)
  {
    r.capability == c && EvaluateRule(fold, c, r.scope, q) == Allowed
  }

  // ---------------------------------------------------------------- overlap

  /** `path_is_within_root(root, path)` for a path given as text: it is normalized once more. */
  function TextWithin(fold: CaseFold, root: Root, path: string): Result<bool, Reason> {
    match NormalizePathRoot(root.platform, path)
    case Err(e) => Err(e)
    case Ok(n) => Ok(PathIsWithinRoot(fold, root, Root(root.platform, n)))
  }

  function RootsOverlap(fold: CaseFold, a: Root, b: Root): Result<bool, Reason> {
    var r := TextWithin(fold, a, b.path);
    if r == Ok(false) then TextWithin(fold, b, a.path) else r
  }

  /** `any(...)` over all pairs: the first pair that overlaps or raises decides. */
  function AnyRootsOverlap(fold: CaseFold, pairs: seq<(Root, Root)>): Result<bool, Reason> {
    if pairs == [] then Ok(false)
    else
      var r := RootsOverlap(fold, pairs[0].0, pairs[0].1);
      if r == Ok(false) then AnyRootsOverlap(fold, pairs[1..]) else r
  }

  function Pairs(left: seq<Root>, right: seq<Root>): seq<(Root, Root)> {
    if left == [] then [] else seq(|right|, i requires 0 <= i < |right| => (left[0], right[i])) + Pairs(left[1..], right)
  }

  predicate CommandsOverlap(l: Command, r: Command) {
    && l.platform == r.platform && l.argv == r.argv && l.cwd == r.cwd
    && (l.env * r.env != {} || l.env == {} || r.env == {})
  }

  function ScopesOverlap(fold: CaseFold, c: Capability, l: Scope, r: Scope): Result<bool, Reason>
    requires Fits(c, l) && Fits(c, r)
  {
    match c
    case PathRead => AnyRootsOverlap(fold, Pairs(l.roots, r.roots))
    case PathWrite => AnyRootsOverlap(fold, Pairs(l.roots, r.roots))
    case CommandExecute => Ok(CommandsOverlap(l.command, r.command))
    case NetworkConnect => Ok(l.target == r.target)
    case SkillUse => Ok(l.skill.identity == r.skill.identity && l.skill.version == r.skill.version)
  }

  predicate WellTyped(rules: seq<Rule>) {
    forall r <- rules :: Fits(r.capability, r.scope)
  }

  predicate Opposed(l: Rule, r: Rule) {
    l.capability == r.capability && l.effect != r.effect
  }

  ghost predicate NoConflict(fold: CaseFold, rules: seq<Rule>)
    requires WellTyped(rules)
  {
    forall i, j | 0 <= i < j < |rules| :: Passes(fold, rules[i], rules[j])
  }

  /** Two rules that are not opposed, or do not overlap. */
  predicate Passes(fold: CaseFold, l: Rule, r: Rule)
    requires Fits(l.capability, l.scope) && Fits(r.capability, r.scope)
  {
    Opposed(l, r) ==> ScopesOverlap(fold, l.capability, l.scope, r.scope) == Ok(false)
  }

  /** A rule passes with all rules after it, up to `j`. */
  ghost predicate RowPasses(fold: CaseFold, rules: seq<Rule>, i: nat, j: nat)
    requires WellTyped(rules) && i < |rules| && j <= |rules|
  {
    forall k | i < k < j :: Passes(fold, rules[i], rules[k])
  }

  lemma AllRowsPass(fold: CaseFold, rules: seq<Rule>)
    requires WellTyped(rules) && forall k | 0 <= k < |rules| :: RowPasses(fold, rules, k, |rules|)
    ensures NoConflict(fold, rules)
  {
    forall i, j | 0 <= i < j < |rules| ensures Passes(fold, rules[i], rules[j]) {
      assert RowPasses(fold, rules, i, |rules|);
    }
  }

  lemma FailingPair(fold: CaseFold, rules: seq<Rule>, i: nat, j: nat)
    requires WellTyped(rules) && i < j < |rules| && !Passes(fold, rules[i], rules[j])
    ensures !NoConflict(fold, rules)
  {
  }

  /** One pair of the loops: skipped unless opposed, else tested for overlap. */
  method PairConflict(fold: CaseFold, l: Rule, r: Rule) returns (conflict: Result<bool, Reason>)
    requires Fits(l.capability, l.scope) && Fits(r.capability, r.scope)
    ensures conflict == Ok(false) <==> Passes(fold, l, r)
    ensures conflict == Ok(false) || conflict == ScopesOverlap(fold, l.capability, l.scope, r.scope)
  {
    if !Opposed(l, r) {
      return Ok(false);
    }
    return ScopesOverlap(fold, l.capability, l.scope, r.scope);
  }

  method FindConflict(fold: CaseFold, rules: seq<Rule>) returns (r: Result<bool, Reason>)
    requires WellTyped(rules)
    ensures r == Ok(false) <==> NoConflict(fold, rules)
  {
    for i := 0 to |rules|
      invariant forall k | 0 <= k < i :: RowPasses(fold, rules, k, |rules|)
    {
      for j := i + 1 to |rules|
        invariant RowPasses(fold, rules, i, j)
      {
        var conflict := PairConflict(fold, rules[i], rules[j]);
        if conflict != Ok(false) {
          FailingPair(fold, rules, i, j);
          return conflict;
        }
      }
    }
    AllRowsPass(fold, rules);
    return Ok(false);
  }

  // ---------------------------------------------------------------- compiling

  datatype RawScope = RawPaths(roots: seq<(Platform, string)>) | Given(scope: Scope)

  datatype Fact = Fact(capability: Capability, effect: string, scope: RawScope)

  datatype CompileFailure =
    | Policy(reason: Reason)
    | UnknownEffect
    | VerificationRequired
    | Conflicting

  function NormalizeRoots(roots: seq<(Platform, string)>): Result<seq<Root>, Reason> {
    if roots == [] then Ok([])
    else match NormalizePathRoot(roots[0].0, roots[0].1)
      case Err(e) => Err(e)
      case Ok(path) =>
        match NormalizeRoots(roots[1..])
        case Err(e) => Err(e)
        case Ok(rest) => Ok([Root(roots[0].0, path)] + rest)
  }

  /** Roots in the order of platform name and text. */
  predicate RootAtMost(a: Root, b: Root) {
    if a.platform != b.platform then a.platform == Posix else !LexLess(b.path, a.path)
  }

  /** `sorted(set(roots))` */
  function SortedRoots(roots: seq<Root>): seq<Root> {
    Sort(Once(roots), RootAtMost)
  }

  function PlatformName(p: Platform): string {
    if p == Posix then "posix" else "windows"
  }

  /** Roots are ordered by the names of their platforms, then by their texts. */
  lemma RootAtMostIsLexicographic(a: Root, b: Root)
    ensures RootAtMost(a, b) <==>
              || LexLess(PlatformName(a.platform), PlatformName(b.platform))
              || (a.platform == b.platform && (a.path == b.path || LexLess(a.path, b.path)))
  {
    LexTotal(a.path, b.path);
    LexTotal(PlatformName(a.platform), PlatformName(b.platform));
  }

  function NormalizeScope(c: Capability, s: RawScope): Result<Scope, Reason> {
    if OnPaths(c) != s.RawPaths? || (s.Given? && !Fits(c, s.scope)) then Err(InvalidInput)
    else match s
      case Given(scope) => Ok(scope)
      case RawPaths(roots) =>
        if roots == [] then Err(InvalidInput)
        else match NormalizeRoots(roots) case Err(e) => Err(e) case Ok(r) => Ok(Paths(SortedRoots(r)))
  }

  predicate NeedsHostVerification(s: Scope) {
    s.Network? && (s.target.unverified || exists t <- s.redirects :: t.unverified)
  }

  function CompileFact(f: Fact): Result<Rule, CompileFailure> {
    match NormalizeScope(f.capability, f.scope)
    case Err(e) => Err(Policy(e))
    case Ok(scope) =>
      if f.effect != "allow" && f.effect != "deny" then Err(UnknownEffect)
      else if NeedsHostVerification(scope) then Err(VerificationRequired)
      else Ok(Rule(f.capability, if f.effect == "allow" then Allow else Deny, scope))
  }

  predicate Wanted(required: Option<set<Capability>>, f: Fact) {
    required.Some? ==> f.capability in required.value
  }

  /** The rules of the wanted facts, in order, or the failure of the first that has none. */
  function CompileAll(facts: seq<Fact>, required: Option<set<Capability>>): Result<seq<Rule>, CompileFailure> {
    if facts == [] then Ok([])
    else if !Wanted(required, facts[0]) then CompileAll(facts[1..], required)
    else match CompileFact(facts[0])
      case Err(e) => Err(e)
      case Ok(rule) =>
        match CompileAll(facts[1..], required)
        case Err(e) => Err(e)
        case Ok(rules) => Ok([rule] + rules)
  }

  method CompileFacts(facts: seq<Fact>, required: Option<set<Capability>>) returns (r: Result<seq<Rule>, CompileFailure>)
    ensures r == CompileAll(facts, required)
  {
    var compiled: seq<Rule> := [];
    ghost var all := CompileAll(facts, required);
    assert all.Ok? ==> [] + all.value == all.value;
    for i := 0 to |facts|
      invariant match CompileAll(facts[i..], required)
                case Err(e) => all == Err(e)
                case Ok(later) => all == Ok(compiled + later)
    {
      assert facts[i..][0] == facts[i] && facts[i..][1..] == facts[i+1..];
      if !Wanted(required, facts[i]) {
        continue;
      }
      var rule := CompileFact(facts[i]);
      if rule.Err? {
        return Err(rule.error);
      }
      ghost var later := CompileAll(facts[i+1..], required);
      assert later.Ok? ==> compiled + ([rule.value] + later.value) == compiled + [rule.value] + later.value;
      compiled := compiled + [rule.value];
    }
    assert compiled + [] == compiled;
    return Ok(compiled);
  }

  /** The JSON text of a scope. */
  type Canonical = Scope -> string

  /** Position of a capability in the order of the names. */
  function NameRank(c: Capability): nat {
    match c
    case CommandExecute => 0
    case NetworkConnect => 1
    case PathRead => 2
    case PathWrite => 3
    case SkillUse => 4
  }

  /** The sort key of compiled rules: capability, effect, canonical scope. */
  predicate KeyAtMost(canonical: Canonical, r: Rule, t: Rule) {
    if r.capability != t.capability then NameRank(r.capability) < NameRank(t.capability)
    else if r.effect != t.effect then r.effect == Allow
    else !LexLess(canonical(t.scope), canonical(r.scope))
  }

  function TextOf(e: Effect): string {
    if e == Allow then "allow" else "deny"
  }

  function NameOf(c: Capability): string {
    match c
    case CommandExecute => "command.execute"
    case NetworkConnect => "network.connect"
    case PathRead => "path.read"
    case PathWrite => "path.write"
    case SkillUse => "skill.use"
  }

  lemma SameStart(prefix: string, a: string, b: string)
    ensures LexLess(prefix + a, prefix + b) <==> LexLess(a, b)
  {
    if prefix == "" {
      assert prefix + a == a && prefix + b == b;
    } else {
      assert (prefix + a)[1..] == prefix[1..] + a && (prefix + b)[1..] == prefix[1..] + b;
      SameStart(prefix[1..], a, b);
    }
  }

  /** The rank of a capability is its place in the alphabet. */
  lemma RankIsAlphabetical(a: Capability, b: Capability)
    ensures NameRank(a) < NameRank(b) <==> LexLess(NameOf(a), NameOf(b))
  {
    SameStart("path.", "read", "write");
    SameStart("path.", "write", "read");
    assert "path." + "read" == NameOf(PathRead) && "path." + "write" == NameOf(PathWrite);
    LexTotal(NameOf(a), NameOf(b));
  }

  /** The sort key compares the names of the capabilities, then those of the effects, then the scopes. */
  lemma KeyIsLexicographic(canonical: Canonical, r: Rule, t: Rule)
    ensures KeyAtMost(canonical, r, t) <==>
              || LexLess(NameOf(r.capability), NameOf(t.capability))
              || (r.capability == t.capability && LexLess(TextOf(r.effect), TextOf(t.effect)))
              || (r.capability == t.capability && r.effect == t.effect && !LexLess(canonical(t.scope), canonical(r.scope)))
  {
    RankIsAlphabetical(r.capability, t.capability);
    RankIsAlphabetical(t.capability, r.capability);
    LexTotal(TextOf(r.effect), TextOf(t.effect));
  }

  function ByKey(canonical: Canonical): (Rule, Rule) -> bool {
    (r: Rule, t: Rule) => KeyAtMost(canonical, r, t)
  }

  function SortedRules(canonical: Canonical, rules: seq<Rule>): seq<Rule> {
    Sort(rules, ByKey(canonical))
  }

  /** A rule for a fact: its capability, its effect, and the scope it states, with normalized roots. */
  ghost predicate IsRuleOf(r: Rule, f: Fact) {
    && r.capability == f.capability
    && ((f.effect == "allow" && r.effect == Allow) || (f.effect == "deny" && r.effect == Deny))
    && match f.scope
       case Given(scope) => !OnPaths(f.capability) && r.scope == scope
       case RawPaths(roots) =>
         OnPaths(f.capability) && r.scope.Paths? && forall root :: root in r.scope.roots <==> StatesRoot(roots, root)
  }

  /** Some stated root normalizes to this one. */
  predicate StatesRoot(roots: seq<(Platform, string)>, root: Root) {
    exists p <- roots :: p.0 == root.platform && NormalizePathRoot(p.0, p.1) == Ok(root.path)
  }

  /** The fact is of a capability that is asked for, or all are. */
  predicate IsAsked(required: Option<set<Capability>>, f: Fact) {
    required == None || f.capability in required.value
  }

  /** Every rule is one of a wanted fact, and every wanted fact has one. */
  ghost predicate IsGrantOf(rules: seq<Rule>, facts: seq<Fact>, required: Option<set<Capability>>) {
    && (forall r {:trigger HasFact(facts, required, r)} | r in rules :: HasFact(facts, required, r))
    && (forall f {:trigger HasRule(rules, f)} | f in facts && IsAsked(required, f) :: HasRule(rules, f))
  }

  ghost predicate HasFact(facts: seq<Fact>, required: Option<set<Capability>>, r: Rule) {
    exists f <- facts :: IsAsked(required, f) && IsRuleOf(r, f)
  }

  ghost predicate HasRule(rules: seq<Rule>, f: Fact) {
    exists r <- rules :: IsRuleOf(r, f)
  }

  /** All wanted facts have rules, and no two opposed ones overlap. */
  ghost predicate Compiles(fold: CaseFold, facts: seq<Fact>, required: Option<set<Capability>>) {
    && CompileAll(facts, required).Ok?
    && WellTyped(CompileAll(facts, required).value)
    && NoConflict(fold, CompileAll(facts, required).value)
  }

  /** The rules of a grant: sorted, normalized, without conflict; they exist exactly when it compiles. */
  method CompileGrant(fold: CaseFold, canonical: Canonical, facts: seq<Fact>, required: Option<set<Capability>>)
    returns (r: Result<seq<Rule>, CompileFailure>)
    ensures r.Ok? <==> Compiles(fold, facts, required)
    ensures r.Ok? ==> r.value == SortedRules(canonical, CompileAll(facts, required).value)
    ensures r.Ok? ==> Sorted(r.value, ByKey(canonical)) && multiset(r.value) == multiset(CompileAll(facts, required).value)
    ensures r.Ok? ==> WellTyped(r.value) && Normalized(r.value) && NoConflict(fold, r.value)
    ensures r.Ok? ==> IsGrantOf(r.value, facts, required)
    ensures CompileAll(facts, required).Err? ==> r == CompileAll(facts, required)
  {
    r := CompileFacts(facts, required);
    CompiledRules(facts, required);
    if r.Err? {
      return r;
    }
    var rules := r.value;
    var conflict := FindConflict(fold, rules);
    if conflict.Err? {
      return Err(Policy(conflict.error));
    }
    if conflict.value {
      return Err(Conflicting);
    }
    RulesOrder(canonical);
    SortSorts(rules, ByKey(canonical));
    SortKeeps(rules, ByKey(canonical));
    ReorderedGrant(fold, rules, SortedRules(canonical, rules));
    CompiledGrant(facts, required);
    SortedGrant(rules, SortedRules(canonical, rules), facts, required);
    return Ok(SortedRules(canonical, rules));
  }

  lemma CompiledRule(f: Fact)
    requires CompileFact(f).Ok?
    ensures IsRuleOf(CompileFact(f).value, f)
  {
    if f.scope.RawPaths? {
      var roots := NormalizeRoots(f.scope.roots).value;
      NormalizeRootsMembers(f.scope.roots);
      SortedRootsMembers(roots);
      forall root ensures root in SortedRoots(roots) <==> StatesRoot(f.scope.roots, root) {
      }
    }
  }

  /** A wanted fact and its rule in front keep a grant a grant of the facts. */
  lemma LongerGrant(rule: Rule, rules: seq<Rule>, facts: seq<Fact>, required: Option<set<Capability>>)
    requires facts != [] && IsAsked(required, facts[0]) && IsRuleOf(rule, facts[0])
    requires IsGrantOf(rules, facts[1..], required)
    ensures IsGrantOf([rule] + rules, facts, required)
  {
    var more := [rule] + rules;
    forall r | r in more ensures HasFact(facts, required, r) {
      if r == rule {
        assert facts[0] in facts;
      } else {
        assert HasFact(facts[1..], required, r);
        var f :| f in facts[1..] && IsAsked(required, f) && IsRuleOf(r, f);
        assert f in facts;
      }
    }
    forall f | f in facts && IsAsked(required, f) ensures HasRule(more, f) {
      if f == facts[0] {
        assert rule in more;
      } else {
        assert f in facts[1..] && HasRule(rules, f);
        var r :| r in rules && IsRuleOf(r, f);
        assert r in more;
      }
    }
  }

  lemma SkippedFact(rules: seq<Rule>, facts: seq<Fact>, required: Option<set<Capability>>)
    requires facts != [] && !IsAsked(required, facts[0]) && IsGrantOf(rules, facts[1..], required)
    ensures IsGrantOf(rules, facts, required)
  {
    forall r | r in rules ensures HasFact(facts, required, r) {
      assert HasFact(facts[1..], required, r);
      var f :| f in facts[1..] && IsAsked(required, f) && IsRuleOf(r, f);
      assert f in facts;
    }
    forall f | f in facts && IsAsked(required, f) ensures HasRule(rules, f) {
      assert f in facts[1..];
    }
  }

  lemma {:induction false} CompiledGrant(facts: seq<Fact>, required: Option<set<Capability>>)
    requires CompileAll(facts, required).Ok?
    ensures IsGrantOf(CompileAll(facts, required).value, facts, required)
    decreases |facts|
  {
    if facts != [] {
      CompiledGrant(facts[1..], required);
      var rest := CompileAll(facts[1..], required).value;
      if Wanted(required, facts[0]) {
        CompiledRule(facts[0]);
        LongerGrant(CompileFact(facts[0]).value, rest, facts, required);
      } else {
        SkippedFact(rest, facts, required);
      }
    }
  }

  lemma SortedGrant(rules: seq<Rule>, other: seq<Rule>, facts: seq<Fact>, required: Option<set<Capability>>)
    requires IsGrantOf(rules, facts, required) && Reordered(rules, other)
    ensures IsGrantOf(other, facts, required)
  {
    ReorderedMembers(rules, other);
    forall r | r in other ensures HasFact(facts, required, r) {
      assert r in rules && HasFact(facts, required, r);
    }
    forall f | f in facts && IsAsked(required, f) ensures HasRule(other, f) {
      assert HasRule(rules, f);
    }
  }

  /** Which facts have a rule: a known effect, and a scope of the right kind, normalizable and verified. */
  lemma FactCompilesIff(f: Fact)
    ensures CompileFact(f).Ok? <==>
              && f.effect in {"allow", "deny"}
              && match f.scope
                 case RawPaths(roots) =>
                   (f.capability == PathRead || f.capability == PathWrite)
                   && roots != [] && forall p <- roots :: NormalizePathRoot(p.0, p.1).Ok?
                 case Given(scope) =>
                   (match f.capability
                    case PathRead => false
                    case PathWrite => false
                    case CommandExecute => scope.Commands?
                    case SkillUse => scope.Skills?
                    case NetworkConnect =>
                      scope.Network? && !scope.target.unverified && forall t <- scope.redirects :: !t.unverified)
  {
    if f.scope.RawPaths? {
      NormalizeRootsMembers(f.scope.roots);
    }
  }

  lemma RulesOrder(canonical: Canonical)
    ensures TotalOrder(ByKey(canonical))
  {
    var order := ByKey(canonical);
    forall r, t ensures order(r, t) || order(t, r) {
      LexTotal(canonical(r.scope), canonical(t.scope));
    }
    forall r, t, u | order(r, t) && order(t, u) ensures order(r, u) {
      NotAboveTransitive(canonical(r.scope), canonical(t.scope), canonical(u.scope));
    }
  }

  lemma NotAboveTransitive(a: string, b: string, c: string)
    ensures !LexLess(b, a) && !LexLess(c, b) ==> !LexLess(c, a)
  {
    LexTotal(a, b);
    LexTotal(b, c);
    if LexLess(c, a) && LexLess(a, b) {
      LexTransitive(c, a, b);
    }
  }

  lemma RootsOrder()
    ensures TotalOrder(RootAtMost) && forall roots :: Separates(RootAtMost, roots)
  {
    forall a, b ensures (RootAtMost(a, b) || RootAtMost(b, a)) && (RootAtMost(a, b) && RootAtMost(b, a) ==> a == b) {
      LexTotal(a.path, b.path);
    }
    forall a, b, c | RootAtMost(a, b) && RootAtMost(b, c) ensures RootAtMost(a, c) {
      NotAboveTransitive(a.path, b.path, c.path);
    }
  }

  lemma {:induction false} CompiledRules(facts: seq<Fact>, required: Option<set<Capability>>)
    ensures CompileAll(facts, required).Ok? ==>
              WellTyped(CompileAll(facts, required).value) && Normalized(CompileAll(facts, required).value)
    decreases |facts|
  {
    if facts != [] {
      CompiledRules(facts[1..], required);
      if CompileFact(facts[0]).Ok? {
        CompiledIsNormalized(facts[0]);
      }
    }
  }

  ghost predicate IsNormalizedRoot(r: Root) {
    exists raw :: NormalizePathRoot(r.platform, raw) == Ok(r.path)
  }

  ghost predicate RootsNormalized(rule: Rule) {
    rule.scope.Paths? ==> forall r <- rule.scope.roots :: IsNormalizedRoot(r)
  }

  ghost predicate Normalized(rules: seq<Rule>) {
    forall rule <- rules :: RootsNormalized(rule)
  }

  lemma {:induction false} NormalizeRootsEach(roots: seq<(Platform, string)>)
    requires NormalizeRoots(roots).Ok?
    ensures forall r <- NormalizeRoots(roots).value :: IsNormalizedRoot(r)
    decreases |roots|
  {
    if roots != [] {
      NormalizeRootsEach(roots[1..]);
    }
  }

  lemma CompiledIsNormalized(f: Fact)
    requires CompileFact(f).Ok?
    ensures Fits(CompileFact(f).value.capability, CompileFact(f).value.scope) && RootsNormalized(CompileFact(f).value)
  {
    if f.scope.RawPaths? {
      NormalizeRootsEach(f.scope.roots);
      SortedRootsMembers(NormalizeRoots(f.scope.roots).value);
    }
  }

  lemma SortedRootsMembers(roots: seq<Root>)
    ensures forall r :: r in SortedRoots(roots) <==> r in roots
  {
    OnceKeeps(roots);
    SortKeeps(Once(roots), RootAtMost);
  }

  // ---------------------------------------------------------------- deciding

  /** The verdict of the allow rules in order: the first that does not deny, else the last denial. */
  function FirstGrant(fold: CaseFold, rules: seq<Rule>, c: Capability, q: Request, failed: Verdict): Verdict
    requires WellTyped(rules) && Asks(c, q)
  {
    if rules == [] then failed
    else if rules[0].capability != c || rules[0].effect == Deny then FirstGrant(fold, rules[1..], c, q, failed)
    else
      var v := EvaluateRule(fold, c, rules[0].scope, q);
      if v.Denied? then FirstGrant(fold, rules[1..], c, q, v) else v
  }

  function Decided(fold: CaseFold, rules: seq<Rule>, c: Capability, q: Request): Verdict
    requires WellTyped(rules) && Asks(c, q)
  {
    if exists r <- rules :: r.effect == Deny && Matches(fold, r, c, q) then Denied(ReasonFor(c))
    else FirstGrant(fold, rules, c, q, Denied(ReasonFor(c)))
  }

  lemma GrantStep(fold: CaseFold, rules: seq<Rule>, i: nat, c: Capability, q: Request, failed: Verdict)
    requires WellTyped(rules) && Asks(c, q) && i < |rules|
    ensures WellTyped(rules[i..]) && WellTyped(rules[i+1..])
    ensures FirstGrant(fold, rules[i..], c, q, failed) ==
            if rules[i].capability != c || rules[i].effect == Deny then FirstGrant(fold, rules[i+1..], c, q, failed)
            else if EvaluateRule(fold, c, rules[i].scope, q).Denied?
            then FirstGrant(fold, rules[i+1..], c, q, EvaluateRule(fold, c, rules[i].scope, q))
            else EvaluateRule(fold, c, rules[i].scope, q)
  {
    assert rules[i..][0] == rules[i] && rules[i..][1..] == rules[i+1..];
  }

  predicate Denies(fold: CaseFold, r: Rule, c: Capability, q: Request)
    requires Fits(r.capability, r.scope) && Asks(c, q)
  {
    r.effect == Deny && Matches(fold, r, c, q)
  }

  lemma DecidedByDeny(fold: CaseFold, rules: seq<Rule>, c: Capability, q: Request, i: nat)
    requires WellTyped(rules) && Asks(c, q) && i < |rules| && Denies(fold, rules[i], c, q)
    ensures Decided(fold, rules, c, q) == Denied(ReasonFor(c))
  {
    assert rules[i] in rules;
  }

  lemma DecidedWithoutDeny(fold: CaseFold, rules: seq<Rule>, c: Capability, q: Request)
    requires WellTyped(rules) && Asks(c, q) && forall k | 0 <= k < |rules| :: !Denies(fold, rules[k], c, q)
    ensures Decided(fold, rules, c, q) == FirstGrant(fold, rules, c, q, Denied(ReasonFor(c)))
  {
    forall r | r in rules ensures !Denies(fold, r, c, q) {
      var k := PositionOf(rules, r);
      assert !Denies(fold, rules[k], c, q);
    }
  }

  method DecideWithRules(fold: CaseFold, rules: seq<Rule>, c: Capability, q: Request) returns (v: Verdict)
    requires WellTyped(rules) && Asks(c, q)
    ensures v == Decided(fold, rules, c, q)
  {
    for i := 0 to |rules|
      invariant forall k | 0 <= k < i :: !Denies(fold, rules[k], c, q)
    {
      if rules[i].effect == Deny && Matches(fold, rules[i], c, q) {
        DecidedByDeny(fold, rules, c, q, i);
        return Denied(ReasonFor(c));
      }
    }
    DecidedWithoutDeny(fold, rules, c, q);
    v := GrantWithRules(fold, rules, c, q);
  }

  /** The second loop of `_decide_with_rules`: the allow rules in turn. */
  method GrantWithRules(fold: CaseFold, rules: seq<Rule>, c: Capability, q: Request) returns (v: Verdict)
    requires WellTyped(rules) && Asks(c, q)
    ensures v == FirstGrant(fold, rules, c, q, Denied(ReasonFor(c)))
  {
    var failed := Denied(ReasonFor(c));
    for i := 0 to |rules|
      invariant WellTyped(rules[i..])
      invariant FirstGrant(fold, rules[i..], c, q, failed) == FirstGrant(fold, rules, c, q, Denied(ReasonFor(c)))
    {
      GrantStep(fold, rules, i, c, q, failed);
      if rules[i].capability != c || rules[i].effect != Allow {
        continue;
      }
      var verdict := EvaluateRule(fold, c, rules[i].scope, q);
      if !verdict.Denied? {
        return verdict;
      }
      failed := verdict;
    }
    return failed;
  }

  // ---------------------------------------------------------------- allow and deny are disjoint

  lemma {:induction false} PairsAll(left: seq<Root>, right: seq<Root>, a: Root, b: Root)
    requires a in left && b in right
    ensures (a, b) in Pairs(left, right)
    decreases |left|
  {
    var row := seq(|right|, i requires 0 <= i < |right| => (left[0], right[i]));
    if a == left[0] {
      var k :| 0 <= k < |right| && right[k] == b;
      assert row[k] == (a, b);
    } else {
      PairsAll(left[1..], right, a, b);
    }
  }

  lemma {:induction false} NoneOverlap(fold: CaseFold, pairs: seq<(Root, Root)>, p: (Root, Root))
    requires AnyRootsOverlap(fold, pairs) == Ok(false) && p in pairs
    ensures RootsOverlap(fold, p.0, p.1) == Ok(false)
    decreases |pairs|
  {
    if p != pairs[0] {
      NoneOverlap(fold, pairs[1..], p);
    }
  }

  /** Normalizing such a root again is refused. */
  predicate RefusedAgain(r: Root) {
    r.platform == Windows && DevicePath(r.path)
  }

  /** Normalizing a root once more either gives it back or raises. */
  lemma NormalizedAgain(r: Root)
    requires IsNormalizedRoot(r)
    ensures NormalizePathRoot(r.platform, r.path) == if RefusedAgain(r) then Err(AmbiguousInput) else Ok(r.path)
  {
    var raw :| NormalizePathRoot(r.platform, raw) == Ok(r.path);
    if r.platform == Posix {
      PosixTwice(raw);
    } else {
      WindowsTwice(raw);
    }
  }

  /** Roots that pass the overlap test have no path in common. */
  lemma SeparateRoots(fold: CaseFold, a: Root, b: Root, path: Root)
    requires IsNormalizedRoot(a) && IsNormalizedRoot(b) && RootsOverlap(fold, a, b) == Ok(false)
    ensures !(PathIsWithinRoot(fold, a, path) && PathIsWithinRoot(fold, b, path))
  {
    if PathIsWithinRoot(fold, a, path) && PathIsWithinRoot(fold, b, path) {
      NormalizedAgain(a);
      NormalizedAgain(b);
      AnchorsAreComparable(Folded(fold, a), Folded(fold, b), Folded(fold, path), Separator(a.platform));
      assert false;
    }
  }

  /** An allow and a deny root on different platforms never pass the test: one way it raises. */
  lemma PlatformsAlwaysConflict(fold: CaseFold, a: Root, b: Root)
    requires IsNormalizedRoot(a) && IsNormalizedRoot(b) && a.platform != b.platform
    ensures RootsOverlap(fold, a, b) != Ok(false)
  {
    var raw :| NormalizePathRoot(a.platform, raw) == Ok(a.path);
    var raw' :| NormalizePathRoot(b.platform, raw') == Ok(b.path);
    if a.platform == Posix {
      WindowsRootIsNoPosixPath(raw');
    } else {
      WindowsRootIsNoPosixPath(raw);
    }
  }

  lemma SeparateScopes(fold: CaseFold, c: Capability, l: Rule, r: Rule, q: Request)
    requires c != CommandExecute && l.capability == r.capability == c && Asks(c, q)
    requires Fits(c, l.scope) && Fits(c, r.scope) && RootsNormalized(l) && RootsNormalized(r)
    requires ScopesOverlap(fold, c, l.scope, r.scope) == Ok(false)
    ensures !(Matches(fold, l, c, q) && Matches(fold, r, c, q))
  {
    if OnPaths(c) && Matches(fold, l, c, q) && Matches(fold, r, c, q) {
      var a :| a in l.scope.roots && PathIsWithinRoot(fold, a, q.path);
      var b :| b in r.scope.roots && PathIsWithinRoot(fold, b, q.path);
      PairsAll(l.scope.roots, r.scope.roots, a, b);
      NoneOverlap(fold, Pairs(l.scope.roots, r.scope.roots), (a, b));
      SeparateRoots(fold, a, b, q.path);
      assert false;
    }
  }

  /** In a compiled grant no path, network or skill request matches both an allow and a deny rule. */
  lemma GrantIsUnambiguous(fold: CaseFold, rules: seq<Rule>, c: Capability, q: Request)
    requires WellTyped(rules) && Normalized(rules) && NoConflict(fold, rules) && Asks(c, q) && c != CommandExecute
    ensures forall l, r | l in rules && r in rules && l.effect == Allow && r.effect == Deny ::
              !(Matches(fold, l, c, q) && Matches(fold, r, c, q))
  {
    forall l, r | l in rules && r in rules && l.effect == Allow && r.effect == Deny
      ensures !(Matches(fold, l, c, q) && Matches(fold, r, c, q))
    {
      OpposedRulesAreSeparate(fold, rules, c, q, l, r);
    }
  }

  lemma OpposedRulesAreSeparate(fold: CaseFold, rules: seq<Rule>, c: Capability, q: Request, l: Rule, r: Rule)
    requires WellTyped(rules) && Normalized(rules) && NoConflict(fold, rules) && Asks(c, q) && c != CommandExecute
    requires l in rules && r in rules && l.effect != r.effect
    ensures !(Matches(fold, l, c, q) && Matches(fold, r, c, q))
  {
    if l.capability == r.capability == c {
      var inOrder := CheckedPair(fold, rules, l, r);
      if inOrder {
        SeparateScopes(fold, c, l, r, q);
      } else {
        SeparateScopes(fold, c, r, l, q);
      }
    }
  }

  lemma PositionOf(rules: seq<Rule>, r: Rule) returns (i: nat)
    requires r in rules
    ensures i < |rules| && rules[i] == r
  {
    i :| 0 <= i < |rules| && rules[i] == r;
  }

  lemma PassesAt(fold: CaseFold, rules: seq<Rule>, i: nat, j: nat)
    requires WellTyped(rules) && NoConflict(fold, rules) && i < j < |rules| && Opposed(rules[i], rules[j])
    ensures Fits(rules[i].capability, rules[i].scope) && Fits(rules[i].capability, rules[j].scope)
    ensures ScopesOverlap(fold, rules[i].capability, rules[i].scope, rules[j].scope) == Ok(false)
  {
    assert Passes(fold, rules[i], rules[j]);
  }

  /** Of two opposed rules the overlap test covers one way round or the other. */
  lemma CheckedPair(fold: CaseFold, rules: seq<Rule>, l: Rule, r: Rule) returns (inOrder: bool)
    requires WellTyped(rules) && NoConflict(fold, rules) && l in rules && r in rules && Opposed(l, r)
    ensures Fits(l.capability, l.scope) && Fits(l.capability, r.scope)
    ensures inOrder ==> ScopesOverlap(fold, l.capability, l.scope, r.scope) == Ok(false)
    ensures !inOrder ==> ScopesOverlap(fold, l.capability, r.scope, l.scope) == Ok(false)
  {
    var i := PositionOf(rules, l);
    var j := PositionOf(rules, r);
    inOrder := i < j;
    if inOrder {
      PassesAt(fold, rules, i, j);
    } else {
      PassesAt(fold, rules, j, i);
    }
  }

  /** So such a request is allowed exactly when some allow rule matches it. */
  lemma AllowedIffGranted(fold: CaseFold, rules: seq<Rule>, c: Capability, q: Request)
    requires WellTyped(rules) && Normalized(rules) && NoConflict(fold, rules) && Asks(c, q) && c != CommandExecute
    ensures Decided(fold, rules, c, q) == Allowed <==> exists r <- rules :: r.effect == Allow && Matches(fold, r, c, q)
  {
    GrantIsUnambiguous(fold, rules, c, q);
    FirstGrantStatus(fold, rules, c, q, Denied(ReasonFor(c)));
  }

  ghost predicate ShareACommand(l: Command, r: Command) {
    exists q :: CommandIsAuthorized(l, q) && CommandIsAuthorized(r, q)
  }

  /** Two command scopes have a common request exactly when they agree on everything but the variables. */
  lemma CommandsMeet(l: Command, r: Command)
    ensures ShareACommand(l, r) <==>
            l.platform == r.platform && l.argv == r.argv && l.cwd == r.cwd
  {
    var q := l.(env := {});
    assert CommandIsAuthorized(l, q);
  }

  /**
   The overlap test on commands misses a common request exactly when both scopes name variables
   and none in common: the request without variables then matches both.
   */
  lemma CommandOverlapMissesIff(l: Command, r: Command)
    ensures ShareACommand(l, r) && !CommandsOverlap(l, r)
            <==> && l.platform == r.platform && l.argv == r.argv && l.cwd == r.cwd
                 && l.env != {} && r.env != {} && l.env * r.env == {}
  {
    CommandsMeet(l, r);
  }

  // ---------------------------------------------------------------- order of the facts

  /** The same rules in another order. */
  ghost predicate Reordered(rules: seq<Rule>, other: seq<Rule>) {
    multiset(rules) == multiset(other)
  }

  lemma ReorderedMembers(rules: seq<Rule>, other: seq<Rule>)
    requires Reordered(rules, other)
    ensures forall r :: r in rules <==> r in other
  {
    forall r ensures r in rules <==> r in other {
      assert r in rules <==> multiset(rules)[r] > 0;
      assert r in other <==> multiset(other)[r] > 0;
    }
  }

  lemma {:induction false} PairsOnly(left: seq<Root>, right: seq<Root>, p: (Root, Root))
    requires p in Pairs(left, right)
    ensures p.0 in left && p.1 in right
    decreases |left|
  {
    var row := seq(|right|, i requires 0 <= i < |right| => (left[0], right[i]));
    if p in row {
      var k :| 0 <= k < |row| && row[k] == p;
    } else {
      PairsOnly(left[1..], right, p);
    }
  }

  lemma {:induction false} NoneOverlapConverse(fold: CaseFold, pairs: seq<(Root, Root)>)
    requires forall p <- pairs :: RootsOverlap(fold, p.0, p.1) == Ok(false)
    ensures AnyRootsOverlap(fold, pairs) == Ok(false)
    decreases |pairs|
  {
    if pairs != [] {
      assert pairs[0] in pairs && forall p <- pairs[1..] :: p in pairs;
      NoneOverlapConverse(fold, pairs[1..]);
    }
  }

  /** Whether two scopes pass the overlap test does not depend on which comes first. */
  lemma OverlapEitherWay(fold: CaseFold, c: Capability, l: Scope, r: Scope)
    requires Fits(c, l) && Fits(c, r) && ScopesOverlap(fold, c, l, r) == Ok(false)
    ensures ScopesOverlap(fold, c, r, l) == Ok(false)
  {
    if OnPaths(c) {
      var pairs := Pairs(r.roots, l.roots);
      forall p | p in pairs ensures RootsOverlap(fold, p.0, p.1) == Ok(false) {
        PairsOnly(r.roots, l.roots, p);
        PairsAll(l.roots, r.roots, p.1, p.0);
        NoneOverlap(fold, Pairs(l.roots, r.roots), (p.1, p.0));
      }
      NoneOverlapConverse(fold, pairs);
    } else if c == CommandExecute {
      assert l.command.env * r.command.env == r.command.env * l.command.env;
    }
  }

  ghost predicate ShareAPath(fold: CaseFold, a: Root, b: Root) {
    exists path :: PathIsWithinRoot(fold, a, path) && PathIsWithinRoot(fold, b, path)
  }

  /** No path in common, on one platform, and neither refused when normalized again. */
  ghost predicate Apart(fold: CaseFold, a: Root, b: Root) {
    a.platform == b.platform && !RefusedAgain(a) && !RefusedAgain(b) && !ShareAPath(fold, a, b)
  }

  /** Those are the roots that pass the overlap test. */
  lemma RootsPassIff(fold: CaseFold, a: Root, b: Root)
    requires IsNormalizedRoot(a) && IsNormalizedRoot(b)
    ensures RootsOverlap(fold, a, b) == Ok(false) <==> Apart(fold, a, b)
  {
    if a.platform != b.platform {
      PlatformsAlwaysConflict(fold, a, b);
    } else {
      NormalizedAgain(a);
      NormalizedAgain(b);
      assert PathIsWithinRoot(fold, a, a) && PathIsWithinRoot(fold, b, b);
      if RootsOverlap(fold, a, b) == Ok(false) && ShareAPath(fold, a, b) {
        var path :| PathIsWithinRoot(fold, a, path) && PathIsWithinRoot(fold, b, path);
        SeparateRoots(fold, a, b, path);
        assert false;
      }
    }
  }

  /** Some verified request is within the authority of both network scopes. */
  ghost predicate ShareARequest(l: Scope, r: Scope)
    requires l.Network? && r.Network?
  {
    exists q: Request :: q.NetworkRequest? && NetworkIsAuthorized(l.target, l.redirects, q) == Allowed
                         && NetworkIsAuthorized(r.target, r.redirects, q) == Allowed
  }

  /** What it takes for an allow and a deny scope to stand in one grant, without naming the test. */
  ghost predicate Separate(fold: CaseFold, l: Scope, r: Scope) {
    match l
    case Paths(roots) =>
      r.Paths? && forall a, b | a in roots && b in r.roots :: Apart(fold, a, b)
    case Commands(command) =>
      r.Commands? && (!ShareACommand(command, r.command)
                      || (command.env != {} && r.command.env != {} && command.env * r.command.env == {}))
    case Network(_, _) => r.Network? && !ShareARequest(l, r)
    case Skills(skill) => r.Skills? && forall provenance: string :: skill.(provenance := provenance) != r.skill
  }

  lemma NetworksShareIff(l: Scope, r: Scope)
    requires l.Network? && r.Network? && !l.target.unverified
    ensures ShareARequest(l, r) <==> l.target == r.target
  {
    if l.target == r.target {
      var q := NetworkRequest(l.target, []);
      assert NetworkIsAuthorized(l.target, l.redirects, q) == Allowed;
    }
  }

  lemma PairPassesIff(fold: CaseFold, l: seq<Root>, r: seq<Root>, p: (Root, Root))
    requires forall a <- l + r :: IsNormalizedRoot(a)
    requires p in Pairs(l, r)
    ensures p.0 in l && p.1 in r && (RootsOverlap(fold, p.0, p.1) == Ok(false) <==> Apart(fold, p.0, p.1))
  {
    PairsOnly(l, r, p);
    assert p.0 in l + r && p.1 in l + r;
    RootsPassIff(fold, p.0, p.1);
  }

  lemma PassingRootsAreApart(fold: CaseFold, l: seq<Root>, r: seq<Root>)
    requires forall a <- l + r :: IsNormalizedRoot(a)
    requires AnyRootsOverlap(fold, Pairs(l, r)) == Ok(false)
    ensures forall a, b | a in l && b in r :: Apart(fold, a, b)
  {
    forall a, b | a in l && b in r ensures Apart(fold, a, b) {
      PairsAll(l, r, a, b);
      PairPassesIff(fold, l, r, (a, b));
      NoneOverlap(fold, Pairs(l, r), (a, b));
    }
  }

  lemma RootsApartPass(fold: CaseFold, l: seq<Root>, r: seq<Root>)
    requires forall a <- l + r :: IsNormalizedRoot(a)
    requires forall a, b | a in l && b in r :: Apart(fold, a, b)
    ensures AnyRootsOverlap(fold, Pairs(l, r)) == Ok(false)
  {
    forall p | p in Pairs(l, r) ensures RootsOverlap(fold, p.0, p.1) == Ok(false) {
      PairPassesIff(fold, l, r, p);
    }
    NoneOverlapConverse(fold, Pairs(l, r));
  }

  lemma PathScopesPassIff(fold: CaseFold, l: seq<Root>, r: seq<Root>)
    requires forall a <- l + r :: IsNormalizedRoot(a)
    ensures AnyRootsOverlap(fold, Pairs(l, r)) == Ok(false) <==> Separate(fold, Paths(l), Paths(r))
  {
    if AnyRootsOverlap(fold, Pairs(l, r)) == Ok(false) {
      PassingRootsAreApart(fold, l, r);
    } else if Separate(fold, Paths(l), Paths(r)) {
      RootsApartPass(fold, l, r);
    }
  }

  /** The overlap test passes exactly the scopes that are separate. */
  lemma ScopesPassIff(fold: CaseFold, l: Rule, r: Rule)
    requires l.capability == r.capability && Fits(l.capability, l.scope) && Fits(r.capability, r.scope)
    requires RootsNormalized(l) && RootsNormalized(r) && !NeedsHostVerification(l.scope)
    ensures ScopesOverlap(fold, l.capability, l.scope, r.scope) == Ok(false) <==> Separate(fold, l.scope, r.scope)
  {
    match l.scope
    case Paths(roots) =>
      PathScopesPassIff(fold, roots, r.scope.roots);
    case Commands(command) =>
      CommandsMeet(command, r.scope.command);
      assert CommandsOverlap(command, r.scope.command) <==> !Separate(fold, l.scope, r.scope);
    case Network(_, _) =>
      NetworksShareIff(l.scope, r.scope);
    case Skills(skill) =>
      assert skill.(provenance := r.scope.skill.provenance).provenance == r.scope.skill.provenance;
  }

  /** Rules are free of conflicts exactly when every two opposed ones are separate. */
  lemma NoConflictIff(fold: CaseFold, rules: seq<Rule>)
    requires WellTyped(rules) && Normalized(rules) && forall r <- rules :: !NeedsHostVerification(r.scope)
    ensures NoConflict(fold, rules) <==>
              forall l, r | l in rules && r in rules && Opposed(l, r) :: Separate(fold, l.scope, r.scope)
  {
    if NoConflict(fold, rules) {
      forall l, r | l in rules && r in rules && Opposed(l, r) ensures Separate(fold, l.scope, r.scope) {
        var inOrder := CheckedPair(fold, rules, l, r);
        if !inOrder {
          OverlapEitherWay(fold, l.capability, r.scope, l.scope);
        }
        ScopesPassIff(fold, l, r);
      }
    } else {
      var i, j :| 0 <= i < j < |rules| && !Passes(fold, rules[i], rules[j]);
      ScopesPassIff(fold, rules[i], rules[j]);
    }
  }

  /** Rules without conflict stay so in another order. */
  lemma ReorderedGrant(fold: CaseFold, rules: seq<Rule>, other: seq<Rule>)
    requires WellTyped(rules) && Normalized(rules) && NoConflict(fold, rules) && Reordered(rules, other)
    ensures WellTyped(other) && Normalized(other) && NoConflict(fold, other)
  {
    ReorderedMembers(rules, other);
    forall i, j | 0 <= i < j < |other| ensures Passes(fold, other[i], other[j]) {
      if Opposed(other[i], other[j]) {
        var inOrder := CheckedPair(fold, rules, other[i], other[j]);
        if !inOrder {
          OverlapEitherWay(fold, other[i].capability, other[j].scope, other[i].scope);
        }
      }
    }
  }

  /** One fact in the middle of others: its rule, if wanted, is one more among theirs. */
  lemma {:induction false} CompileAllAt(facts: seq<Fact>, i: nat, required: Option<set<Capability>>)
    requires i < |facts|
    ensures AddsRuleOf(facts[i], required, CompileAll(facts[..i] + facts[i+1..], required), CompileAll(facts, required))
    decreases i
  {
    var without := facts[..i] + facts[i+1..];
    AddsFirst(facts, required);
    if i == 0 {
      assert without == facts[1..];
    } else {
      assert without[0] == facts[0] && without[1..] == facts[1..][..i-1] + facts[1..][i..];
      AddsFirst(without, required);
      CompileAllAt(facts[1..], i - 1, required);
    }
  }

  /** One list of rules is another with the rule of a fact, if it is wanted, somewhere in between. */
  ghost predicate AddsRuleOf(f: Fact, required: Option<set<Capability>>,
                             rest: Result<seq<Rule>, CompileFailure>, all: Result<seq<Rule>, CompileFailure>) {
    && (all.Ok? <==> rest.Ok? && (Wanted(required, f) ==> CompileFact(f).Ok?))
    && (all.Ok? ==> multiset(all.value) ==
                    multiset(rest.value) + if Wanted(required, f) then multiset{CompileFact(f).value} else multiset{})
  }

  lemma AddsFirst(facts: seq<Fact>, required: Option<set<Capability>>)
    requires facts != []
    ensures AddsRuleOf(facts[0], required, CompileAll(facts[1..], required), CompileAll(facts, required))
  {
  }

  lemma WithoutOne(facts: seq<Fact>, i: nat)
    requires i < |facts|
    ensures multiset(facts[..i] + facts[i+1..]) == multiset(facts) - multiset{facts[i]}
  {
    assert facts == facts[..i] + [facts[i]] + facts[i+1..];
  }

  /** Where the first fact is in another order of the facts. */
  lemma SameFact(facts: seq<Fact>, other: seq<Fact>) returns (i: nat)
    requires facts != [] && multiset(facts) == multiset(other)
    ensures i < |other| && other[i] == facts[0]
    ensures multiset(facts[1..]) == multiset(other[..i] + other[i+1..])
  {
    assert facts[0] in facts && facts[0] in other by { SameMembers(facts, other); }
    i :| 0 <= i < |other| && other[i] == facts[0];
    WithoutFirst(facts);
    WithoutOne(other, i);
  }

  lemma WithoutFirst(facts: seq<Fact>)
    requires facts != []
    ensures multiset(facts[1..]) == multiset(facts) - multiset{facts[0]}
  {
    assert facts == [facts[0]] + facts[1..];
  }

  lemma {:induction false} CompileAllAnyOrder(facts: seq<Fact>, other: seq<Fact>, required: Option<set<Capability>>)
    requires multiset(facts) == multiset(other)
    ensures CompileAll(facts, required).Ok? <==> CompileAll(other, required).Ok?
    ensures CompileAll(facts, required).Ok? ==>
              multiset(CompileAll(facts, required).value) == multiset(CompileAll(other, required).value)
    decreases |facts|
  {
    if facts == [] {
      assert |multiset(other)| == 0;
    } else {
      var i := SameFact(facts, other);
      var rest := other[..i] + other[i+1..];
      CompileAllAt(facts, 0, required);
      assert facts[..0] + facts[1..] == facts[1..];
      CompileAllAt(other, i, required);
      CompileAllAnyOrder(facts[1..], rest, required);
    }
  }

  /** The canonical texts of verified scopes tell them apart. */
  ghost predicate Injective(canonical: Canonical) {
    forall s, t | !NeedsHostVerification(s) && !NeedsHostVerification(t) && canonical(s) == canonical(t) :: s == t
  }

  lemma {:induction false} CompiledIsVerified(facts: seq<Fact>, required: Option<set<Capability>>)
    requires CompileAll(facts, required).Ok?
    ensures forall r <- CompileAll(facts, required).value :: !NeedsHostVerification(r.scope)
    decreases |facts|
  {
    if facts != [] {
      CompiledIsVerified(facts[1..], required);
    }
  }

  /**
   The facts of a grant may come in any order: it compiles all the same, and to the same rules, so that
   every decision against it is the same, reason included.
   */
  lemma GrantIgnoresFactOrder(fold: CaseFold, canonical: Canonical, facts: seq<Fact>, other: seq<Fact>,
                              required: Option<set<Capability>>)
    requires Injective(canonical) && multiset(facts) == multiset(other)
    ensures Compiles(fold, facts, required) <==> Compiles(fold, other, required)
    ensures Compiles(fold, facts, required) ==>
              SortedRules(canonical, CompileAll(facts, required).value) == SortedRules(canonical, CompileAll(other, required).value)
  {
    CompileAllAnyOrder(facts, other, required);
    if CompileAll(facts, required).Ok? {
      var rules, rules' := CompileAll(facts, required).value, CompileAll(other, required).value;
      CompiledRules(facts, required);
      CompiledRules(other, required);
      if NoConflict(fold, rules) {
        ReorderedGrant(fold, rules, rules');
      }
      if NoConflict(fold, rules') {
        ReorderedGrant(fold, rules', rules);
      }
      CompiledIsVerified(facts, required);
      RulesOrder(canonical);
      forall r, t | r in rules && t in rules && KeyAtMost(canonical, r, t) && KeyAtMost(canonical, t, r) ensures r == t {
        LexTotal(canonical(r.scope), canonical(t.scope));
      }
      SortForgetsOrder(rules, rules', ByKey(canonical));
    }
  }

  // ---------------------------------------------------------------- which grants compile

  /** The fact has this rule. */
  ghost predicate Gives(required: Option<set<Capability>>, f: Fact, r: Rule) {
    IsAsked(required, f) && CompileFact(f) == Ok(r)
  }

  ghost predicate IsGiven(facts: seq<Fact>, required: Option<set<Capability>>, r: Rule) {
    exists f <- facts :: Gives(required, f, r)
  }

  lemma GivenFirst(facts: seq<Fact>, required: Option<set<Capability>>, r: Rule)
    requires facts != []
    ensures IsGiven(facts, required, r) <==> Gives(required, facts[0], r) || IsGiven(facts[1..], required, r)
  {
    assert forall f :: f in facts <==> f == facts[0] || f in facts[1..];
  }

  lemma {:induction false} RulesAreOfFacts(facts: seq<Fact>, required: Option<set<Capability>>)
    ensures CompileAll(facts, required).Ok? <==> forall f <- facts :: IsAsked(required, f) ==> CompileFact(f).Ok?
    ensures CompileAll(facts, required).Ok? ==>
              forall r :: r in CompileAll(facts, required).value <==> IsGiven(facts, required, r)
    decreases |facts|
  {
    if facts != [] {
      var rest := facts[1..];
      RulesAreOfFacts(rest, required);
      assert forall f :: f in facts <==> f == facts[0] || f in rest;
      if CompileAll(facts, required).Ok? {
        forall r ensures r in CompileAll(facts, required).value <==> IsGiven(facts, required, r) {
          GivenFirst(facts, required, r);
        }
      }
    }
  }

  /** Two facts that are not opposed, or whose normalized scopes are separate. */
  ghost predicate Agree(fold: CaseFold, required: Option<set<Capability>>, f: Fact, g: Fact) {
    f.capability == g.capability && f.effect != g.effect ==>
      forall l, r | Gives(required, f, l) && Gives(required, g, r) :: Separate(fold, l.scope, r.scope)
  }

  lemma OpposedRulesAgreeIff(fold: CaseFold, facts: seq<Fact>, required: Option<set<Capability>>)
    ensures (forall l, r | IsGiven(facts, required, l) && IsGiven(facts, required, r) && Opposed(l, r) ::
               Separate(fold, l.scope, r.scope))
            <==> forall f, g | f in facts && g in facts :: Agree(fold, required, f, g)
  {
    if forall f, g | f in facts && g in facts :: Agree(fold, required, f, g) {
      forall l, r | IsGiven(facts, required, l) && IsGiven(facts, required, r) && Opposed(l, r)
        ensures Separate(fold, l.scope, r.scope)
      {
        var f :| f in facts && Gives(required, f, l);
        var g :| g in facts && Gives(required, g, r);
        assert Agree(fold, required, f, g);
      }
    } else {
      var f, g :| f in facts && g in facts && !Agree(fold, required, f, g);
      var l, r :| Gives(required, f, l) && Gives(required, g, r) && !Separate(fold, l.scope, r.scope);
      assert IsGiven(facts, required, l) && IsGiven(facts, required, r) && Opposed(l, r);
    }
  }

  /**
   A grant compiles exactly when every wanted fact has a rule, and every two wanted facts of one
   capability with different effects have separate scopes.
   */
  lemma GrantCompilesIff(fold: CaseFold, facts: seq<Fact>, required: Option<set<Capability>>)
    ensures Compiles(fold, facts, required) <==>
              && (forall f <- facts :: IsAsked(required, f) ==> CompileFact(f).Ok?)
              && (forall f, g | f in facts && g in facts :: Agree(fold, required, f, g))
  {
    RulesAreOfFacts(facts, required);
    if CompileAll(facts, required).Ok? {
      CompiledRules(facts, required);
      CompiledIsVerified(facts, required);
      NoConflictIff(fold, CompileAll(facts, required).value);
      OpposedRulesAgreeIff(fold, facts, required);
    }
  }

  // ---------------------------------------------------------------- from facts to decisions

  /** What a fact covers, by its own scope. */
  ghost predicate Covers(fold: CaseFold, f: Fact, q: Request) {
    match f.scope
    case RawPaths(roots) =>
      q.PathRequest? && exists root :: StatesRoot(roots, root) && PathIsWithinRoot(fold, root, q.path)
    case Given(scope) =>
      (match scope
       case Paths(_) => false
       case Commands(command) =>
         q.CommandRequest? && q.command.platform == command.platform && q.command.argv == command.argv
         && q.command.cwd == command.cwd && forall name <- q.command.env :: name in command.env
       case Network(target, redirects) =>
         q.NetworkRequest? && !q.target.unverified && q.target == target
         && forall t <- q.redirects :: t in redirects
       case Skills(skill) => q.SkillRequest? && q.skill == skill)
  }

  lemma PathsMatch(fold: CaseFold, r: Rule, f: Fact, q: Request)
    requires IsRuleOf(r, f) && f.scope.RawPaths? && Fits(r.capability, r.scope) && Asks(r.capability, q)
    ensures Matches(fold, r, r.capability, q) <==> Covers(fold, f, q)
  {
    assert forall root :: root in r.scope.roots <==> StatesRoot(f.scope.roots, root);
    if root :| StatesRoot(f.scope.roots, root) && PathIsWithinRoot(fold, root, q.path) {
      assert root in r.scope.roots;
    }
    if root :| root in r.scope.roots && PathIsWithinRoot(fold, root, q.path) {
      assert StatesRoot(f.scope.roots, root);
    }
  }

  lemma NetworkMatches(target: Target, redirects: seq<Target>, q: Request)
    requires q.NetworkRequest?
    ensures NetworkIsAuthorized(target, redirects, q) == Allowed <==>
            !q.target.unverified && q.target == target && forall t <- q.redirects :: t in redirects
  {
    assert q.redirects != [] ==> q.redirects[0] in q.redirects;
  }

  /** A rule matches a request of its capability exactly when its fact covers it. */
  lemma MatchesIffCovers(fold: CaseFold, r: Rule, f: Fact, q: Request)
    requires IsRuleOf(r, f) && Fits(r.capability, r.scope) && Asks(r.capability, q)
    ensures Matches(fold, r, r.capability, q) <==> Covers(fold, f, q)
  {
    if f.scope.RawPaths? {
      PathsMatch(fold, r, f, q);
    } else if r.scope.Network? {
      NetworkMatches(r.scope.target, r.scope.redirects, q);
    }
  }

  /** Some wanted fact of the capability and the effect covers the request. */
  ghost predicate SomeFactSays(fold: CaseFold, facts: seq<Fact>, required: Option<set<Capability>>,
                               c: Capability, effect: string, q: Request)
  {
    exists f <- facts :: IsAsked(required, f) && f.capability == c && f.effect == effect && Covers(fold, f, q)
  }

  ghost predicate SomeRuleMatches(fold: CaseFold, rules: seq<Rule>, c: Capability, effect: Effect, q: Request)
    requires WellTyped(rules) && Asks(c, q)
  {
    exists r <- rules :: r.effect == effect && Matches(fold, r, c, q)
  }

  lemma RuleSaysFact(fold: CaseFold, rules: seq<Rule>, facts: seq<Fact>, required: Option<set<Capability>>, r: Rule, q: Request)
    requires WellTyped(rules) && IsGrantOf(rules, facts, required) && r in rules && Asks(r.capability, q)
    requires Matches(fold, r, r.capability, q)
    ensures SomeFactSays(fold, facts, required, r.capability, TextOf(r.effect), q)
  {
    assert HasFact(facts, required, r);
    var f :| f in facts && IsAsked(required, f) && IsRuleOf(r, f);
    MatchesIffCovers(fold, r, f, q);
  }

  lemma FactSaysRule(fold: CaseFold, rules: seq<Rule>, facts: seq<Fact>, required: Option<set<Capability>>, e: Effect, f: Fact, q: Request)
    requires WellTyped(rules) && IsGrantOf(rules, facts, required) && f in facts && IsAsked(required, f)
    requires f.effect == TextOf(e) && Asks(f.capability, q) && Covers(fold, f, q)
    ensures SomeRuleMatches(fold, rules, f.capability, e, q)
  {
    assert HasRule(rules, f);
    var r :| r in rules && IsRuleOf(r, f);
    MatchesIffCovers(fold, r, f, q);
  }

  /** The rules of a grant match what its wanted facts say, effect by effect. */
  lemma RulesSayFacts(fold: CaseFold, rules: seq<Rule>, facts: seq<Fact>, required: Option<set<Capability>>,
                      c: Capability, e: Effect, q: Request)
    requires WellTyped(rules) && IsGrantOf(rules, facts, required) && Asks(c, q)
    ensures SomeRuleMatches(fold, rules, c, e, q) <==> SomeFactSays(fold, facts, required, c, TextOf(e), q)
  {
    if SomeRuleMatches(fold, rules, c, e, q) {
      var r :| r in rules && r.effect == e && Matches(fold, r, c, q);
      RuleSaysFact(fold, rules, facts, required, r, q);
    }
    if SomeFactSays(fold, facts, required, c, TextOf(e), q) {
      var f :| f in facts && IsAsked(required, f) && f.capability == c && f.effect == TextOf(e) && Covers(fold, f, q);
      FactSaysRule(fold, rules, facts, required, e, f, q);
    }
  }

  lemma AllowedIffRuleAllows(fold: CaseFold, rules: seq<Rule>, c: Capability, q: Request)
    requires WellTyped(rules) && Normalized(rules) && NoConflict(fold, rules) && Asks(c, q) && c != CommandExecute
    ensures Decided(fold, rules, c, q) == Allowed <==> SomeRuleMatches(fold, rules, c, Allow, q)
  {
    AllowedIffGranted(fold, rules, c, q);
  }

  /**
   From facts to decisions: against the rules of a grant, a request that is no command is allowed if and
   only if some wanted allow fact of its capability covers it.
   */
  lemma AllowedIffFactAllows(fold: CaseFold, rules: seq<Rule>, facts: seq<Fact>, required: Option<set<Capability>>,
                             c: Capability, q: Request)
    requires WellTyped(rules) && Normalized(rules) && NoConflict(fold, rules) && IsGrantOf(rules, facts, required)
    requires Asks(c, q) && c != CommandExecute
    ensures Decided(fold, rules, c, q) == Allowed <==> SomeFactSays(fold, facts, required, c, "allow", q)
  {
    AllowedIffRuleAllows(fold, rules, c, q);
    RulesSayFacts(fold, rules, facts, required, c, Allow, q);
  }

  lemma DenyRuleDenies(fold: CaseFold, rules: seq<Rule>, c: Capability, q: Request)
    requires WellTyped(rules) && Asks(c, q) && SomeRuleMatches(fold, rules, c, Deny, q)
    ensures Decided(fold, rules, c, q).Denied?
  {
  }

  /** And a wanted deny fact that covers a request denies it, commands included. */
  lemma DenyFactDenies(fold: CaseFold, rules: seq<Rule>, facts: seq<Fact>, required: Option<set<Capability>>,
                       c: Capability, q: Request)
    requires WellTyped(rules) && IsGrantOf(rules, facts, required) && Asks(c, q)
    requires SomeFactSays(fold, facts, required, c, "deny", q)
    ensures Decided(fold, rules, c, q).Denied?
  {
    RulesSayFacts(fold, rules, facts, required, c, Deny, q);
    DenyRuleDenies(fold, rules, c, q);
  }

  lemma CommandRules(fold: CaseFold, rules: seq<Rule>, q: Request)
    requires WellTyped(rules) && q.CommandRequest?
    ensures Decided(fold, rules, CommandExecute, q) == Allowed <==>
            SomeRuleMatches(fold, rules, CommandExecute, Allow, q) && !SomeRuleMatches(fold, rules, CommandExecute, Deny, q)
  {
    FirstGrantStatus(fold, rules, CommandExecute, q, Denied(ReasonFor(CommandExecute)));
    if r :| r in rules && r.effect == Allow && Matches(fold, r, CommandExecute, q) {
      assert Grants(fold, r, CommandExecute, q, Allowed);
    }
  }

  /** For commands: allowed if and only if some allow fact covers the request and no deny fact does. */
  lemma CommandAllowedIff(fold: CaseFold, rules: seq<Rule>, facts: seq<Fact>, required: Option<set<Capability>>, q: Request)
    requires WellTyped(rules) && IsGrantOf(rules, facts, required) && q.CommandRequest?
    ensures Decided(fold, rules, CommandExecute, q) == Allowed <==>
            && SomeFactSays(fold, facts, required, CommandExecute, "allow", q)
            && !SomeFactSays(fold, facts, required, CommandExecute, "deny", q)
  {
    RulesSayFacts(fold, rules, facts, required, CommandExecute, Allow, q);
    RulesSayFacts(fold, rules, facts, required, CommandExecute, Deny, q);
    CommandRules(fold, rules, q);
  }

  lemma {:induction false} NormalizeRootsMembers(roots: seq<(Platform, string)>)
    ensures NormalizeRoots(roots).Ok? <==> forall p <- roots :: NormalizePathRoot(p.0, p.1).Ok?
    ensures NormalizeRoots(roots).Ok? ==>
              forall r :: r in NormalizeRoots(roots).value <==>
                          exists p <- roots :: NormalizePathRoot(p.0, p.1) == Ok(r.path) && p.0 == r.platform
    decreases |roots|
  {
    if roots != [] {
      assert roots == [roots[0]] + roots[1..];
      NormalizeRootsMembers(roots[1..]);
    }
  }

  /** Within one fact the roots may come in any order and any number of times. */
  lemma ScopeIgnoresRootOrder(c: Capability, roots: seq<(Platform, string)>, other: seq<(Platform, string)>)
    requires forall p :: p in roots <==> p in other
    ensures NormalizeScope(c, RawPaths(roots)).Ok? <==> NormalizeScope(c, RawPaths(other)).Ok?
    ensures NormalizeScope(c, RawPaths(roots)).Ok? ==> NormalizeScope(c, RawPaths(roots)) == NormalizeScope(c, RawPaths(other))
  {
    assert roots == [] || roots[0] in other;
    assert other == [] || other[0] in roots;
    NormalizeRootsMembers(roots);
    NormalizeRootsMembers(other);
    if NormalizeRoots(roots).Ok? {
      RootsOrder();
      SortedSet(NormalizeRoots(roots).value, NormalizeRoots(other).value, RootAtMost);
    }
  }

  // ---------------------------------------------------------------- order of the rules

  /** The status of a verdict, without the reason of a denial. */
  datatype Status = AllowStatus | DenyStatus | VerifyStatus

  function StatusOf(v: Verdict): Status {
    match v
    case Allowed => AllowStatus
    case Denied(_) => DenyStatus
    case HostVerificationRequired => VerifyStatus
  }

  ghost predicate Grants(fold: CaseFold, r: Rule, c: Capability, q: Request, v: Verdict)
    requires Fits(r.capability, r.scope) && Asks(c, q)
  {
    r.capability == c && r.effect == Allow && EvaluateRule(fold, c, r.scope, q) == v
  }

  lemma {:induction false} FirstGrantStatus(fold: CaseFold, rules: seq<Rule>, c: Capability, q: Request, failed: Verdict)
    requires WellTyped(rules) && Asks(c, q) && failed.Denied?
    ensures StatusOf(FirstGrant(fold, rules, c, q, failed)) ==
            if exists r <- rules :: Grants(fold, r, c, q, Allowed) then AllowStatus
            else if exists r <- rules :: Grants(fold, r, c, q, HostVerificationRequired) then VerifyStatus
            else DenyStatus
    decreases |rules|
  {
    if rules != [] {
      SomeGrantsSplit(fold, rules, c, q, Allowed);
      SomeGrantsSplit(fold, rules, c, q, HostVerificationRequired);
      if rules[0].capability != c || rules[0].effect == Deny {
        FirstGrantStatus(fold, rules[1..], c, q, failed);
      } else {
        var v := EvaluateRule(fold, c, rules[0].scope, q);
        if v.Denied? {
          FirstGrantStatus(fold, rules[1..], c, q, v);
        } else if v == HostVerificationRequired {
          assert q.target.unverified;
          assert forall r <- rules :: !Grants(fold, r, c, q, Allowed);
        }
      }
    }
  }

  lemma SomeGrantsSplit(fold: CaseFold, rules: seq<Rule>, c: Capability, q: Request, v: Verdict)
    requires rules != [] && WellTyped(rules) && Asks(c, q)
    ensures WellTyped(rules[1..])
    ensures (exists r <- rules :: Grants(fold, r, c, q, v)) <==>
            Grants(fold, rules[0], c, q, v) || exists r <- rules[1..] :: Grants(fold, r, c, q, v)
  {
    assert rules == [rules[0]] + rules[1..];
  }

  /** The status of a decision depends on which rules there are, not on their order or number. */
  lemma StatusIgnoresOrder(fold: CaseFold, rules: seq<Rule>, other: seq<Rule>, c: Capability, q: Request)
    requires WellTyped(rules) && WellTyped(other) && Asks(c, q)
    requires forall r :: r in rules <==> r in other
    ensures StatusOf(Decided(fold, rules, c, q)) == StatusOf(Decided(fold, other, c, q))
  {
    FirstGrantStatus(fold, rules, c, q, Denied(ReasonFor(c)));
    FirstGrantStatus(fold, other, c, q, Denied(ReasonFor(c)));
  }

  /** The allow rules that a request for `c` is tried against. */
  predicate Tried(r: Rule, c: Capability) {
    r.capability == c && r.effect == Allow
  }

  /** The verdict of the last allow rule of the capability, or `none` without one. */
  function LastVerdict(fold: CaseFold, rules: seq<Rule>, c: Capability, q: Request, none: Verdict): Verdict
    requires WellTyped(rules) && Asks(c, q)
  {
    if rules == [] then none
    else
      var r := rules[|rules|-1];
      if Tried(r, c) then EvaluateRule(fold, c, r.scope, q) else LastVerdict(fold, rules[..|rules|-1], c, q, none)
  }

  lemma {:induction false} LastVerdictUnfolds(fold: CaseFold, rules: seq<Rule>, c: Capability, q: Request, none: Verdict)
    requires rules != [] && WellTyped(rules) && Asks(c, q)
    ensures WellTyped(rules[1..])
    ensures LastVerdict(fold, rules, c, q, none) ==
            LastVerdict(fold, rules[1..], c, q, if Tried(rules[0], c) then EvaluateRule(fold, c, rules[0].scope, q) else none)
    decreases |rules|
  {
    var n := |rules| - 1;
    assert WellTyped(rules[1..]) by { assert forall r <- rules[1..] :: r in rules; }
    if n > 0 {
      assert rules[..n][1..] == rules[1..][..n-1] && rules[1..][n-1] == rules[n];
      assert forall r <- rules[..n] :: r in rules;
      LastVerdictUnfolds(fold, rules[..n], c, q, none);
    } else {
      assert rules[..n] == [] && rules[1..] == [];
    }
  }

  /** No allow rule grants the request or asks for verification. */
  predicate AllDeny(fold: CaseFold, rules: seq<Rule>, c: Capability, q: Request)
    requires WellTyped(rules) && Asks(c, q)
  {
    forall r <- rules :: Tried(r, c) ==> EvaluateRule(fold, c, r.scope, q).Denied?
  }

  /** Without a grant the reason of the denial is that of the last allow rule of the capability. */
  lemma {:induction false} LastRuleNamesReason(fold: CaseFold, rules: seq<Rule>, c: Capability, q: Request, none: Verdict)
    requires WellTyped(rules) && Asks(c, q) && AllDeny(fold, rules, c, q)
    ensures FirstGrant(fold, rules, c, q, none) == LastVerdict(fold, rules, c, q, none)
    decreases |rules|
  {
    if rules != [] {
      assert rules[0] in rules && forall r <- rules[1..] :: r in rules;
      LastVerdictUnfolds(fold, rules, c, q, none);
      var next := if Tried(rules[0], c) then EvaluateRule(fold, c, rules[0].scope, q) else none;
      LastRuleNamesReason(fold, rules[1..], c, q, next);
    }
  }

  predicate SomeDenyMatches(fold: CaseFold, rules: seq<Rule>, c: Capability, q: Request)
    requires WellTyped(rules) && Asks(c, q)
  {
    exists r <- rules :: r.effect == Deny && Matches(fold, r, c, q)
  }

  /** All allow rules of the capability come to the same verdict. */
  predicate OneVerdict(fold: CaseFold, rules: seq<Rule>, c: Capability, q: Request)
    requires WellTyped(rules) && Asks(c, q)
  {
    forall r, t | r in rules && t in rules && Tried(r, c) && Tried(t, c) ::
      EvaluateRule(fold, c, r.scope, q) == EvaluateRule(fold, c, t.scope, q)
  }

  /** The list with rule `i` moved to the end. */
  function MovedLast(rules: seq<Rule>, i: nat): seq<Rule>
    requires i < |rules|
  {
    rules[..i] + rules[i+1..] + [rules[i]]
  }

  lemma MovedLastReorders(rules: seq<Rule>, i: nat)
    requires i < |rules| && WellTyped(rules)
    ensures Reordered(rules, MovedLast(rules, i)) && WellTyped(MovedLast(rules, i))
  {
    assert rules == rules[..i] + [rules[i]] + rules[i+1..];
    ReorderedMembers(rules, MovedLast(rules, i));
  }

  /** A denial without a matching deny rule can be given the reason of any allow rule tried. */
  lemma AnyRuleCanBeLast(fold: CaseFold, rules: seq<Rule>, c: Capability, q: Request, i: nat)
    requires WellTyped(rules) && Asks(c, q) && i < |rules| && Tried(rules[i], c)
    requires AllDeny(fold, rules, c, q) && !SomeDenyMatches(fold, rules, c, q)
    ensures WellTyped(MovedLast(rules, i)) && Reordered(rules, MovedLast(rules, i))
    ensures Decided(fold, MovedLast(rules, i), c, q) == EvaluateRule(fold, c, rules[i].scope, q)
  {
    var moved := MovedLast(rules, i);
    MovedLastReorders(rules, i);
    ReorderedMembers(rules, moved);
    LastRuleNamesReason(fold, moved, c, q, Denied(ReasonFor(c)));
    assert moved[|moved|-1] == rules[i];
  }

  lemma {:induction false} LastVerdictIsSome(fold: CaseFold, rules: seq<Rule>, c: Capability, q: Request, none: Verdict)
    requires WellTyped(rules) && Asks(c, q)
    ensures if exists r <- rules :: Tried(r, c)
            then exists r <- rules :: Tried(r, c) && LastVerdict(fold, rules, c, q, none) == EvaluateRule(fold, c, r.scope, q)
            else LastVerdict(fold, rules, c, q, none) == none
    decreases |rules|
  {
    if rules != [] {
      var n := |rules| - 1;
      assert rules == rules[..n] + [rules[n]];
      if !Tried(rules[n], c) {
        LastVerdictIsSome(fold, rules[..n], c, q, none);
      }
    }
  }

  /** With one verdict among the allow rules, any order of them decides the same. */
  lemma SameVerdictAnyOrder(fold: CaseFold, rules: seq<Rule>, other: seq<Rule>, c: Capability, q: Request)
    requires WellTyped(rules) && WellTyped(other) && Asks(c, q) && Reordered(rules, other)
    requires AllDeny(fold, rules, c, q) && OneVerdict(fold, rules, c, q)
    ensures FirstGrant(fold, rules, c, q, Denied(ReasonFor(c))) == FirstGrant(fold, other, c, q, Denied(ReasonFor(c)))
  {
    ReorderedMembers(rules, other);
    var none := Denied(ReasonFor(c));
    LastRuleNamesReason(fold, rules, c, q, none);
    LastRuleNamesReason(fold, other, c, q, none);
    LastVerdictIsSome(fold, rules, c, q, none);
    LastVerdictIsSome(fold, other, c, q, none);
  }

  lemma OtherOrderSame(fold: CaseFold, rules: seq<Rule>, other: seq<Rule>, c: Capability, q: Request)
    requires WellTyped(rules) && WellTyped(other) && Asks(c, q) && Reordered(rules, other)
    requires SomeDenyMatches(fold, rules, c, q) || !AllDeny(fold, rules, c, q) || OneVerdict(fold, rules, c, q)
    ensures Decided(fold, other, c, q) == Decided(fold, rules, c, q)
  {
    ReorderedMembers(rules, other);
    StatusIgnoresOrder(fold, rules, other, c, q);
    FirstGrantStatus(fold, rules, c, q, Denied(ReasonFor(c)));
    if !SomeDenyMatches(fold, rules, c, q) && AllDeny(fold, rules, c, q) {
      SameVerdictAnyOrder(fold, rules, other, c, q);
    } else if !SomeDenyMatches(fold, rules, c, q) {
      var r :| r in rules && Tried(r, c) && !EvaluateRule(fold, c, r.scope, q).Denied?;
      assert Grants(fold, r, c, q, EvaluateRule(fold, c, r.scope, q));
    }
  }

  /**
   The whole decision, reason included, is the same for every order of the rules if and only if a
   deny rule matches, or some allow rule does not deny, or all allow rules deny with one reason.
   */
  lemma DecisionIgnoresOrderIff(fold: CaseFold, rules: seq<Rule>, c: Capability, q: Request)
    requires WellTyped(rules) && Asks(c, q)
    ensures (forall other | Reordered(rules, other) && WellTyped(other) ::
               Decided(fold, other, c, q) == Decided(fold, rules, c, q))
            <==> SomeDenyMatches(fold, rules, c, q) || !AllDeny(fold, rules, c, q) || OneVerdict(fold, rules, c, q)
  {
    if SomeDenyMatches(fold, rules, c, q) || !AllDeny(fold, rules, c, q) || OneVerdict(fold, rules, c, q) {
      forall other | Reordered(rules, other) && WellTyped(other)
        ensures Decided(fold, other, c, q) == Decided(fold, rules, c, q)
      {
        OtherOrderSame(fold, rules, other, c, q);
      }
    } else {
      var r, t :| r in rules && t in rules && Tried(r, c) && Tried(t, c)
                  && EvaluateRule(fold, c, r.scope, q) != EvaluateRule(fold, c, t.scope, q);
      var i :| 0 <= i < |rules| && rules[i] == r;
      var j :| 0 <= j < |rules| && rules[j] == t;
      AnyRuleCanBeLast(fold, rules, c, q, i);
      AnyRuleCanBeLast(fold, rules, c, q, j);
    }
  }

  /** So the order never matters except for network requests. */
  lemma OnlyNetworkReasonsVary(fold: CaseFold, rules: seq<Rule>, other: seq<Rule>, c: Capability, q: Request)
    requires WellTyped(rules) && WellTyped(other) && Asks(c, q) && Reordered(rules, other) && c != NetworkConnect
    ensures Decided(fold, other, c, q) == Decided(fold, rules, c, q)
  {
    assert forall r <- rules :: Tried(r, c) ==> EvaluateRule(fold, c, r.scope, q) in {Allowed, Denied(ReasonFor(c))};
    OtherOrderSame(fold, rules, other, c, q);
  }

  /** The reason of a denial does depend on the order: the last allow rule tried names it. */
  lemma ReasonFollowsOrder(fold: CaseFold, a: Target, b: Target, t: Target)
    requires a != b && !a.unverified
    ensures var near, far := Rule(NetworkConnect, Allow, Network(a, [])), Rule(NetworkConnect, Allow, Network(b, []));
            var q := NetworkRequest(a, [t]);
            && Decided(fold, [near, far], NetworkConnect, q) == Denied(NetworkNotAuthorized)
            && Decided(fold, [far, near], NetworkConnect, q) == Denied(RedirectNotAuthorized)
  {
    var near, far := Rule(NetworkConnect, Allow, Network(a, [])), Rule(NetworkConnect, Allow, Network(b, []));
    var q := NetworkRequest(a, [t]);
    var none := Denied(NetworkNotAuthorized);
    assert EvaluateRule(fold, NetworkConnect, near.scope, q) == Denied(RedirectNotAuthorized);
    assert EvaluateRule(fold, NetworkConnect, far.scope, q) == none;
    assert [near, far][1..] == [far] && [far][1..] == [] && [far, near][1..] == [near] && [near][1..] == [];
    assert FirstGrant(fold, [far], NetworkConnect, q, Denied(RedirectNotAuthorized)) == none;
    assert FirstGrant(fold, [near], NetworkConnect, q, none) == Denied(RedirectNotAuthorized);
  }
}
