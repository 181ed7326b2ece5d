/**
 Version comparison of desktop/src/runtime.ts, done on strings, against the precedence of section 11
 of Semantic Versioning 2.0.0.
 */
module VersionOrder {
  import opened Prelude
  import opened Strings

  // ---------------------------------------------------------------- the code, on strings

  predicate IsDigit(c: char) {
    '0' <= c <= '9'
  }

  predicate AllDigits(s: string) {
    forall c <- s :: IsDigit(c)
  }

  /** `/^\d+$/` */
  predicate IsNumeric(s: string) {
    s != "" && AllDigits(s)
  }

  function StripZeros(s: string): string {
    if s != "" && s[0] == '0' then StripZeros(s[1..]) else s
  }

  function Significant(s: string): string {
    if StripZeros(s) == "" then "0" else StripZeros(s)
  }

  function CompareNumericIdentifiers(a: string, b: string): int {
    var aa, bb := Significant(a), Significant(b);
    if |aa| != |bb| then (if |aa| > |bb| then 1 else -1)
    else if aa == bb then 0
    else if LexLess(bb, aa) then 1 else -1
  }

  function ComparePrereleaseIdentifiers(a: seq<string>, b: seq<string>): int {
    if a == [] then (if b == [] then 0 else -1)
    else if b == [] then 1
    else if a[0] == b[0] then ComparePrereleaseIdentifiers(a[1..], b[1..])
    else if IsNumeric(a[0]) && IsNumeric(b[0]) then CompareNumericIdentifiers(a[0], b[0])
    else if IsNumeric(a[0]) != IsNumeric(b[0]) then (if IsNumeric(a[0]) then -1 else 1)
    else if LexLess(b[0], a[0]) then 1 else -1
  }

  datatype Parsed = Parsed(core: seq<string>, prerelease: Option<seq<string>>)

  function NormalizeVersion(raw: string): string {
    var t := Trim(raw);
    if t != "" && t[0] in {'v', 'V'} then t[1..] else t
  }

  function ParseVersion(raw: string): Parsed {
    var normalized := NormalizeVersion(raw);
    ParseWithoutBuild(normalized[..IndexOf(normalized, '+')])
  }

  function ParseWithoutBuild(withoutBuild: string): Parsed {
    var dash := IndexOf(withoutBuild, '-');
    Parsed(Split(withoutBuild[..dash], '.'),
           if dash < |withoutBuild| then Some(Split(withoutBuild[dash+1..], '.')) else None)
  }

  /** The core identifiers are compared in turn, a missing one counting as "0". */
  function CompareCore(a: seq<string>, b: seq<string>): int {
    if a == [] && b == [] then 0
    else
      var order := CompareNumericIdentifiers(if a == [] then "0" else a[0], if b == [] then "0" else b[0]);
      if order != 0 then order
      else CompareCore(if a == [] then a else a[1..], if b == [] then b else b[1..])
  }

  function CompareVersions(a: string, b: string): int {
    CompareParsed(ParseVersion(a), ParseVersion(b))
  }

  function CompareParsed(aa: Parsed, bb: Parsed): int {
    var core := CompareCore(aa.core, bb.core);
    if core != 0 then core
    else if aa.prerelease.None? then (if bb.prerelease.None? then 0 else 1)
    else if bb.prerelease.None? then -1
    else ComparePrereleaseIdentifiers(aa.prerelease.value, bb.prerelease.value)
  }

  // ---------------------------------------------------------------- numbers

  function Pow10(n: nat): nat {
    if n == 0 then 1 else 10 * Pow10(n - 1)
  }

  function Digit(c: char): (d: nat)
    requires IsDigit(c)
    ensures d <= 9
  {
    c as int - '0' as int
  }

  /** The number that a string of decimal digits denotes. */
  function Value(s: string): nat
    requires AllDigits(s)
  {
    if s == "" then 0 else Digit(s[0]) * Pow10(|s| - 1) + Value(s[1..])
  }

  function Sign(n: int): int {
    if n > 0 then 1 else if n < 0 then -1 else 0
  }

  lemma {:induction false} ValueBound(s: string)
    requires AllDigits(s)
    ensures Value(s) < Pow10(|s|)
    decreases |s|
  {
    if s != "" {
      ValueBound(s[1..]);
      MulMonotone(Digit(s[0]), 9, Pow10(|s| - 1));
    }
  }

  lemma {:induction false} StripZerosValue(s: string)
    requires AllDigits(s)
    ensures AllDigits(StripZeros(s)) && Value(StripZeros(s)) == Value(s)
    ensures StripZeros(s) != "" ==> StripZeros(s)[0] != '0'
    decreases |s|
  {
    if s != "" && s[0] == '0' {
      StripZerosValue(s[1..]);
    }
  }

  lemma {:induction false} PowMonotone(m: nat, n: nat)
    requires m <= n
    ensures Pow10(m) <= Pow10(n)
    decreases n
  {
    if m < n {
      PowMonotone(m, n - 1);
    }
  }

  /** Without a leading zero the longer number is the greater one. */
  lemma LongerIsGreater(s: string, t: string)
    requires AllDigits(s) && AllDigits(t) && |s| > |t| && s[0] != '0'
    ensures Value(s) > Value(t)
  {
    ValueBound(t);
    PowMonotone(|t|, |s| - 1);
    MulMonotone(1, Digit(s[0]), Pow10(|s| - 1));
  }

  lemma HeadWins(c: nat, d: nat, p: nat, x: nat, y: nat)
    requires c < d && x < p
    ensures c * p + x < d * p + y
  {
    MulMonotone(c + 1, d, p);
    assert (c + 1) * p == c * p + p;
  }

  lemma SmallerHead(s: string, t: string)
    requires AllDigits(s) && AllDigits(t) && |s| == |t| && s != "" && s[0] < t[0]
    ensures Value(s) < Value(t)
  {
    ValueBound(s[1..]);
    HeadWins(Digit(s[0]), Digit(t[0]), Pow10(|s| - 1), Value(s[1..]), Value(t[1..]));
  }

  /** Numbers of equal length are ordered as their digit strings. */
  lemma {:induction false} SameLength(s: string, t: string)
    requires AllDigits(s) && AllDigits(t) && |s| == |t|
    ensures LexLess(s, t) <==> Value(s) < Value(t)
    ensures s == t <==> Value(s) == Value(t)
    decreases |s|
  {
    if s != "" {
      if s[0] < t[0] {
        SmallerHead(s, t);
      } else if t[0] < s[0] {
        SmallerHead(t, s);
      } else {
        SameLength(s[1..], t[1..]);
        assert s == [s[0]] + s[1..] && t == [t[0]] + t[1..];
      }
    }
  }

  /** The string comparison orders all digit strings as the numbers they denote. */
  lemma NumericOrder(a: string, b: string)
    requires AllDigits(a) && AllDigits(b)
    ensures CompareNumericIdentifiers(a, b) == Sign(Value(a) - Value(b))
  {
    StripZerosValue(a);
    StripZerosValue(b);
    var aa, bb := Significant(a), Significant(b);
    assert Value("0") == 0;
    assert Value(aa) == Value(a) && Value(bb) == Value(b);
    if |aa| == |bb| {
      SameLength(aa, bb);
      SameLength(bb, aa);
    } else if |aa| > |bb| {
      LongerIsGreater(aa, bb);
    } else {
      LongerIsGreater(bb, aa);
    }
  }

  // ---------------------------------------------------------------- section 11 of SemVer 2.0.0

  /** An identifier as section 11.4 sees it. */
  datatype Rank = Number(n: nat) | Text(s: string)

  function RankOf(id: string): Rank {
    if IsNumeric(id) then Number(Value(id)) else Text(id)
  }

  /** Numeric identifiers numerically and below the others, which are in ASCII order. */
  function CompareRank(x: Rank, y: Rank): int {
    match (x, y)
    case (Number(m), Number(n)) => Sign(m - n)
    case (Number(_), Text(_)) => -1
    case (Text(_), Number(_)) => 1
    case (Text(s), Text(t)) => if s == t then 0 else if LexLess(s, t) then -1 else 1
  }

  /** From left to right until a difference is found; a longer list of equals is greater. */
  function CompareRanks(a: seq<string>, b: seq<string>): int {
    if a == [] then (if b == [] then 0 else -1)
    else if b == [] then 1
    else
      var c := CompareRank(RankOf(a[0]), RankOf(b[0]));
      if c != 0 then c else CompareRanks(a[1..], b[1..])
  }

  datatype SemVer = SemVer(major: string, minor: string, patch: string,
                           pre: Option<seq<string>>, build: Option<string>)

  predicate NoLeadingZero(id: string) {
    IsNumeric(id) ==> |id| == 1 || id[0] != '0'
  }

  predicate IdentifierChar(c: char) {
    IsDigit(c) || 'a' <= c <= 'z' || 'A' <= c <= 'Z' || c == '-'
  }

  /** Section 9: a non-empty dot-separated identifier, numeric ones without leading zeros. */
  predicate Identifier(id: string) {
    id != "" && (forall c <- id :: IdentifierChar(c)) && NoLeadingZero(id)
  }

  predicate Valid(v: SemVer) {
    && IsNumeric(v.major) && NoLeadingZero(v.major)
    && IsNumeric(v.minor) && NoLeadingZero(v.minor)
    && IsNumeric(v.patch) && NoLeadingZero(v.patch)
    && (v.pre.Some? ==> v.pre.value != [] && forall id <- v.pre.value :: Identifier(id))
    && (v.build.Some? ==> forall c <- v.build.value :: IdentifierChar(c) || c == '.')
  }

  function Precedence(v: SemVer, w: SemVer): int
    requires Valid(v) && Valid(w)
  {
    if Value(v.major) != Value(w.major) then Sign(Value(v.major) - Value(w.major))
    else if Value(v.minor) != Value(w.minor) then Sign(Value(v.minor) - Value(w.minor))
    else if Value(v.patch) != Value(w.patch) then Sign(Value(v.patch) - Value(w.patch))
    else if v.pre.None? then (if w.pre.None? then 0 else 1)
    else if w.pre.None? then -1
    else CompareRanks(v.pre.value, w.pre.value)
  }

  // ---------------------------------------------------------------- identifiers: code against section 11

  /**
   At `i` the identifiers differ for the first time as texts, yet spell the same number, and
   section 11 tells the rest apart.
   */
  predicate DecidedTooEarlyAt(a: seq<string>, b: seq<string>, i: nat) {
    && i < |a| && i < |b| && a[..i] == b[..i] && a[i] != b[i]
    && IsNumeric(a[i]) && IsNumeric(b[i]) && Value(a[i]) == Value(b[i])
    && CompareRanks(a[i+1..], b[i+1..]) != 0
  }

  lemma EarlyAtShift(a: seq<string>, b: seq<string>, i: nat)
    requires a != [] && b != [] && a[0] == b[0]
    ensures DecidedTooEarlyAt(a, b, i + 1) <==> DecidedTooEarlyAt(a[1..], b[1..], i)
  {
    if i < |a| - 1 && i < |b| - 1 {
      assert a[..i+1] == [a[0]] + a[1..][..i] && b[..i+1] == [b[0]] + b[1..][..i];
      assert a[1..][i+1..] == a[i+2..] && b[1..][i+1..] == b[i+2..];
    }
  }

  /** The code follows section 11 exactly when no two spellings of one number come between. */
  lemma {:induction false} PrereleaseAgreesIff(a: seq<string>, b: seq<string>)
    ensures ComparePrereleaseIdentifiers(a, b) == CompareRanks(a, b) <==>
            !exists i: nat :: DecidedTooEarlyAt(a, b, i)
    decreases |a|
  {
    if a != [] && b != [] {
      if a[0] == b[0] {
        RankReverses(RankOf(a[0]), RankOf(b[0]));
        PrereleaseAgreesIff(a[1..], b[1..]);
        if i: nat :| DecidedTooEarlyAt(a, b, i) {
          EarlyAtShift(a, b, i - 1);
        }
        if i: nat :| DecidedTooEarlyAt(a[1..], b[1..], i) {
          EarlyAtShift(a, b, i);
        }
      } else {
        assert forall i: nat | DecidedTooEarlyAt(a, b, i) :: a[..i] == b[..i] && (i > 0 ==> a[..i][0] == b[..i][0]);
        assert forall i: nat | DecidedTooEarlyAt(a, b, i) :: i == 0;
        FirstDiffers(a, b);
      }
    }
  }

  lemma FirstDiffers(a: seq<string>, b: seq<string>)
    requires a != [] && b != [] && a[0] != b[0]
    ensures ComparePrereleaseIdentifiers(a, b) == CompareRanks(a, b) <==> !DecidedTooEarlyAt(a, b, 0)
  {
    assert a[..0] == b[..0];
    if IsNumeric(a[0]) && IsNumeric(b[0]) {
      NumericOrder(a[0], b[0]);
    } else if !IsNumeric(a[0]) && !IsNumeric(b[0]) {
      LexTotal(a[0], b[0]);
    }
  }

  /** With a leading zero the code stops comparing: 1.0.0-01.x and 1.0.0-1.y are equal for it. */
  lemma LeadingZeroHidesTheRest(x: seq<string>, y: seq<string>)
    ensures ComparePrereleaseIdentifiers(["01"] + x, ["1"] + y) == 0
  {
    NumericOrder("01", "1");
    assert Value("01"[1..]) == Value("1");
  }

  /** So such lists are equal for the code to every list of the plain spelling, equal or not. */
  lemma LeadingZeroBreaksTransitivity(x: seq<string>, y: seq<string>, z: seq<string>)
    ensures ComparePrereleaseIdentifiers(["1"] + x, ["01"] + z) == 0
    ensures ComparePrereleaseIdentifiers(["01"] + z, ["1"] + y) == 0
    ensures ComparePrereleaseIdentifiers(["1"] + x, ["1"] + y) == ComparePrereleaseIdentifiers(x, y)
  {
    LeadingZeroHidesTheRest(z, x);
    LeadingZeroHidesTheRest(z, y);
    NumericOrder("1", "01");
    assert Value("01"[1..]) == Value("1");
    assert (["1"] + x)[1..] == x && (["1"] + y)[1..] == y;
  }

  // ---------------------------------------------------------------- order laws

  lemma RankReverses(x: Rank, y: Rank)
    ensures CompareRank(x, y) == -CompareRank(y, x) && -1 <= CompareRank(x, y) <= 1
    ensures CompareRank(x, y) == 0 <==> x == y
  {
    if x.Text? && y.Text? {
      LexTotal(x.s, y.s);
    }
  }

  lemma RankTransitive(x: Rank, y: Rank, z: Rank)
    requires CompareRank(x, y) <= 0 && CompareRank(y, z) <= 0
    ensures CompareRank(x, z) <= 0 && (CompareRank(x, z) == 0 ==> CompareRank(x, y) == 0 && CompareRank(y, z) == 0)
  {
    if x.Text? && y.Text? && z.Text? {
      LexTotal(x.s, z.s);
      if LexLess(x.s, y.s) && LexLess(y.s, z.s) {
        LexTransitive(x.s, y.s, z.s);
      }
    }
  }

  lemma {:induction false} RanksReverse(a: seq<string>, b: seq<string>)
    ensures CompareRanks(a, b) == -CompareRanks(b, a) && -1 <= CompareRanks(a, b) <= 1
    decreases |a|
  {
    if a != [] && b != [] {
      RankReverses(RankOf(a[0]), RankOf(b[0]));
      RanksReverse(a[1..], b[1..]);
    }
  }

  lemma {:induction false} RanksTransitive(a: seq<string>, b: seq<string>, c: seq<string>)
    requires CompareRanks(a, b) <= 0 && CompareRanks(b, c) <= 0
    ensures CompareRanks(a, c) <= 0
    decreases |a|
  {
    if a != [] && b != [] && c != [] {
      RankTransitive(RankOf(a[0]), RankOf(b[0]), RankOf(c[0]));
      if CompareRank(RankOf(a[0]), RankOf(c[0])) == 0 {
        RanksTransitive(a[1..], b[1..], c[1..]);
      }
    }
  }

  /** Two spellings of one number without leading zeros are the same text. */
  lemma ValueInjective(a: string, b: string)
    requires IsNumeric(a) && IsNumeric(b) && NoLeadingZero(a) && NoLeadingZero(b) && Value(a) == Value(b)
    ensures a == b
  {
    if |a| == |b| {
      SameLength(a, b);
    } else if |a| > |b| {
      LongerIsGreater(a, b);
    } else {
      LongerIsGreater(b, a);
    }
  }

  lemma {:induction false} RanksZeroIffEqual(a: seq<string>, b: seq<string>)
    requires (forall id <- a :: NoLeadingZero(id)) && (forall id <- b :: NoLeadingZero(id))
    ensures CompareRanks(a, b) == 0 <==> a == b
    decreases |a|
  {
    if a != [] && b != [] {
      RankReverses(RankOf(a[0]), RankOf(b[0]));
      assert a[0] in a && b[0] in b;
      if RankOf(a[0]) == RankOf(b[0]) && IsNumeric(a[0]) {
        ValueInjective(a[0], b[0]);
      }
      RanksZeroIffEqual(a[1..], b[1..]);
      assert a == [a[0]] + a[1..] && b == [b[0]] + b[1..];
    }
  }

  // ---------------------------------------------------------------- parsing

  function Render(v: SemVer): string
    requires Valid(v)
  {
    Join([v.major, v.minor, v.patch], '.')
    + (if v.pre.Some? then "-" + Join(v.pre.value, '.') else "")
    + (if v.build.Some? then "+" + v.build.value else "")
  }

  /** What precedes the build metadata: the core, and the prerelease behind a hyphen. */
  function RenderWithoutBuild(v: SemVer): string
    requires Valid(v)
  {
    Join([v.major, v.minor, v.patch], '.') + (if v.pre.Some? then "-" + Join(v.pre.value, '.') else "")
  }

  /** Which characters a rendered version lacks. */
  lemma RenderChars(v: SemVer, c: char)
    requires Valid(v) && !IdentifierChar(c) && c != '.'
    ensures c !in RenderWithoutBuild(v)
    ensures c != '+' ==> c !in Render(v)
  {
    JoinChars([v.major, v.minor, v.patch], '.', c);
    if v.pre.Some? {
      assert forall id <- v.pre.value :: Identifier(id);
      JoinChars(v.pre.value, '.', c);
    }
  }

  lemma CoreChars(v: SemVer)
    requires Valid(v)
    ensures '-' !in Join([v.major, v.minor, v.patch], '.')
  {
    JoinChars([v.major, v.minor, v.patch], '.', '-');
  }

  /** Trimming and dropping one leading "v" recovers a rendered version. */
  lemma NormalizeRender(tag: string, v: SemVer)
    requires tag in {"", "v", "V"} && Valid(v)
    ensures NormalizeVersion(tag + Render(v)) == Render(v)
  {
    var s := tag + Render(v);
    forall c <- WHITESPACE ensures c !in s {
      RenderChars(v, c);
    }
    assert s != "" ==> s[0] in s && s[|s|-1] in s;
    assert Trim(s) == s;
    assert Render(v)[0] == v.major[0] && v.major[0] in v.major;
    assert tag != "" ==> s[1..] == Render(v);
  }

  /** Parsing recovers the core and the prerelease and forgets the build metadata. */
  lemma ParseRender(tag: string, v: SemVer)
    requires tag in {"", "v", "V"} && Valid(v)
    ensures ParseVersion(tag + Render(v)) == Parsed([v.major, v.minor, v.patch], v.pre)
  {
    NormalizeRender(tag, v);
    WithoutBuild(v);
    ParseCore(v);
  }

  lemma ParseCore(v: SemVer)
    requires Valid(v)
    ensures ParseWithoutBuild(RenderWithoutBuild(v)) == Parsed([v.major, v.minor, v.patch], v.pre)
  {
    CoreAndPrerelease(v);
    SplitJoin([v.major, v.minor, v.patch], '.');
    if v.pre.Some? {
      assert forall id <- v.pre.value :: Identifier(id);
      SplitJoin(v.pre.value, '.');
    }
  }

  lemma WithoutBuild(v: SemVer)
    requires Valid(v)
    ensures Render(v)[..IndexOf(Render(v), '+')] == RenderWithoutBuild(v)
  {
    var build := if v.build.Some? then "+" + v.build.value else "";
    assert Render(v) == RenderWithoutBuild(v) + build;
    RenderChars(v, '+');
    IndexOfAppend(RenderWithoutBuild(v), build, '+');
  }

  lemma CoreAndPrerelease(v: SemVer)
    requires Valid(v)
    ensures var w, core := RenderWithoutBuild(v), Join([v.major, v.minor, v.patch], '.');
            && IndexOf(w, '-') == |core| && w[..|core|] == core
            && (v.pre.None? ==> |core| == |w|)
            && (v.pre.Some? ==> |core| < |w| && w[|core|+1..] == Join(v.pre.value, '.'))
  {
    var core := Join([v.major, v.minor, v.patch], '.');
    var pre := if v.pre.Some? then "-" + Join(v.pre.value, '.') else "";
    CoreChars(v);
    IndexOfAppend(core, pre, '-');
  }

  // ---------------------------------------------------------------- main results

  lemma ValidPrereleasesAgree(a: seq<string>, b: seq<string>)
    requires (forall id <- a :: NoLeadingZero(id)) && (forall id <- b :: NoLeadingZero(id))
    ensures ComparePrereleaseIdentifiers(a, b) == CompareRanks(a, b)
  {
    PrereleaseAgreesIff(a, b);
    if i: nat :| DecidedTooEarlyAt(a, b, i) {
      assert a[i] in a && b[i] in b;
      ValueInjective(a[i], b[i]);
    }
  }

  /** On versions valid under SemVer 2.0.0 the comparison is the precedence of section 11. */
  lemma CompareVersionsIsPrecedence(t: string, v: SemVer, u: string, w: SemVer)
    requires t in {"", "v", "V"} && u in {"", "v", "V"} && Valid(v) && Valid(w)
    ensures CompareVersions(t + Render(v), u + Render(w)) == Precedence(v, w)
  {
    ParseRender(t, v);
    ParseRender(u, w);
    ParsedOrder(v, w);
  }

  lemma ParsedOrder(v: SemVer, w: SemVer)
    requires Valid(v) && Valid(w)
    ensures CompareParsed(Parsed([v.major, v.minor, v.patch], v.pre), Parsed([w.major, w.minor, w.patch], w.pre))
            == Precedence(v, w)
  {
    CoreOrder(v, w);
    if v.pre.Some? && w.pre.Some? {
      assert (forall id <- v.pre.value :: Identifier(id)) && (forall id <- w.pre.value :: Identifier(id));
      ValidPrereleasesAgree(v.pre.value, w.pre.value);
    }
  }

  lemma CoreOrder(v: SemVer, w: SemVer)
    requires Valid(v) && Valid(w)
    ensures CompareCore([v.major, v.minor, v.patch], [w.major, w.minor, w.patch]) ==
            if Value(v.major) != Value(w.major) then Sign(Value(v.major) - Value(w.major))
            else if Value(v.minor) != Value(w.minor) then Sign(Value(v.minor) - Value(w.minor))
            else Sign(Value(v.patch) - Value(w.patch))
  {
    NumericOrder(v.major, w.major);
    NumericOrder(v.minor, w.minor);
    NumericOrder(v.patch, w.patch);
    assert [v.major, v.minor, v.patch][1..] == [v.minor, v.patch] && [w.major, w.minor, w.patch][1..] == [w.minor, w.patch];
    assert [v.minor, v.patch][1..] == [v.patch] && [w.minor, w.patch][1..] == [w.patch];
    assert [v.patch][1..] == [] && [w.patch][1..] == [];
    assert CompareCore([v.patch], [w.patch]) == Sign(Value(v.patch) - Value(w.patch));
    assert CompareCore([v.minor, v.patch], [w.minor, w.patch]) ==
           if Value(v.minor) != Value(w.minor) then Sign(Value(v.minor) - Value(w.minor))
           else Sign(Value(v.patch) - Value(w.patch));
  }

  /** Swapping the operands reverses the sign; zero means equal but for build metadata. */
  lemma PrecedenceReverses(v: SemVer, w: SemVer)
    requires Valid(v) && Valid(w)
    ensures Precedence(v, w) == -Precedence(w, v)
    ensures Precedence(v, w) == 0 <==> v == w.(build := v.build)
  {
    if Value(v.major) == Value(w.major) {
      ValueInjective(v.major, w.major);
    }
    if Value(v.minor) == Value(w.minor) {
      ValueInjective(v.minor, w.minor);
    }
    if Value(v.patch) == Value(w.patch) {
      ValueInjective(v.patch, w.patch);
    }
    if v.pre.Some? && w.pre.Some? {
      assert (forall id <- v.pre.value :: Identifier(id)) && (forall id <- w.pre.value :: Identifier(id));
      RanksReverse(v.pre.value, w.pre.value);
      RanksZeroIffEqual(v.pre.value, w.pre.value);
    }
  }

  lemma PrecedenceTransitive(v: SemVer, w: SemVer, x: SemVer)
    requires Valid(v) && Valid(w) && Valid(x)
    requires Precedence(v, w) <= 0 && Precedence(w, x) <= 0
    ensures Precedence(v, x) <= 0
  {
    if v.pre.Some? && w.pre.Some? && x.pre.Some?
       && CompareRanks(v.pre.value, w.pre.value) <= 0 && CompareRanks(w.pre.value, x.pre.value) <= 0 {
      RanksTransitive(v.pre.value, w.pre.value, x.pre.value);
    }
  }
}
