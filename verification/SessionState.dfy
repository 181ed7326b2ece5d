/**
 The module-level session state of desktop/src/session.ts.  Every function between two `await`s is
 one atomic step; the completions of overlapping enrolments, renewals and bootstraps are these
 steps in any order, each still carrying the origin it was started for.
 */
module SessionState {
  import opened Prelude

  type Origin = string
  type Token = string

  datatype Compatibility =
    Unknown | Compatible | Incompatible | Legacy | UpgradeRequired | Unreachable

  /** What a bootstrap reports; `UpgradeRequired` is only published by `MarkClientUpgradeRequired`. */
  type Reported = c: Compatibility | c != UpgradeRequired witness Unknown

  datatype Session = Session(token: Token, origin: Origin)

  datatype State = State(
    active: Option<Origin>,
    session: Option<Session>,
    upgrade: Option<Origin>,
    compatibility: Compatibility)

  /** A reply to enroll or renew: its trimmed token and, on Electron, the origin that issued it. */
  datatype Issued = Issued(token: Option<Token>, electron: bool, issuer: Option<Origin>)

  datatype Step =
    | Select(origin: Origin)
    | Accept(body: Issued, origin: Origin)
    | Upgrade(requested: Option<Origin>)
    | Publish(origin: Origin, reported: Reported)
    | Lost(origin: Origin)
    | Read(origin: Origin, expired: bool)
    | Force

  datatype AcceptError = ClientUpgradeRequired | InvalidOrigin

  function AcceptResult(s: State, body: Issued, origin: Origin): Result<Option<Token>, AcceptError> {
    if s.upgrade == Some(origin) then Err(ClientUpgradeRequired)
    else if body.token.Some? && body.electron && body.issuer != Some(origin) then Err(InvalidOrigin)
    else Ok(body.token)
  }

  function Next(s: State, step: Step): State {
    match step
    case Select(origin) =>
      if s.active == Some(origin) then s else State(Some(origin), None, None, Unknown)
    case Accept(body, origin) =>
      var r := AcceptResult(s, body, origin);
      if r.Err? || s.active != Some(origin) then s
      else s.(session := if r.value.None? then None else Some(Session(r.value.value, origin)))
    case Upgrade(requested) =>
      var origin := if requested.Some? then requested else s.active;
      if origin.Some? && s.active == origin then State(s.active, None, origin, UpgradeRequired) else s
    case Publish(origin, reported) =>
      if s.active != Some(origin) || s.upgrade == Some(origin) then s
      else s.(compatibility := reported)
    case Lost(origin) =>
      if s.active == Some(origin) then s.(session := None) else s
    case Read(origin, expired) =>
      if s.session.Some? && s.session.value.origin == origin && expired then s.(session := None) else s
    case Force => s.(session := None)
  }

  function Run(s: State, steps: seq<Step>): State
    decreases |steps|
  {
    if steps == [] then s else Run(Next(s, steps[0]), steps[1..])
  }

  const INITIAL := State(None, None, None, Unknown)

  /** The session and the upgrade latch belong to the active origin and exclude each other. */
  ghost predicate Consistent(s: State) {
    && (s.session.Some? ==> s.active == Some(s.session.value.origin))
    && (s.upgrade.Some? ==> s.active == s.upgrade && s.session.None?)
    && (s.upgrade.Some? <==> s.compatibility == UpgradeRequired)
  }

  lemma {:induction false} AlwaysConsistent(s: State, steps: seq<Step>)
    requires Consistent(s)
    ensures Consistent(Run(s, steps))
    decreases |steps|
  {
    if steps != [] {
      AlwaysConsistent(Next(s, steps[0]), steps[1..]);
    }
  }

  /** Some step of the run selects an origin other than `origin`. */
  predicate Leaves(steps: seq<Step>, origin: Origin) {
    exists k | 0 <= k < |steps| :: steps[k].Select? && steps[k].origin != origin
  }

  /**
   Once latched, the upgrade state survives every interleaving until the origin changes, and no
   late completion for that origin brings a session back.
   */
  lemma {:induction false} UpgradeIsLatched(s: State, steps: seq<Step>, origin: Origin)
    requires Consistent(s) && s.upgrade == Some(origin) && !Leaves(steps, origin)
    ensures Run(s, steps) == s
    decreases |steps|
  {
    if steps != [] {
      assert !steps[0].Select? || steps[0].origin == origin;
      assert Next(s, steps[0]) == s;
      assert forall k | 0 <= k < |steps[1..]| :: steps[1..][k] == steps[k+1];
      UpgradeIsLatched(s, steps[1..], origin);
    }
  }

  predicate Stale(s: State, step: Step) {
    match step
    case Accept(_, origin) => s.active != Some(origin)
    case Upgrade(requested) => requested.Some? && s.active != requested
    case Publish(origin, _) => s.active != Some(origin)
    case Lost(origin) => s.active != Some(origin)
    case _ => false
  }

  /** After a switch the completions of the previous origin, however many, change nothing. */
  lemma {:induction false} StaleCompletionsAreInert(s: State, steps: seq<Step>)
    requires forall k | 0 <= k < |steps| :: Stale(s, steps[k])
    ensures Run(s, steps) == s
    decreases |steps|
  {
    if steps != [] {
      assert Stale(s, steps[0]);
      assert forall k | 0 <= k < |steps[1..]| :: steps[1..][k] == steps[k+1];
      StaleCompletionsAreInert(s, steps[1..]);
    }
  }

  ghost predicate Issuing(step: Step, session: Session) {
    step.Accept? && step.origin == session.origin && step.body.token == Some(session.token)
  }

  /** A session that a run ends with was there before or was issued for its origin during the run. */
  lemma {:induction false} SessionsAreIssued(s: State, steps: seq<Step>)
    requires Run(s, steps).session.Some? && Run(s, steps).session != s.session
    ensures exists k | 0 <= k < |steps| :: Issuing(steps[k], Run(s, steps).session.value)
    decreases |steps|
  {
    var s1 := Next(s, steps[0]);
    if Run(s, steps).session == s1.session {
      assert Issuing(steps[0], Run(s, steps).session.value);
    } else {
      SessionsAreIssued(s1, steps[1..]);
      var k :| 0 <= k < |steps[1..]| && Issuing(steps[1..][k], Run(s, steps).session.value);
      assert Issuing(steps[k+1], Run(s, steps).session.value);
    }
  }

  // ---------------------------------------------------------------- what the steps are for

  /** A token issued for the active origin, by itself where the issuer is checked, is stored. */
  lemma IssuedTokenIsStored(s: State, body: Issued, origin: Origin)
    requires s.active == Some(origin) && s.upgrade != Some(origin)
    requires body.token.Some? && (body.electron ==> body.issuer == Some(origin))
    ensures AcceptResult(s, body, origin) == Ok(body.token)
    ensures Next(s, Accept(body, origin)) == s.(session := Some(Session(body.token.value, origin)))
  {
  }

  /** What is refused: anything for an origin that needs an upgrade, and tokens of another issuer. */
  lemma AcceptRefusesIff(s: State, body: Issued, origin: Origin)
    ensures AcceptResult(s, body, origin).Err? <==>
            s.upgrade == Some(origin) || (body.token.Some? && body.electron && body.issuer != Some(origin))
    ensures AcceptResult(s, body, origin).Err? ==> Next(s, Accept(body, origin)) == s
  {
  }

  /** A reply without a token ends the session of the active origin. */
  lemma MissingTokenEndsSession(s: State, body: Issued, origin: Origin)
    requires s.active == Some(origin) && s.upgrade != Some(origin) && body.token.None?
    ensures Next(s, Accept(body, origin)) == s.(session := None)
  {
  }

  /** The steps that may end the session of an origin. */
  predicate MayEnd(step: Step, origin: Origin) {
    match step
    case Select(o) => o != origin
    case Accept(_, o) => o == origin
    case Upgrade(o) => o.None? || o == Some(origin)
    case Publish(_, _) => false
    case Lost(o) => o == origin
    case Read(o, expired) => o == origin && expired
    case Force => true
  }

  /** A stored session is kept, and its token read, until a step that may end it. */
  lemma {:induction false} SessionIsKept(s: State, steps: seq<Step>, origin: Origin)
    requires Consistent(s) && s.session.Some? && s.session.value.origin == origin
    requires forall k | 0 <= k < |steps| :: !MayEnd(steps[k], origin)
    ensures Run(s, steps).session == s.session && Run(s, steps).active == Some(origin)
    decreases |steps|
  {
    if steps != [] {
      assert !MayEnd(steps[0], origin);
      AlwaysConsistent(s, [steps[0]]);
      assert [steps[0]][1..] == [];
      assert forall k | 0 <= k < |steps[1..]| :: steps[1..][k] == steps[k+1];
      SessionIsKept(Next(s, steps[0]), steps[1..], origin);
    }
  }

  /** A reading that finds the session expired forgets it. */
  lemma ExpiredSessionIsForgotten(s: State, origin: Origin)
    requires s.session.Some? && s.session.value.origin == origin
    ensures Next(s, Read(origin, true)) == s.(session := None) && Next(s, Read(origin, false)) == s
  {
  }

  /** Another selection starts over: no session, no latch, nothing known of the backend. */
  lemma SelectionStartsOver(s: State, origin: Origin)
    ensures Next(s, Select(origin)).active == Some(origin)
    ensures s.active == Some(origin) ==> Next(s, Select(origin)) == s
    ensures s.active != Some(origin) ==> Next(s, Select(origin)) == State(Some(origin), None, None, Unknown)
  {
  }

  /** An upgrade demanded of the active origin, named or not, is latched and ends the session. */
  lemma UpgradeLatches(s: State, origin: Origin, requested: Option<Origin>)
    requires s.active == Some(origin) && (requested == Some(origin) || requested == None)
    ensures Next(s, Upgrade(requested)) == State(Some(origin), None, Some(origin), UpgradeRequired)
  {
  }

  /** A reported compatibility of the active origin is kept while no upgrade is latched. */
  lemma ReportIsKept(s: State, origin: Origin, reported: Reported)
    requires s.active == Some(origin) && s.upgrade != Some(origin)
    ensures Next(s, Publish(origin, reported)) == s.(compatibility := reported)
  {
  }

  /** And stays the last one reported until another report, selection or upgrade. */
  lemma {:induction false} CompatibilityIsKept(s: State, steps: seq<Step>)
    requires forall k | 0 <= k < |steps| :: !steps[k].Publish? && !steps[k].Upgrade? && !steps[k].Select?
    ensures Run(s, steps).compatibility == s.compatibility
    decreases |steps|
  {
    if steps != [] {
      assert forall k | 0 <= k < |steps[1..]| :: steps[1..][k] == steps[k+1];
      CompatibilityIsKept(Next(s, steps[0]), steps[1..]);
    }
  }

  /** Losing the identity of the active origin, or forcing a new session, ends it. */
  lemma LossEndsSession(s: State, origin: Origin)
    requires s.active == Some(origin)
    ensures Next(s, Lost(origin)) == s.(session := None) && Next(s, Force) == s.(session := None)
  {
  }

  class SessionModule {
    var activeBackendOrigin: Option<Origin>
    var currentSession: Option<Session>
    var clientUpgradeRequired: Option<Origin>
    var compatibility: Compatibility

    constructor ()
      ensures Value() == INITIAL
    {
      activeBackendOrigin, currentSession, clientUpgradeRequired := None, None, None;
      compatibility := Unknown;
    }

    function Value(): State
      reads this
    {
      State(activeBackendOrigin, currentSession, clientUpgradeRequired, compatibility)
    }

    method SelectBackendOrigin(origin: Origin)
      modifies this
      ensures Value() == Next(old(Value()), Select(origin))
    {
      if activeBackendOrigin == Some(origin) {
        return;
      }
      activeBackendOrigin := Some(origin);
      currentSession := None;
      clientUpgradeRequired := None;
      compatibility := Unknown;
    }

    method AcceptSession(body: Issued, origin: Origin) returns (r: Result<Option<Token>, AcceptError>)
      modifies this
      ensures r == AcceptResult(old(Value()), body, origin)
      ensures Value() == Next(old(Value()), Accept(body, origin))
    {
      if clientUpgradeRequired == Some(origin) {
        return Err(ClientUpgradeRequired);
      }
      if body.token.None? {
        if activeBackendOrigin == Some(origin) {
          currentSession := None;
        }
        return Ok(None);
      }
      if body.electron && body.issuer != Some(origin) {
        return Err(InvalidOrigin);
      }
      if activeBackendOrigin == Some(origin) {
        currentSession := Some(Session(body.token.value, origin));
      }
      return Ok(body.token);
    }

    method MarkClientUpgradeRequired(requested: Option<Origin>)
      modifies this
      ensures Value() == Next(old(Value()), Upgrade(requested))
    {
      var origin := if requested.Some? then requested else activeBackendOrigin;
      if origin.Some? && activeBackendOrigin == origin {
        clientUpgradeRequired := origin;
        currentSession := None;
        compatibility := UpgradeRequired;
      }
    }

    method PublishCompatibilityForOrigin(origin: Origin, reported: Reported)
      modifies this
      ensures Value() == Next(old(Value()), Publish(origin, reported))
    {
      if activeBackendOrigin != Some(origin) {
        return;
      }
      if clientUpgradeRequired == Some(origin) {
        return;
      }
      compatibility := reported;
    }

    method IdentityLost(origin: Origin)
      modifies this
      ensures Value() == Next(old(Value()), Lost(origin))
    {
      if activeBackendOrigin == Some(origin) {
        currentSession := None;
      }
    }

    method ReadMemoryToken(origin: Origin, expired: bool) returns (r: Option<Token>)
      modifies this
      ensures Value() == Next(old(Value()), Read(origin, expired))
      ensures r.Some? <==> currentSession.Some? && currentSession.value.origin == origin
      ensures r.Some? ==> !expired && r.value == currentSession.value.token
    {
      if currentSession.None? || currentSession.value.origin != origin {
        return None;
      }
      if expired {
        currentSession := None;
        return None;
      }
      return Some(currentSession.value.token);
    }
  }
}
