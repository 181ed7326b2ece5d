/**
 Safety and convergence of credential rotation over whole runs.  A run is any sequence of session,
 reconnect, rotation and mark-lost operations, each meeting any `Fate`, and of requests that arrive
 late, long after the client stopped waiting for them; `Play` performs exactly these steps in place.
 */
module RotationSafety {
  import opened Prelude
  import opened IdentityCredentialStore
  import opened CredentialRotation

  /** A request that changes the server. */
  datatype Request = EnrollRequest(id: Secret, secret: Secret) | RotateRequest(current: Secret, next: Secret)

  datatype Action =
    | EnsureSession(freshId: Secret, freshSecret: Secret, f1: Fate, f2: Fate)
    | Reconnect(f1: Fate, f2: Fate)
    | Rotate(freshRotation: Secret, newSecret: Secret, fate: Fate)
    | MarkLost
    | Arrive(request: Request)   // an earlier request is processed only now

  function Perform(w: World, a: Action): (World, Outcome) {
    match a
    case EnsureSession(id, secret, f1, f2) => SessionEstablished(w, id, secret, f1, f2)
    case Reconnect(f1, f2) => Reconnected(w, f1, f2)
    case Rotate(rotation, secret, fate) => Rotated(w, rotation, secret, fate)
    case MarkLost => (MarkedLost(w), Err(Lost))
    case Arrive(request) => (w.(server := Served(w.server, request)), Ok(()))
  }

  function Served(server: Option<Enrolled>, request: Request): Option<Enrolled> {
    match request
    case EnrollRequest(id, secret) => ServeEnroll(server, id, secret, DropReply).0
    case RotateRequest(current, next) => ServeRotate(server, current, next, DropReply).0
  }

  function Next(w: World, a: Action): World {
    Perform(w, a).0
  }

  function Run(w: World, actions: seq<Action>): World
    decreases |actions|
  {
    if actions == [] then w else Run(Next(w, actions[0]), actions[1..])
  }

  const FRESH := World(None, None)

  /** The identity operations, taken one after the other under the lock, are the steps of a run. */
  method Play(session: RendererSession, actions: seq<Action>)
    requires !session.lockHeld && session.Valid()
    modifies session, session.store, session.store.memoryIdentities.Values, session.server
    ensures !session.lockHeld && session.Valid()
    ensures session.State() == Run(old(session.State()), actions)
  {
    for k := 0 to |actions|
      invariant !session.lockHeld && session.Valid()
      invariant fresh(session.store.memoryIdentities.Values - old(session.store.memoryIdentities.Values))
      invariant Run(session.State(), actions[k..]) == Run(old(session.State()), actions)
    {
      assert actions[k..][0] == actions[k] && actions[k..][1..] == actions[k+1..];
      PlayOne(session, actions[k]);
    }
  }

  method PlayOne(session: RendererSession, a: Action)
    requires !session.lockHeld && session.Valid()
    modifies session, session.store, session.store.memoryIdentities.Values, session.server
    ensures !session.lockHeld && session.Valid()
    ensures fresh(session.store.memoryIdentities.Values - old(session.store.memoryIdentities.Values))
    ensures session.State() == Next(old(session.State()), a)
  {
    match a
    case EnsureSession(id, secret, f1, f2) => var _ := session.RendererDeviceSession(id, secret, f1, f2);
    case Reconnect(f1, f2) => var _ := session.RendererReconnectSession(f1, f2);
    case Rotate(rotation, secret, fate) => var _ := session.RotateServerCredential(rotation, secret, fate);
    case MarkLost => var _ := session.store.MarkIdentityLost(session.origin);
    case Arrive(request) =>
      match request
      case EnrollRequest(id, secret) => var _ := session.server.Enroll(id, secret, DropReply);
      case RotateRequest(current, next) => var _ := session.server.Rotate(current, next, DropReply);
  }

  /** The vault can still produce the credential the server accepts. */
  ghost predicate Held(w: World) {
    w.server.Some? ==>
      && w.vault.Some?
      && w.vault.value.enrollmentId == w.server.value.enrollmentId
      && (|| w.server.value.secret == w.vault.value.secret
          || (w.vault.value.pending.Some? && w.server.value.secret == w.vault.value.pending.value.secret))
  }

  /** No rotation in flight, not locked out, and both sides agree on the credential. */
  ghost predicate Settled(w: World) {
    && w.server.Some? && w.vault.Some?
    && w.vault.value.pending.None? && !w.vault.value.lost
    && w.vault.value.secret == w.server.value.secret
  }

  /** The vault has the secret as its current or its pending one. */
  predicate HasSecret(v: Option<Identity>, secret: Secret) {
    v.Some? && (v.value.secret == secret || (v.value.pending.Some? && v.value.pending.value.secret == secret))
  }

  /** A late request is no longer accepted, or leads to a credential that the vault still has. */
  predicate Harmless(w: World, request: Request) {
    match request
    case EnrollRequest(id, secret) =>
      w.server.Some? || (w.vault.Some? && w.vault.value.enrollmentId == id && HasSecret(w.vault, secret))
    case RotateRequest(current, next) => !Active(w.server, current) || current == next || HasSecret(w.vault, next)
  }

  /** The answer is definitive although an earlier, unanswered request has applied the same pair. */
  predicate Contradicts(w: World, a: Action) {
    a.Rotate? && a.fate.Refuse? && a.fate.status in DEFINITIVE
    && w.server.Some? && w.vault.Some? && !w.vault.value.lost && w.vault.value.pending.Some?
    && w.vault.value.pending.value.secret != w.vault.value.secret
    && w.server.value.secret == w.vault.value.pending.value.secret
  }

  /** The contract of server and network: no contradicting answer, no harmful late arrival. */
  predicate Honoured(w: World, a: Action) {
    !Contradicts(w, a) && (a.Arrive? ==> Harmless(w, a.request))
  }

  /** Started from a held credential, a step keeps it held exactly when the contract is honoured. */
  lemma StepKeepsCredential(w: World, a: Action)
    requires Held(w)
    ensures Held(Next(w, a)) <==> Honoured(w, a)
  {
  }

  /** A late rotation keeps the credential exactly when it is not accepted or its new secret is known. */
  lemma LateRotationHarmlessIff(w: World, current: Secret, next: Secret)
    requires Held(w)
    ensures Held(Next(w, Arrive(RotateRequest(current, next)))) <==>
            !Active(w.server, current) || current == next || HasSecret(w.vault, next)
  {
    StepKeepsCredential(w, Arrive(RotateRequest(current, next)));
  }

  ghost predicate HonouredRun(w: World, actions: seq<Action>)
    decreases |actions|
  {
    actions != [] ==> Honoured(w, actions[0]) && HonouredRun(Next(w, actions[0]), actions[1..])
  }

  ghost predicate HeldThroughout(w: World, actions: seq<Action>)
    decreases |actions|
  {
    Held(w) && (actions != [] ==> HeldThroughout(Next(w, actions[0]), actions[1..]))
  }

  /**
   Never stranded: whatever is lost or late on the way, the credential stays held at every point of a
   run if and only if the contract is honoured at every point of it.
   */
  lemma {:induction false} NeverStranded(w: World, actions: seq<Action>)
    requires Held(w)
    ensures HonouredRun(w, actions) <==> HeldThroughout(w, actions)
    ensures HonouredRun(w, actions) ==> Held(Run(w, actions))
    decreases |actions|
  {
    if actions != [] {
      StepKeepsCredential(w, actions[0]);
      var next := Next(w, actions[0]);
      if Held(next) {
        NeverStranded(next, actions[1..]);
      }
    }
  }

  /** A pending rotation is only ever given up for the credential the server then holds. */
  lemma SettlesOnAgreement(w: World, a: Action)
    requires Held(w) && Honoured(w, a) && w.server.Some? && w.vault.Some?
    requires w.vault.value.pending.Some? && Next(w, a).vault.value.pending.None?
    ensures Next(w, a).vault.value.secret == Next(w, a).server.value.secret
    ensures Next(w, a).vault.value.secret in {w.vault.value.secret, w.vault.value.pending.value.secret}
  {
  }

  /**
   From every held, enrolled state, lost or not, one loss-free reconnect settles the vault.  It
   enrolls nobody: the server and the enrollment id are unchanged.
   */
  lemma ReconnectConverges(w: World)
    requires Held(w) && w.server.Some?
    ensures Settled(Next(w, Reconnect(Deliver, Deliver)))
    ensures Perform(w, Reconnect(Deliver, Deliver)).1 == Ok(())
    ensures Next(w, Reconnect(Deliver, Deliver)).server == w.server
    ensures Next(w, Reconnect(Deliver, Deliver)).vault.value.enrollmentId == w.vault.value.enrollmentId
  {
  }

  /** Without the lost mark the ordinary session path settles it as well. */
  lemma SessionConverges(w: World, id: Secret, secret: Secret)
    requires Held(w) && w.server.Some? && !w.vault.value.lost
    ensures Settled(Next(w, EnsureSession(id, secret, Deliver, Deliver)))
    ensures Next(w, EnsureSession(id, secret, Deliver, Deliver)).server == w.server
  {
  }

  /** Every reachable enrolled state is one clean reconnect away from a settled one. */
  lemma AlwaysRecoverable(actions: seq<Action>)
    requires HonouredRun(FRESH, actions) && Run(FRESH, actions).server.Some?
    ensures Settled(Next(Run(FRESH, actions), Reconnect(Deliver, Deliver)))
  {
    NeverStranded(FRESH, actions);
    ReconnectConverges(Run(FRESH, actions));
  }

  ghost predicate SameEnrollment(w: World, w': World) {
    && (w.vault.Some? ==> w'.vault.Some? && w'.vault.value.enrollmentId == w.vault.value.enrollmentId)
    && (w.server.Some? ==> w'.server.Some? && w'.server.value.enrollmentId == w.server.value.enrollmentId)
  }

  lemma StepKeepsEnrollment(w: World, a: Action)
    ensures SameEnrollment(w, Next(w, a))
  {
  }

  /** No run ever replaces an enrollment, in the vault or at the server. */
  lemma {:induction false} EnrollmentIsPermanent(w: World, actions: seq<Action>)
    ensures SameEnrollment(w, Run(w, actions))
    decreases |actions|
  {
    if actions != [] {
      StepKeepsEnrollment(w, actions[0]);
      EnrollmentIsPermanent(Next(w, actions[0]), actions[1..]);
    }
  }

  /** A lost identity is never enrolled again. */
  lemma LostIdentityNeverEnrolls(w: World, id: Secret, secret: Secret, f1: Fate, f2: Fate)
    requires w.vault.Some? && w.vault.value.lost
    ensures Perform(w, EnsureSession(id, secret, f1, f2)) == (w, Err(Store(IdentityLost)))
    ensures Next(w, Reconnect(f1, f2)).server == w.server
  {
  }

  /**
   Repeating a rotation whose reply was lost reports a live identity as lost: the server refuses
   the already revoked current secret with 401.  The vault still holds the active credential, and
   one clean reconnect restores it with the rotation completed.
   */
  lemma RetriedRotationLooksLost(w: World, r1: Secret, s1: Secret, r2: Secret, s2: Secret)
    requires Settled(w) && Held(w) && s1 != w.vault.value.secret
    ensures var w1 := Next(w, Rotate(r1, s1, DropReply));
            var w2 := Next(w1, Rotate(r2, s2, Deliver));
            var w3 := Next(w2, Reconnect(Deliver, Deliver));
            && Perform(w1, Rotate(r2, s2, Deliver)).1 == Err(Lost)
            && w2.vault.value.lost && Held(w2) && Active(w2.server, s1)
            && Settled(w3) && w3.vault.value.secret == s1
  {
  }

  /** A delivered rotation reports a lost identity exactly when the pair is not acceptable. */
  lemma DeliveredRotationLostIff(w: World, r: Secret, s: Secret)
    requires w.vault.Some? && !w.vault.value.lost
    ensures var i := Begun(w.vault.value, r, s);
            Perform(w, Rotate(r, s, Deliver)).1 == Err(Lost)
            <==> !Active(w.server, i.secret) || i.secret == i.pending.value.secret
  {
  }

  /** Why the contract speaks of the pair: one definitive answer to a retry strands the vault. */
  lemma DefinitiveAnswerToRetryStrands(w: World, r: Secret, s: Secret, status: FailureStatus)
    requires Settled(w) && Held(w) && s != w.vault.value.secret && status in DEFINITIVE
    ensures var w1 := Next(w, Rotate(r, s, DropReply));
            Held(w1) && !Held(Next(w1, Rotate(r, s, Refuse(status, false))))
  {
  }

  /**
   A late rotation does harm: when its request was lost, a clean session has aborted it since, and it
   is processed after all, the vault is left without the active credential.
   */
  lemma DelayedRotationStrands(w: World, r: Secret, s: Secret)
    requires Settled(w) && Held(w) && s != w.vault.value.secret
    ensures var w1 := Next(w, Rotate(r, s, DropRequest));
            var w2 := Next(w1, EnsureSession(0, 0, Deliver, Deliver));
            Settled(w2) && !Held(Next(w2, Arrive(RotateRequest(w.vault.value.secret, s))))
  {
  }

  // ---------------------------------------------------------------- what the client sends

  /** The request that an action sends and that would change the server. */
  function SentBy(w: World, a: Action): Option<Request> {
    match a
    case EnsureSession(id, secret, _, _) =>
      var i := Created(w.vault, id, secret);
      if i.lost || i.pending.Some? || i.confirmed then None else Some(EnrollRequest(i.enrollmentId, i.secret))
    case Rotate(rotation, secret, _) =>
      (match Require(w.vault)
       case Err(_) => None
       case Ok(i) => Some(RotateRequest(i.secret, Begun(i, rotation, secret).pending.value.secret)))
    case _ => None
  }

  /** Whether the server gets to process what an action sends. */
  predicate Reaches(a: Action) {
    match a
    case EnsureSession(_, _, f1, _) => Processed(f1)
    case Rotate(_, _, fate) => Processed(fate)
    case _ => false
  }

  /** Only what the client sends, or what arrives late, changes the server. */
  lemma ServerChangesByRequests(w: World, a: Action)
    ensures Next(w, a).server ==
            if a.Arrive? then Served(w.server, a.request)
            else if SentBy(w, a).Some? && Reaches(a) then Served(w.server, SentBy(w, a).value)
            else w.server
  {
  }

  /** To an enrolled server the client never sends another enrollment id than its own. */
  lemma EnrollsOwnId(w: World, a: Action)
    requires Held(w) && w.server.Some? && SentBy(w, a).Some? && SentBy(w, a).value.EnrollRequest?
    ensures SentBy(w, a).value.id == w.server.value.enrollmentId
  {
  }

  /** What makes a sent enrollment harmless for ever. */
  predicate Awaited(w: World, id: Secret, secret: Secret) {
    w.server.Some? || (w.vault.Some? && w.vault.value.enrollmentId == id && w.vault.value.secret == secret)
  }

  lemma {:induction false} StaysAwaited(w: World, actions: seq<Action>, id: Secret, secret: Secret)
    requires Awaited(w, id, secret)
    ensures Awaited(Run(w, actions), id, secret)
    decreases |actions|
  {
    if actions != [] {
      StaysAwaited(Next(w, actions[0]), actions[1..], id, secret);
    }
  }

  /** An enrollment that the client sent does no harm however late it arrives. */
  lemma LateEnrollmentIsHarmless(w: World, a: Action, later: seq<Action>)
    requires SentBy(w, a).Some? && SentBy(w, a).value.EnrollRequest?
    ensures Harmless(Run(Next(w, a), later), SentBy(w, a).value)
  {
    var request := SentBy(w, a).value;
    StaysAwaited(Next(w, a), later, request.id, request.secret);
  }

  // ---------------------------------------------------------------- outcomes by reply status

  /** The status of the answer to a request, `honest` being what the server would say; none if it is lost. */
  function Answered(fate: Fate, honest: nat): Option<nat> {
    match fate
    case Deliver => Some(honest)
    case Refuse(status, _) => Some(status)
    case _ => None
  }

  function RenewStatus(server: Option<Enrolled>, credential: Secret, fate: Fate): Option<nat> {
    Answered(fate, if server.Some? && server.value.secret == credential then 200 else 401)
  }

  predicate Succeeded(status: Option<nat>) {
    status.Some? && 200 <= status.value < 300
  }

  predicate SaysLost(status: Option<nat>) {
    status in {Some(401), Some(409)}
  }

  predicate SaysNever(status: Option<nat>) {
    status in {Some(400), Some(413), Some(415), Some(422)}
  }

  function ErrorOf(status: Option<nat>): SessionError {
    if status.Some? then Request(status.value) else Network
  }

  /**
   A rotation, by the status of its answer: committed on success, marked lost on 401 and 409, given up
   on 400, 413, 415 and 422, and still pending after anything else.
   */
  lemma RotationByStatus(w: World, r: Secret, s: Secret, fate: Fate)
    requires w.vault.Some? && !w.vault.value.lost
    ensures var i := w.vault.value;
            var p := if i.pending.Some? then i.pending.value else Pending(r, s);
            var accepted := w.server.Some? && w.server.value.secret == i.secret && i.secret != p.secret;
            var status := Answered(fate, if accepted then 200 else 401);
            var (w', outcome) := Perform(w, Rotate(r, s, fate));
            && (Succeeded(status) ==>
                  outcome == Ok(()) && w'.vault == Some(i.(secret := p.secret, pending := None))
                  && w'.server == Some(w.server.value.(secret := p.secret)))
            && (SaysLost(status) ==> outcome == Err(Lost) && w'.vault == Some(i.(pending := Some(p), lost := true)))
            && (SaysNever(status) ==> outcome == Err(ErrorOf(status)) && w'.vault == Some(i.(pending := None)))
            && (!Succeeded(status) && !SaysLost(status) && !SaysNever(status) ==>
                  outcome == Err(ErrorOf(status)) && w'.vault == Some(i.(pending := Some(p))))
            && w'.server == (if accepted && (fate in {Deliver, DropReply} || (fate.Refuse? && fate.late && !SaysNever(status)))
                             then Some(w.server.value.(secret := p.secret)) else w.server)
  {
  }

  /**
   A rotation answers `Ok` only when it leaves no rotation pending and vault and server agree on the
   secret that was offered as new.
   */
  lemma RotatedMeansAgreed(w: World, r: Secret, s: Secret, fate: Fate)
    requires Perform(w, Rotate(r, s, fate)).1 == Ok(())
    ensures var w' := Next(w, Rotate(r, s, fate));
            && w.vault.Some? && Settled(w') && w'.vault.value.secret != w.vault.value.secret
            && w'.vault.value.secret == if w.vault.value.pending.Some? then w.vault.value.pending.value.secret else s
  {
    if w.vault.Some? && !w.vault.value.lost {
      RotationByStatus(w, r, s, fate);
    }
  }

  /** A delivered rotation of a settled vault to another secret succeeds and installs it on both sides. */
  lemma DeliveredRotationSucceeds(w: World, r: Secret, s: Secret)
    requires Settled(w) && s != w.vault.value.secret
    ensures Perform(w, Rotate(r, s, Deliver)).1 == Ok(())
    ensures Settled(Next(w, Rotate(r, s, Deliver))) && Next(w, Rotate(r, s, Deliver)).vault.value.secret == s
  {
    RotationByStatus(w, r, s, Deliver);
  }

  /**
   The recovery of a pending rotation, by the statuses of its renewals: with the new secret first, with
   the current one only after a 401.  Success leaves the identity unmarked.
   */
  ghost predicate RecoveredByStatus(w: World, outcome: Outcome, w': World, p: Pending, f1: Fate, f2: Fate)
    requires w.vault.Some?
  {
    var i := w.vault.value;
    var first, second := RenewStatus(w.server, p.secret, f1), RenewStatus(w.server, i.secret, f2);
    && w'.server == w.server
    && if Succeeded(first) then
         outcome == Ok(()) && w'.vault == Some(i.(secret := p.secret, pending := None, lost := false))
       else if first == Some(401) && Succeeded(second) then
         outcome == Ok(()) && w'.vault == Some(i.(pending := None, lost := false))
       else if first == Some(409) || (first == Some(401) && SaysLost(second)) then
         outcome == Err(Lost) && w'.vault == Some(i.(lost := true))
       else
         outcome == Err(ErrorOf(if first == Some(401) then second else first)) && w'.vault == w.vault
  }

  lemma ReconnectByStatus(w: World, f1: Fate, f2: Fate)
    ensures var (w', outcome) := Perform(w, Reconnect(f1, f2));
            && (w.vault.None? ==> w' == w && outcome == Err(Store(IdentityMissing)))
            && (w.vault.Some? && w.vault.value.pending.Some? ==>
                  RecoveredByStatus(w, outcome, w', w.vault.value.pending.value, f1, f2))
            && (w.vault.Some? && w.vault.value.pending.None? ==>
                  var i := w.vault.value;
                  var status := RenewStatus(w.server, i.secret, f1);
                  && w'.server == w.server
                  && if Succeeded(status) then outcome == Ok(()) && w'.vault == Some(i.(lost := false))
                     else if SaysLost(status) then outcome == Err(Lost) && w'.vault == Some(i.(lost := true))
                     else outcome == Err(ErrorOf(status)) && w'.vault == w.vault)
  {
  }

  /**
   A session, by the statuses of its requests: a vault without a record gets a fresh one, an unconfirmed
   one enrolls and a confirmed one renews; success confirms it, 401 and 409 mark it lost.
   */
  lemma SessionByStatus(w: World, id: Secret, secret: Secret, f1: Fate, f2: Fate)
    ensures var i := if w.vault.Some? then w.vault.value else Identity(id, secret, false, false, None);
            var (w', outcome) := Perform(w, EnsureSession(id, secret, f1, f2));
            && (i.lost ==> w' == w && outcome == Err(Store(IdentityLost)))
            && (!i.lost && i.pending.Some? ==> RecoveredByStatus(w, outcome, w', i.pending.value, f1, f2))
            && (!i.lost && i.pending.None? ==>
                  var known := w.server == Some(Enrolled(i.enrollmentId, i.secret));
                  var status := if i.confirmed then RenewStatus(w.server, i.secret, f1)
                                else Answered(f1, if w.server.None? || known then 201 else 409);
                  var enrolls := !i.confirmed && w.server.None?
                                 && (f1 in {Deliver, DropReply} || (f1.Refuse? && f1.late && !SaysNever(status)));
                  && w'.server == (if enrolls then Some(Enrolled(i.enrollmentId, i.secret)) else w.server)
                  && if Succeeded(status) then outcome == Ok(()) && w'.vault == Some(i.(confirmed := true))
                     else if SaysLost(status) then outcome == Err(Lost) && w'.vault == Some(i.(lost := true))
                     else outcome == Err(ErrorOf(status)) && w'.vault == Some(i))
  {
  }
}
