/**
 Device-credential rotation: the renderer side of desktop/src/session.ts against a server that
 holds one active credential for the enrolled device, over a network that loses requests and
 replies.

 The network and server contract is `Fate` together with the three `Serve...` functions: a 2xx
 reply reports what the server did, the statuses of `DEFINITIVE` mean that a rotation was not
 applied, and any other failure leaves open whether it was.  A request that was not processed at once
 may still arrive later; that is the step `Arrive` of `RotationSafety`.
 */
module CredentialRotation {
  import opened Prelude
  import opened IdentityCredentialStore

  // ---------------------------------------------------------------- server and network

  const LOST_STATUSES: set<nat> := {401, 409}
  const DEFINITIVE: set<nat> := {400, 413, 415, 422}

  datatype RotationOutcome = LostIdentity | DefinitiveRejection | Ambiguous

  function ClassifyCredentialRotationStatus(status: nat): RotationOutcome {
    if status in LOST_STATUSES then LostIdentity
    else if status in DEFINITIVE then DefinitiveRejection
    else Ambiguous
  }

  type FailureStatus = c: nat | !(200 <= c < 300) witness 500

  /** What the network does to one request. */
  datatype Fate =
    | Deliver                                     // processed, the reply arrives
    | DropRequest                                 // not processed by now, no reply
    | DropReply                                   // processed, no reply
    | Refuse(status: FailureStatus, late: bool)   // a failure reply, `late` if processed anyway

  datatype Reply = Status(code: nat) | NoReply

  datatype Enrolled = Enrolled(enrollmentId: Secret, secret: Secret)

  predicate Processed(fate: Fate) {
    match fate
    case Deliver => true
    case DropRequest => false
    case DropReply => true
    case Refuse(status, late) => late && status !in DEFINITIVE
  }

  function ReplyOf(fate: Fate, honest: nat): Reply {
    match fate
    case Deliver => Status(honest)
    case DropRequest => NoReply
    case DropReply => NoReply
    case Refuse(status, _) => Status(status)
  }

  predicate Success(r: Reply) {
    r.Status? && 200 <= r.code < 300
  }

  predicate Active(server: Option<Enrolled>, credential: Secret) {
    server.Some? && server.value.secret == credential
  }

  function ServeRenew(server: Option<Enrolled>, credential: Secret, fate: Fate): Reply {
    ReplyOf(fate, if Active(server, credential) then 200 else 401)
  }

  function ServeEnroll(server: Option<Enrolled>, id: Secret, secret: Secret, fate: Fate)
    : (Option<Enrolled>, Reply)
  {
    (if Processed(fate) && server.None? then Some(Enrolled(id, secret)) else server,
     ReplyOf(fate, if server.None? || server.value == Enrolled(id, secret) then 201 else 409))
  }

  function ServeRotate(server: Option<Enrolled>, current: Secret, next: Secret, fate: Fate)
    : (Option<Enrolled>, Reply)
  {
    var accepted := Active(server, current) && current != next;
    (if Processed(fate) && accepted then Some(server.value.(secret := next)) else server,
     ReplyOf(fate, if accepted then 200 else 401))
  }

  // ---------------------------------------------------------------- client, on values

  datatype SessionError = Lost | Store(error: StoreError) | Request(code: nat) | Network

  type Outcome = Result<(), SessionError>

  /** One origin: its vault record, and the server's record of the identity enrolled by this vault. */
  datatype World = World(vault: Option<Identity>, server: Option<Enrolled>)

  function RequestError(r: Reply): SessionError {
    if r.Status? then Request(r.code) else Network
  }

  /** An exception of the vault is passed on to the caller. */
  function FromStore(r: Result<(), StoreError>): Outcome {
    match r
    case Ok(_) => Ok(())
    case Err(e) => Err(Store(e))
  }

  predicate IdentityRejection(r: Reply) {
    r.Status? && r.code in LOST_STATUSES
  }

  function WithLost(v: Option<Identity>, lost: bool): Option<Identity> {
    if v.Some? then Some(v.value.(lost := lost)) else v
  }

  function MarkedLost(w: World): World {
    w.(vault := WithLost(w.vault, true))
  }

  /** The vault after a successful renewal, `settled` being the attempted commit or abort. */
  function Settle(w: World, v: Option<Identity>, settled: Result<Identity, StoreError>): (World, Outcome) {
    match settled
    case Ok(i) => (w.(vault := Some(i)), Ok(()))
    case Err(e) => (w.(vault := v), Err(Store(e)))
  }

  function Recovered(w: World, p: Pending, current: Secret, restore: bool, f1: Fate, f2: Fate): (World, Outcome) {
    var r1 := ServeRenew(w.server, p.secret, f1);
    var v := if restore then WithLost(w.vault, false) else w.vault;
    if Success(r1) then Settle(w, v, Commit(v, p.rotationId))
    else if r1 == Status(409) then (MarkedLost(w), Err(Lost))
    else if r1 != Status(401) then (w, Err(RequestError(r1)))
    else
      var r2 := ServeRenew(w.server, current, f2);
      if Success(r2) then Settle(w, v, Abort(v, p.rotationId))
      else if IdentityRejection(r2) then (MarkedLost(w), Err(Lost))
      else (w, Err(RequestError(r2)))
  }

  function EnrolledOrRenewed(i: Identity, server: Option<Enrolled>, fate: Fate): (World, Outcome) {
    var (server', reply) :=
      if i.confirmed then (server, ServeRenew(server, i.secret, fate))
      else ServeEnroll(server, i.enrollmentId, i.secret, fate);
    if Success(reply) then (World(Some(i.(confirmed := true)), server'), Ok(()))
    else if IdentityRejection(reply) then (MarkedLost(World(Some(i), server')), Err(Lost))
    else (World(Some(i), server'), Err(RequestError(reply)))
  }

  function SessionEstablished(w: World, freshId: Secret, freshSecret: Secret, f1: Fate, f2: Fate)
    : (World, Outcome)
  {
    var i := Created(w.vault, freshId, freshSecret);
    var w1 := w.(vault := Some(i));
    if i.lost then (w1, Err(Store(IdentityLost)))
    else if i.pending.Some? then Recovered(w1, i.pending.value, i.secret, false, f1, f2)
    else EnrolledOrRenewed(i, w.server, f1)
  }

  function Reconnected(w: World, f1: Fate, f2: Fate): (World, Outcome) {
    if w.vault.None? then (w, Err(Store(IdentityMissing)))
    else
      var i := w.vault.value;
      if i.pending.Some? then Recovered(w, i.pending.value, i.secret, true, f1, f2)
      else RenewedAndRestored(w, i, f1)
  }

  function RenewedAndRestored(w: World, i: Identity, fate: Fate): (World, Outcome) {
    var reply := ServeRenew(w.server, i.secret, fate);
    if Success(reply) then (w.(vault := Some(i.(lost := false))), Ok(()))
    else if IdentityRejection(reply) then (MarkedLost(w), Err(Lost))
    else (w, Err(RequestError(reply)))
  }

  function AfterRotate(w: World, i: Identity, reply: Reply): (World, Outcome)
    requires i.pending.Some?
  {
    if Success(reply) then Settle(w, Some(i), Commit(Some(i), i.pending.value.rotationId))
    else if reply.NoReply? then (w, Err(Network))
    else match ClassifyCredentialRotationStatus(reply.code)
      case LostIdentity => (MarkedLost(w), Err(Lost))
      case DefinitiveRejection => (w.(vault := Some(i.(pending := None))), Err(Request(reply.code)))
      case Ambiguous => (w, Err(Request(reply.code)))
  }

  function Rotated(w: World, freshRotation: Secret, freshSecret: Secret, fate: Fate): (World, Outcome) {
    match Require(w.vault)
    case Err(e) => (w, Err(Store(e)))
    case Ok(i0) =>
      var i := Begun(i0, freshRotation, freshSecret);
      var (server, reply) := ServeRotate(w.server, i.secret, i.pending.value.secret, fate);
      AfterRotate(World(Some(i), server), i, reply)
  }

  // ---------------------------------------------------------------- client, in place

  class Server {
    var record: Option<Enrolled>

    constructor ()
      ensures record == None
    {
      record := None;
    }

    method Renew(credential: Secret, fate: Fate) returns (r: Reply)
      ensures r == ServeRenew(record, credential, fate)
    {
      r := ReplyOf(fate, if Active(record, credential) then 200 else 401);
    }

    method Enroll(id: Secret, secret: Secret, fate: Fate) returns (r: Reply)
      modifies this
      ensures (record, r) == ServeEnroll(old(record), id, secret, fate)
    {
      r := ReplyOf(fate, if record.None? || record.value == Enrolled(id, secret) then 201 else 409);
      if record.None? && Processed(fate) {
        record := Some(Enrolled(id, secret));
      }
    }

    method Rotate(current: Secret, next: Secret, fate: Fate) returns (r: Reply)
      modifies this
      ensures (record, r) == ServeRotate(old(record), current, next, fate)
    {
      var accepted := Active(record, current) && current != next;
      r := ReplyOf(fate, if accepted then 200 else 401);
      if accepted && Processed(fate) {
        record := Some(record.value.(secret := next));
      }
    }
  }

  /**
   The renderer's identity operations.  The three public ones take the identity lock, which they may
   do only while nobody holds it; everything else here runs under it.
   */
  class RendererSession {
    const origin: Origin
    const store: CredentialStore
    const server: Server
    /** Whether some operation is between taking and releasing the identity lock. */
    var lockHeld: bool

    constructor (origin: Origin, store: CredentialStore, server: Server)
      ensures this.origin == origin && this.store == store && this.server == server && !lockHeld
    {
      this.origin, this.store, this.server, lockHeld := origin, store, server, false;
    }

    ghost predicate Valid()
      reads store, store.memoryIdentities.Values
    {
      store.Valid()
    }

    ghost function State(): World
      reads store, store.memoryIdentities.Values, server
    {
      World(store.At(origin), server.record)
    }

    method MarkRendererIdentityLost() returns (r: Outcome)
      requires lockHeld && Valid()
      modifies store.memoryIdentities.Values
      ensures Valid() && store.OnlyChanged(origin, old(store.View()))
      ensures State() == MarkedLost(old(State())) && r == Err(Lost)
    {
      var _ := store.MarkIdentityLost(origin);
      return Err(Lost);
    }

    /** What follows a successful renewal: the optional restore, then the commit or the abort. */
    method Finalize(p: Pending, restore: bool, commit: bool) returns (r: Outcome)
      requires lockHeld && Valid()
      modifies store.memoryIdentities.Values
      ensures Valid() && store.OnlyChanged(origin, old(store.View()))
      ensures var w := old(State());
              var v := if restore then WithLost(w.vault, false) else w.vault;
              (State(), r) == Settle(w, v, if commit then Commit(v, p.rotationId) else Abort(v, p.rotationId))
    {
      if restore {
        var _ := store.RestoreIdentity(origin);
      }
      var settled;
      if commit {
        settled := store.CommitRotation(origin, p.rotationId);
      } else {
        settled := store.AbortRotation(origin, p.rotationId);
      }
      return FromStore(settled);
    }

    method RecoverPendingRotation(p: Pending, current: Secret, restore: bool, f1: Fate, f2: Fate)
      returns (r: Outcome)
      requires lockHeld && Valid()
      modifies store.memoryIdentities.Values
      ensures Valid() && store.OnlyChanged(origin, old(store.View()))
      ensures (State(), r) == Recovered(old(State()), p, current, restore, f1, f2)
    {
      var renewed := server.Renew(p.secret, f1);
      if Success(renewed) {
        r := Finalize(p, restore, true);
        return;
      }
      if renewed == Status(409) {
        r := MarkRendererIdentityLost();
        return;
      }
      if renewed != Status(401) {
        return Err(RequestError(renewed));
      }
      renewed := server.Renew(current, f2);
      if Success(renewed) {
        r := Finalize(p, restore, false);
        return;
      }
      if IdentityRejection(renewed) {
        r := MarkRendererIdentityLost();
        return;
      }
      return Err(RequestError(renewed));
    }

    method RendererDeviceSession(freshId: Secret, freshSecret: Secret, f1: Fate, f2: Fate)
      returns (r: Outcome)
      requires !lockHeld && Valid()
      modifies this, store, store.memoryIdentities.Values, server
      ensures !lockHeld && Valid() && store.OnlyChanged(origin, old(store.View()))
      ensures fresh(store.memoryIdentities.Values - old(store.memoryIdentities.Values))
      ensures (State(), r) == SessionEstablished(old(State()), freshId, freshSecret, f1, f2)
    {
      lockHeld := true;
      r := RendererDeviceSessionUnlocked(freshId, freshSecret, f1, f2);
      lockHeld := false;
    }

    method RendererDeviceSessionUnlocked(freshId: Secret, freshSecret: Secret, f1: Fate, f2: Fate)
      returns (r: Outcome)
      requires lockHeld && Valid()
      modifies store, store.memoryIdentities.Values, server
      ensures Valid() && store.OnlyChanged(origin, old(store.View()))
      ensures fresh(store.memoryIdentities.Values - old(store.memoryIdentities.Values))
      ensures (State(), r) == SessionEstablished(old(State()), freshId, freshSecret, f1, f2)
    {
      var loaded := store.LoadOrCreate(origin, freshId, freshSecret);
      if loaded.Err? {
        return Err(Store(loaded.error));
      }
      if loaded.value.pending.Some? {
        r := RecoverPendingRotation(loaded.value.pending.value, loaded.value.secret, false, f1, f2);
      } else {
        r := EnrollOrRenew(loaded.value, f1);
      }
    }

    /** The part of `rendererDeviceSessionUnlocked` that runs when no rotation is pending. */
    method EnrollOrRenew(identity: Identity, fate: Fate) returns (r: Outcome)
      requires lockHeld && Valid() && State().vault == Some(identity) && !identity.lost
      modifies store.memoryIdentities.Values, server
      ensures Valid() && store.OnlyChanged(origin, old(store.View()))
      ensures (State(), r) == EnrolledOrRenewed(identity, old(server.record), fate)
    {
      var reply;
      if identity.confirmed {
        reply := server.Renew(identity.secret, fate);
      } else {
        reply := server.Enroll(identity.enrollmentId, identity.secret, fate);
      }
      if Success(reply) {
        if !identity.confirmed {
          var _ := store.ConfirmEnrollment(origin);
        }
        return Ok(());
      }
      if IdentityRejection(reply) {
        r := MarkRendererIdentityLost();
        return;
      }
      return Err(RequestError(reply));
    }

    method RendererReconnectSession(f1: Fate, f2: Fate) returns (r: Outcome)
      requires !lockHeld && Valid()
      modifies this, store.memoryIdentities.Values
      ensures !lockHeld && Valid() && store.OnlyChanged(origin, old(store.View()))
      ensures (State(), r) == Reconnected(old(State()), f1, f2)
    {
      lockHeld := true;
      r := ReconnectUnderLock(f1, f2);
      lockHeld := false;
    }

    /** The operation that `rendererReconnectSession` passes to the lock. */
    method ReconnectUnderLock(f1: Fate, f2: Fate) returns (r: Outcome)
      requires lockHeld && Valid()
      modifies store.memoryIdentities.Values
      ensures Valid() && store.OnlyChanged(origin, old(store.View()))
      ensures (State(), r) == Reconnected(old(State()), f1, f2)
    {
      var loaded := store.LoadForReconnect(origin);
      if loaded.Err? {
        return Err(Store(loaded.error));
      }
      var identity := loaded.value;
      if identity.pending.Some? {
        r := RecoverPendingRotation(identity.pending.value, identity.secret, true, f1, f2);
        return;
      }
      r := RenewAndRestore(identity, f1);
    }

    /** The part of `rendererReconnectSession` that runs when no rotation is pending. */
    method RenewAndRestore(identity: Identity, fate: Fate) returns (r: Outcome)
      requires lockHeld && Valid() && State().vault == Some(identity)
      modifies store.memoryIdentities.Values
      ensures Valid() && store.OnlyChanged(origin, old(store.View()))
      ensures (State(), r) == RenewedAndRestored(old(State()), identity, fate)
    {
      var reply := server.Renew(identity.secret, fate);
      if Success(reply) {
        var _ := store.RestoreIdentity(origin);
        return Ok(());
      }
      if IdentityRejection(reply) {
        r := MarkRendererIdentityLost();
        return;
      }
      return Err(RequestError(reply));
    }

    method RotateServerCredential(freshRotation: Secret, freshSecret: Secret, fate: Fate)
      returns (r: Outcome)
      requires !lockHeld && Valid()
      modifies this, store.memoryIdentities.Values, server
      ensures !lockHeld && Valid() && store.OnlyChanged(origin, old(store.View()))
      ensures (State(), r) == Rotated(old(State()), freshRotation, freshSecret, fate)
    {
      lockHeld := true;
      r := RotateUnderLock(freshRotation, freshSecret, fate);
      lockHeld := false;
    }

    /** The operation that `rotateServerCredential` passes to the lock. */
    method RotateUnderLock(freshRotation: Secret, freshSecret: Secret, fate: Fate) returns (r: Outcome)
      requires lockHeld && Valid()
      modifies store.memoryIdentities.Values, server
      ensures Valid() && store.OnlyChanged(origin, old(store.View()))
      ensures (State(), r) == Rotated(old(State()), freshRotation, freshSecret, fate)
    {
      var begun := store.BeginRotation(origin, freshRotation, freshSecret);
      if begun.Err? {
        return Err(Store(begun.error));
      }
      r := SendRotation(begun.value, fate);
    }

    method SendRotation(rotation: Identity, fate: Fate) returns (r: Outcome)
      requires lockHeld && Valid() && State().vault == Some(rotation) && !rotation.lost && rotation.pending.Some?
      modifies store.memoryIdentities.Values, server
      ensures Valid() && store.OnlyChanged(origin, old(store.View()))
      ensures var (record, reply) := ServeRotate(old(server.record), rotation.secret, rotation.pending.value.secret, fate);
              (State(), r) == AfterRotate(World(Some(rotation), record), rotation, reply)
    {
      var reply := server.Rotate(rotation.secret, rotation.pending.value.secret, fate);
      r := FinishRotation(rotation, reply);
    }

    /** What `rotateServerCredential` does with the reply. */
    method FinishRotation(rotation: Identity, reply: Reply) returns (r: Outcome)
      requires lockHeld && Valid() && State().vault == Some(rotation) && !rotation.lost && rotation.pending.Some?
      modifies store.memoryIdentities.Values
      ensures Valid() && store.OnlyChanged(origin, old(store.View()))
      ensures (State(), r) == AfterRotate(old(State()), rotation, reply)
    {
      if reply.NoReply? {
        return Err(Network);
      }
      if !Success(reply) {
        match ClassifyCredentialRotationStatus(reply.code)
        case LostIdentity =>
          r := MarkRendererIdentityLost();
          return;
        case DefinitiveRejection =>
          var _ := store.AbortRotation(origin, rotation.pending.value.rotationId);
          return Err(Request(reply.code));
        case Ambiguous =>
          return Err(Request(reply.code));
      }
      var committed := store.CommitRotation(origin, rotation.pending.value.rotationId);
      return FromStore(committed);
    }
  }
}
