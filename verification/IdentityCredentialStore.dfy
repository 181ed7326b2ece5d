/**
 The in-memory identity vault of desktop/src/identityCredentialStore.ts: one record per backend
 origin, updated in place.  `Identity` is the value a record denotes; the methods of
 `CredentialStore` are specified by the functions on such values.
 */
module IdentityCredentialStore {
  import opened Prelude

  type Origin = string

  /** A random 32-byte value, known only up to equality. */
  type Secret = nat

  datatype Pending = Pending(rotationId: Secret, secret: Secret)

  datatype Identity = Identity(
    enrollmentId: Secret,
    secret: Secret,
    confirmed: bool,
    lost: bool,
    pending: Option<Pending>)

  datatype StoreError = IdentityLost | IdentityMissing | RotationMismatch

  /** The usable record of an origin, or the error `requireMemoryIdentity` throws. */
  function Require(v: Option<Identity>): Result<Identity, StoreError> {
    match v
    case None => Err(IdentityMissing)
    case Some(i) => if i.lost then Err(IdentityLost) else Ok(i)
  }

  /** The record that `loadOrCreate` leaves behind. */
  function Created(v: Option<Identity>, enrollmentId: Secret, secret: Secret): Identity {
    match v
    case None => Identity(enrollmentId, secret, false, false, None)
    case Some(i) => i
  }

  /** An unfinished rotation is offered again, never replaced by a second one. */
  function Begun(i: Identity, rotationId: Secret, secret: Secret): Identity {
    if i.pending.Some? then i else i.(pending := Some(Pending(rotationId, secret)))
  }

  function Commit(v: Option<Identity>, rotationId: Secret): Result<Identity, StoreError> {
    match Require(v)
    case Err(e) => Err(e)
    case Ok(i) =>
      if i.pending.None? || i.pending.value.rotationId != rotationId then Err(RotationMismatch)
      else Ok(i.(secret := i.pending.value.secret, pending := None))
  }

  function Abort(v: Option<Identity>, rotationId: Secret): Result<Identity, StoreError> {
    match Require(v)
    case Err(e) => Err(e)
    case Ok(i) =>
      if i.pending.None? || i.pending.value.rotationId != rotationId then Err(RotationMismatch)
      else Ok(i.(pending := None))
  }

  class MemoryIdentity {
    var enrollmentId: Secret
    var deviceSecret: Secret
    var enrollmentConfirmed: bool
    var lost: bool
    var pendingRotationId: Option<Secret>
    var pendingDeviceSecret: Option<Secret>

    constructor (enrollmentId: Secret, deviceSecret: Secret)
      ensures Valid()
      ensures Value() == Identity(enrollmentId, deviceSecret, false, false, None)
    {
      this.enrollmentId, this.deviceSecret := enrollmentId, deviceSecret;
      enrollmentConfirmed, lost := false, false;
      pendingRotationId, pendingDeviceSecret := None, None;
    }

    ghost predicate Valid()
      reads this
    {
      pendingRotationId.Some? <==> pendingDeviceSecret.Some?
    }

    function Value(): Identity
      reads this
    {
      Identity(enrollmentId, deviceSecret, enrollmentConfirmed, lost,
               if pendingRotationId.Some? && pendingDeviceSecret.Some?
               then Some(Pending(pendingRotationId.value, pendingDeviceSecret.value)) else None)
    }
  }

  class CredentialStore {
    var memoryIdentities: map<Origin, MemoryIdentity>

    constructor ()
      ensures Valid() && View() == map[]
    {
      memoryIdentities := map[];
    }

    /** Every record is well formed and belongs to one origin only. */
    ghost predicate Valid()
      reads this, memoryIdentities.Values
    {
      && (forall o <- memoryIdentities :: memoryIdentities[o].Valid())
      && (forall o, p | o in memoryIdentities && p in memoryIdentities && o != p ::
            memoryIdentities[o] != memoryIdentities[p])
    }

    ghost function View(): map<Origin, Identity>
      reads this, memoryIdentities.Values
    {
      map o <- memoryIdentities :: memoryIdentities[o].Value()
    }

    ghost function At(origin: Origin): Option<Identity>
      reads this, memoryIdentities.Values
    {
      if origin in memoryIdentities then Some(memoryIdentities[origin].Value()) else None
    }

    /** Nothing but the record of `origin` differs from `before`. */
    ghost predicate OnlyChanged(origin: Origin, before: map<Origin, Identity>)
      reads this, memoryIdentities.Values
    {
      View() - {origin} == before - {origin}
    }

    method LoadOrCreate(origin: Origin, enrollmentId: Secret, deviceSecret: Secret)
      returns (r: Result<Identity, StoreError>)
      requires Valid()
      modifies this
      ensures Valid() && fresh(memoryIdentities.Values - old(memoryIdentities.Values))
      ensures At(origin) == Some(Created(old(At(origin)), enrollmentId, deviceSecret))
      ensures OnlyChanged(origin, old(View()))
      ensures r == Require(At(origin))
    {
      if origin !in memoryIdentities {
        var identity := new MemoryIdentity(enrollmentId, deviceSecret);
        memoryIdentities := memoryIdentities[origin := identity];
      }
      var identity := memoryIdentities[origin];
      if identity.lost {
        return Err(IdentityLost);
      }
      return Ok(identity.Value());
    }

    method LoadForReconnect(origin: Origin) returns (r: Result<Identity, StoreError>)
      requires Valid()
      ensures r == match At(origin) case None => Err(IdentityMissing) case Some(i) => Ok(i)
    {
      if origin !in memoryIdentities {
        return Err(IdentityMissing);
      }
      return Ok(memoryIdentities[origin].Value());
    }

    method RequireMemoryIdentity(origin: Origin) returns (r: Result<MemoryIdentity, StoreError>)
      requires Valid()
      ensures r.Ok? ==> origin in memoryIdentities && r.value == memoryIdentities[origin]
      ensures r.Ok? <==> Require(At(origin)).Ok?
      ensures r.Err? ==> Require(At(origin)) == Err(r.error)
    {
      if origin !in memoryIdentities {
        return Err(IdentityMissing);
      }
      if memoryIdentities[origin].lost {
        return Err(IdentityLost);
      }
      return Ok(memoryIdentities[origin]);
    }

    method ConfirmEnrollment(origin: Origin) returns (r: Result<(), StoreError>)
      requires Valid()
      modifies memoryIdentities.Values
      ensures Valid() && OnlyChanged(origin, old(View()))
      ensures match old(Require(At(origin)))
              case Ok(i) => r == Ok(()) && At(origin) == Some(i.(confirmed := true))
              case Err(e) => r == Err(e) && At(origin) == old(At(origin))
    {
      var identity := RequireMemoryIdentity(origin);
      if identity.Err? {
        return Err(identity.error);
      }
      identity.value.enrollmentConfirmed := true;
      return Ok(());
    }

    method BeginRotation(origin: Origin, rotationId: Secret, secret: Secret)
      returns (r: Result<Identity, StoreError>)
      requires Valid()
      modifies memoryIdentities.Values
      ensures Valid() && OnlyChanged(origin, old(View()))
      ensures match old(Require(At(origin)))
              case Ok(i) => r == Ok(Begun(i, rotationId, secret)) && At(origin) == Some(r.value)
              case Err(e) => r == Err(e) && At(origin) == old(At(origin))
    {
      var required := RequireMemoryIdentity(origin);
      if required.Err? {
        return Err(required.error);
      }
      var identity := required.value;
      if identity.pendingRotationId.None? || identity.pendingDeviceSecret.None? {
        identity.pendingRotationId := Some(rotationId);
        identity.pendingDeviceSecret := Some(secret);
      }
      return Ok(identity.Value());
    }

    method CommitRotation(origin: Origin, rotationId: Secret) returns (r: Result<(), StoreError>)
      requires Valid()
      modifies memoryIdentities.Values
      ensures Valid() && OnlyChanged(origin, old(View()))
      ensures match old(Commit(At(origin), rotationId))
              case Ok(i) => r == Ok(()) && At(origin) == Some(i)
              case Err(e) => r == Err(e) && At(origin) == old(At(origin))
    {
      var required := RequireMemoryIdentity(origin);
      if required.Err? {
        return Err(required.error);
      }
      var identity := required.value;
      if identity.pendingRotationId != Some(rotationId) || identity.pendingDeviceSecret == None {
        return Err(RotationMismatch);
      }
      identity.deviceSecret := identity.pendingDeviceSecret.value;
      identity.pendingRotationId := None;
      identity.pendingDeviceSecret := None;
      return Ok(());
    }

    method AbortRotation(origin: Origin, rotationId: Secret) returns (r: Result<(), StoreError>)
      requires Valid()
      modifies memoryIdentities.Values
      ensures Valid() && OnlyChanged(origin, old(View()))
      ensures match old(Abort(At(origin), rotationId))
              case Ok(i) => r == Ok(()) && At(origin) == Some(i)
              case Err(e) => r == Err(e) && At(origin) == old(At(origin))
    {
      var required := RequireMemoryIdentity(origin);
      if required.Err? {
        return Err(required.error);
      }
      var identity := required.value;
      if identity.pendingRotationId != Some(rotationId) {
        return Err(RotationMismatch);
      }
      identity.pendingRotationId := None;
      identity.pendingDeviceSecret := None;
      return Ok(());
    }

    method MarkIdentityLost(origin: Origin) returns (r: Result<(), StoreError>)
      requires Valid()
      modifies memoryIdentities.Values
      ensures Valid() && OnlyChanged(origin, old(View()))
      ensures match old(At(origin))
              case Some(i) => r == Ok(()) && At(origin) == Some(i.(lost := true))
              case None => r == Err(IdentityMissing) && At(origin) == None
    {
      if origin !in memoryIdentities {
        return Err(IdentityMissing);
      }
      memoryIdentities[origin].lost := true;
      return Ok(());
    }

    method RestoreIdentity(origin: Origin) returns (r: Result<(), StoreError>)
      requires Valid()
      modifies memoryIdentities.Values
      ensures Valid() && OnlyChanged(origin, old(View()))
      ensures match old(At(origin))
              case Some(i) => r == Ok(()) && At(origin) == Some(i.(lost := false))
              case None => r == Err(IdentityMissing) && At(origin) == None
    {
      if origin !in memoryIdentities {
        return Err(IdentityMissing);
      }
      memoryIdentities[origin].lost := false;
      return Ok(());
    }
  }
}
