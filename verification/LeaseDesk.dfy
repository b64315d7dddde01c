module LeaseDesk {
  import opened Options
  import opened LeaseModel

  class Channel {
    var lease: Option<Lease>
    var clock: int
    ghost var issued: set<nat>
    ghost var log: seq<nat>

    ghost function Tables(): State
      reads this
    {
      State(lease, clock, issued, log)
    }

    constructor (clock: int)
      ensures Tables() == State(None, clock, {}, [])
    {
      lease, issued, log := None, {}, [];
      this.clock := clock;
    }

    /** `token` is a new identifier. */
    method AcquireLease(holder: nat, ttl: int, token: nat) returns (ok: bool)
      requires token !in issued
      modifies this
      ensures Tables() == Acquire(old(Tables()), holder, ttl, token)
      ensures ok <==> MayAcquire(old(Tables()), holder, ttl)
    {
      if holder == 0 || ttl < MIN_TTL || ttl > MAX_TTL { return false; }
      var fence := 0;
      if lease.Some? {
        var current := lease.value;
        if current.until > clock && current.holder != holder { return false; }
        fence := current.fence;
      }
      lease := Some(Lease(holder, token, fence + 1, clock + ttl));
      issued := issued + {token};
      ok := true;
    }

    method CheckLease(token: nat, fence: nat) returns (ok: bool)
      ensures ok <==> Accepts(Tables(), token, fence)
    {
      if lease.None? { return false; }
      ok := !(lease.value.token != token || lease.value.fence != fence);
    }

    method RenewLease(token: nat, fence: nat, ttl: int) returns (ok: bool)
      modifies this
      ensures Tables() == Renew(old(Tables()), token, fence, ttl)
      ensures ok <==> TtlOk(ttl) && Accepts(old(Tables()), token, fence)
    {
      if ttl < MIN_TTL || ttl > MAX_TTL { return false; }
      ok := CheckLease(token, fence);
      if ok { lease := Some(lease.value.(until := clock + ttl)); }
    }

    method ReleaseLease(token: nat) returns (ok: bool)
      modifies this
      ensures Tables() == Release(old(Tables()), token)
      ensures ok <==> old(lease).Some? && old(lease).value.token == token
    {
      if lease.None? || lease.value.token != token { return false; }
      lease := Some(lease.value.(until := clock));
      ok := true;
    }

    /** A write of the receiver, checked inside its transaction. */
    method IntakeFenced(token: nat, fence: nat) returns (ok: bool)
      modifies this
      ensures Tables() == Write(old(Tables()), token, fence)
      ensures ok <==> Accepts(old(Tables()), token, fence)
    {
      ok := CheckLease(token, fence);
      if ok { log := log + [fence]; }
    }
  }
}
