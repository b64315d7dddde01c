/** The lease by which one receiver at a time may write to a channel (internal/core/channel.go,
    internal/channel/collect.go). Times are milliseconds; each transaction happens some time
    after the one before. */
module LeaseModel {
  import opened Options

  datatype Lease = Lease(holder: nat, token: nat, fence: nat, until: int)

  /** `issued` are the tokens handed out so far, `log` the fences of the accepted writes. */
  datatype State = State(lease: Option<Lease>, clock: int, issued: set<nat>, log: seq<nat>)

  ghost predicate Initial(s: State) {
    s.lease.None? && s.issued == {} && s.log == []
  }

  const MIN_TTL: int := 1000
  const MAX_TTL: int := 24 * 3600 * 1000

  predicate TtlOk(ttl: int) {
    MIN_TTL <= ttl <= MAX_TTL
  }

  predicate Held(s: State) {
    s.lease.Some? && s.lease.value.until > s.clock
  }

  predicate MayAcquire(s: State, holder: nat, ttl: int) {
    holder != 0 && TtlOk(ttl) && !(Held(s) && s.lease.value.holder != holder)
  }

  /** `token` is a new identifier; holder 0 is the empty name. */
  function Acquire(s: State, holder: nat, ttl: int, token: nat): State {
    if !MayAcquire(s, holder, ttl) || token in s.issued then s
    else
      var fence := if s.lease.None? then 1 else s.lease.value.fence + 1;
      s.(lease := Some(Lease(holder, token, fence, s.clock + ttl)), issued := s.issued + {token})
  }

  /** CheckLease: the token and the fence must be the current ones; the time is not asked. */
  predicate Accepts(s: State, token: nat, fence: nat) {
    s.lease.Some? && s.lease.value.token == token && s.lease.value.fence == fence
  }

  function Renew(s: State, token: nat, fence: nat, ttl: int): State {
    if !TtlOk(ttl) || !Accepts(s, token, fence) then s
    else s.(lease := Some(s.lease.value.(until := s.clock + ttl)))
  }

  function Release(s: State, token: nat): State {
    if s.lease.None? || s.lease.value.token != token then s
    else s.(lease := Some(s.lease.value.(until := s.clock)))
  }

  function Write(s: State, token: nat, fence: nat): State {
    if Accepts(s, token, fence) then s.(log := s.log + [fence]) else s
  }

  datatype Op =
    | OpAcquire(holder: nat, ttl: int, token: nat)
    | OpRenew(token: nat, fence: nat, ttl: int)
    | OpRelease(token: nat)
    | OpWrite(token: nat, fence: nat)

  datatype Event = Event(wait: nat, op: Op)

  function Wait(s: State, wait: nat): State {
    s.(clock := s.clock + wait)
  }

  function Apply(s: State, op: Op): State {
    match op
    case OpAcquire(holder, ttl, token) => Acquire(s, holder, ttl, token)
    case OpRenew(token, fence, ttl) => Renew(s, token, fence, ttl)
    case OpRelease(token) => Release(s, token)
    case OpWrite(token, fence) => Write(s, token, fence)
  }

  function Step(s: State, e: Event): State {
    Apply(Wait(s, e.wait), e.op)
  }

  function Run(s: State, events: seq<Event>): State
    decreases |events|
  {
    if events == [] then s else Run(Step(s, events[0]), events[1..])
  }
}
