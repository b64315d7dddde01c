module LeaseTheorems {
  import opened Options
  import opened LeaseModel

  // ---- Fences ----

  ghost predicate Acquires(s: State, e: Event) {
    e.op.OpAcquire? && Step(s, e) != Wait(s, e.wait)
  }

  /** What the successful acquisitions of a run handed out, in order. */
  ghost function Grants(s: State, events: seq<Event>): seq<Lease>
    decreases |events|
  {
    if events == [] then []
    else (if Acquires(s, events[0]) then [Step(s, events[0]).lease.value] else []) + Grants(Step(s, events[0]), events[1..])
  }

  ghost predicate Consecutive(grants: seq<Lease>, first: nat) {
    forall i :: 0 <= i < |grants| ==> grants[i].fence == first + i
  }

  function NextFence(s: State): nat {
    if s.lease.None? then 1 else s.lease.value.fence + 1
  }

  lemma {:induction false} FencesCountUp(s: State, events: seq<Event>)
    ensures Consecutive(Grants(s, events), NextFence(s))
    ensures NextFence(Run(s, events)) == NextFence(s) + |Grants(s, events)|
    decreases |events|
  {
    if events != [] { FencesCountUp(Step(s, events[0]), events[1..]); }
  }

  /** Every acquisition gets the next fence, whoever acquires and whatever expired before. */
  lemma FencesStrictlyIncrease(s: State, events: seq<Event>)
    requires Initial(s)
    ensures forall i :: 0 <= i < |Grants(s, events)| ==> Grants(s, events)[i].fence == i + 1
  {
    FencesCountUp(s, events);
  }

  ghost predicate LogFits(s: State) {
    && (forall i, j :: 0 <= i < j < |s.log| ==> s.log[i] <= s.log[j])
    && (forall i :: 0 <= i < |s.log| ==> s.lease.Some? && s.log[i] <= s.lease.value.fence)
  }

  lemma {:induction false} LogKept(s: State, events: seq<Event>)
    requires LogFits(s)
    ensures LogFits(Run(s, events))
    decreases |events|
  {
    if events != [] { LogKept(Step(s, events[0]), events[1..]); }
  }

  /** The writes that were accepted carry fences in order: no late write of an earlier
      receiver lands between those of a later one. */
  lemma AcceptedFencesInOrder(s: State, events: seq<Event>, i: nat, j: nat)
    requires Initial(s) && i < j < |Run(s, events).log|
    ensures Run(s, events).log[i] <= Run(s, events).log[j]
  {
    LogKept(s, events);
  }

  // ---- Who may write ----

  lemma {:induction false} LatestGrantHolds(s: State, events: seq<Event>)
    ensures var t, grants := Run(s, events), Grants(s, events);
            if grants == [] then (t.lease.Some? <==> s.lease.Some?) && (t.lease.Some? ==> SameGrant(t.lease.value, s.lease.value))
            else t.lease.Some? && SameGrant(t.lease.value, grants[|grants| - 1])
    decreases |events|
  {
    if events != [] { LatestGrantHolds(Step(s, events[0]), events[1..]); }
  }

  ghost predicate SameGrant(a: Lease, b: Lease) {
    a.holder == b.holder && a.token == b.token && a.fence == b.fence
  }

  /** A write is accepted exactly under the latest grant, expired or released though it may
      be: the time plays no part. */
  lemma AcceptedExactlyUnderLatestGrant(s: State, events: seq<Event>, token: nat, fence: nat)
    requires Initial(s)
    ensures var grants := Grants(s, events);
            Accepts(Run(s, events), token, fence) <==>
            grants != [] && grants[|grants| - 1].token == token && grants[|grants| - 1].fence == fence
  {
    LatestGrantHolds(s, events);
  }

  ghost predicate TokenGone(s: State, token: nat) {
    token in s.issued && (s.lease.Some? ==> s.lease.value.token != token)
  }

  lemma {:induction false} GoneForEver(s: State, events: seq<Event>, token: nat)
    requires TokenGone(s, token)
    ensures TokenGone(Run(s, events), token)
    decreases |events|
  {
    if events != [] { GoneForEver(Step(s, events[0]), events[1..], token); }
  }

  ghost predicate TokenIssued(s: State) {
    s.lease.Some? ==> s.lease.value.token in s.issued
  }

  lemma {:induction false} IssuedKept(s: State, events: seq<Event>)
    requires TokenIssued(s)
    ensures TokenIssued(Run(s, events))
    decreases |events|
  {
    if events != [] { IssuedKept(Step(s, events[0]), events[1..]); }
  }

  /** Once another grant was made, the token before it is never accepted again. */
  lemma SupersededForEver(s: State, before: seq<Event>, e: Event, later: seq<Event>, fence: nat)
    requires Initial(s) && Run(s, before).lease.Some? && Acquires(Run(s, before), e)
    ensures !Accepts(Run(Step(Run(s, before), e), later), Run(s, before).lease.value.token, fence)
  {
    IssuedKept(s, before);
    GoneForEver(Step(Run(s, before), e), later, Run(s, before).lease.value.token);
  }

  // ---- Who may take over ----

  function Elapsed(events: seq<Event>): nat {
    if events == [] then 0 else events[0].wait + Elapsed(events[1..])
  }

  /** The holder starts again or renews. */
  predicate Extends(op: Op, l: Lease) {
    match op
    case OpAcquire(holder, _, _) => holder == l.holder
    case OpRenew(token, _, _) => token == l.token
    case _ => false
  }

  /** At some point of the run somebody with a name, a proper time and a new token tried to
      come in when the time of the lease had run out, by itself or because it was released. */
  predicate LetsIn(l: Lease, issued: set<nat>, clock: int, events: seq<Event>)
    decreases |events|
  {
    events != [] &&
    var now, op := clock + events[0].wait, events[0].op;
    || (op.OpAcquire? && op.holder != 0 && TtlOk(op.ttl) && op.token !in issued && l.until <= now)
    || LetsIn(if op == OpRelease(l.token) then l.(until := now) else l, issued, now, events[1..])
  }

  /** As long as its holder does not extend it, a lease is followed by another grant exactly in
      those runs. */
  lemma {:induction false} TakenOverExactlyAfterExpiry(s: State, events: seq<Event>)
    requires s.lease.Some? && forall i :: 0 <= i < |events| ==> !Extends(events[i].op, s.lease.value)
    ensures Grants(s, events) != [] <==> LetsIn(s.lease.value, s.issued, s.clock, events)
    decreases |events|
  {
    if events != [] && !Acquires(s, events[0]) {
      assert !Extends(events[0].op, s.lease.value);
      var t := Step(s, events[0]);
      forall i | 0 <= i < |events[1..]| ensures !Extends(events[1..][i].op, t.lease.value) { assert !Extends(events[i + 1].op, s.lease.value); }
      TakenOverExactlyAfterExpiry(t, events[1..]);
    } else if events != [] {
      assert !Extends(events[0].op, s.lease.value);
    }
  }

  /** The holder keeps the channel until its time runs out, whatever the others try, as long as
      it does not itself start again, renew (a renewal may also shorten) or let go. */
  lemma {:induction false} HolderKeepsChannel(s: State, events: seq<Event>)
    requires s.lease.Some? && s.clock + Elapsed(events) < s.lease.value.until
    requires forall i :: 0 <= i < |events| ==> !Extends(events[i].op, s.lease.value) && events[i].op != OpRelease(s.lease.value.token)
    ensures Run(s, events).lease == s.lease
    decreases |events|
  {
    if events != [] {
      assert !Extends(events[0].op, s.lease.value);
      HolderKeepsChannel(Step(s, events[0]), events[1..]);
    }
  }

  // ---- What a grant and a renewal give ----

  /** A second to a day, in milliseconds. */
  predicate Allowed(ttl: int) {
    1000 <= ttl <= 24 * 60 * 60 * 1000
  }

  /** The channel is free, or its time has run out, or it is the caller's own. */
  predicate Open(s: State, holder: nat) {
    s.lease.None? || s.lease.value.until <= s.clock || s.lease.value.holder == holder
  }

  /** A named holder that asks for an allowed time gets an open channel, and keeps it for that
      time whatever the others try; any other request changes nothing. */
  lemma GrantLasts(s: State, holder: nat, ttl: int, token: nat, events: seq<Event>)
    requires token !in s.issued && Elapsed(events) < ttl
    requires forall i :: 0 <= i < |events| ==> events[i].op != OpRelease(token) && match events[i].op
                                               case OpAcquire(other, _, _) => other != holder
                                               case OpRenew(other, _, _) => other != token
                                               case _ => true
    ensures if holder != 0 && Allowed(ttl) && Open(s, holder)
            then Run(Acquire(s, holder, ttl, token), events).lease == Some(Lease(holder, token, NextFence(s), s.clock + ttl))
            else Acquire(s, holder, ttl, token) == s
  {
    var t := Acquire(s, holder, ttl, token);
    if holder != 0 && Allowed(ttl) && Open(s, holder) {
      var l := Lease(holder, token, NextFence(s), s.clock + ttl);
      assert t.lease == Some(l) && t.clock == s.clock;
      HolderKeepsChannel(t, events);
    }
  }

  /** A renewal under the current grant gives the asked time anew, counted from now, and leaves
      the grant as it was; any other renewal changes nothing. */
  lemma RenewalLasts(s: State, token: nat, fence: nat, ttl: int, events: seq<Event>)
    requires s.lease.Some? && Elapsed(events) < ttl
    requires forall i :: 0 <= i < |events| ==> !Extends(events[i].op, s.lease.value) && events[i].op != OpRelease(s.lease.value.token)
    ensures if Allowed(ttl) && s.lease.value.token == token && s.lease.value.fence == fence
            then Run(Renew(s, token, fence, ttl), events).lease == Some(Lease(s.lease.value.holder, token, fence, s.clock + ttl))
            else Renew(s, token, fence, ttl) == s
  {
    if Allowed(ttl) && s.lease.value.token == token && s.lease.value.fence == fence {
      var t := Renew(s, token, fence, ttl);
      assert t.lease == Some(Lease(s.lease.value.holder, token, fence, s.clock + ttl));
      HolderKeepsChannel(t, events);
    }
  }

  /** The fences of those writes of a run that came under the grant of their time. */
  ghost function Accepted(s: State, events: seq<Event>): seq<nat>
    decreases |events|
  {
    if events == [] then []
    else
      (match events[0].op
       case OpWrite(token, fence) =>
         if s.lease.Some? && s.lease.value.token == token && s.lease.value.fence == fence then [fence] else []
       case _ => []) + Accepted(Step(s, events[0]), events[1..])
  }

  /** No write under the current grant is lost, and no other one lands. */
  lemma {:induction false} WritesLandExactlyUnderTheGrant(s: State, events: seq<Event>)
    ensures Run(s, events).log == s.log + Accepted(s, events)
    decreases |events|
  {
    if events != [] { WritesLandExactlyUnderTheGrant(Step(s, events[0]), events[1..]); }
  }
}
