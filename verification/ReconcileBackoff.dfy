/** How a failing route is left alone for a while: times are seconds. */
module ReconcileBackoff {
  import opened Options
  import opened Arithmetic
  import opened ReconcileModel

  /** `next` is when the route may be visited again. */
  datatype Backoff = Backoff(failures: nat, next: int)

  datatype Outcome = Done | Failed | Stopped

  datatype Visit = Visit(at: int, outcome: Outcome)

  function Delay(failures: nat): nat {
    Min(300, 5 * Pow2(Min(failures, 6)))
  }

  predicate Deferred(b: Option<Backoff>, at: int) {
    b.Some? && b.value.next > at
  }

  function Failures(b: Option<Backoff>): nat {
    if b.None? then 0 else b.value.failures
  }

  /** A service that stops is no failure of the route. */
  function After(b: Option<Backoff>, v: Visit): Option<Backoff> {
    if Deferred(b, v.at) then b
    else
      match v.outcome
      case Done => None
      case Stopped => b
      case Failed => Some(Backoff(Failures(b) + 1, v.at + Delay(Failures(b))))
  }

  /** The times at which the provider was called. */
  function Calls(b: Option<Backoff>, visits: seq<Visit>): seq<int>
    decreases |visits|
  {
    if visits == [] then []
    else (if Deferred(b, visits[0].at) then [] else [visits[0].at]) + Calls(After(b, visits[0]), visits[1..])
  }

  /** Seconds of rest after so many failures in a row. */
  function Rest(failures: nat): nat {
    if failures == 0 then 5 else if failures == 1 then 10 else if failures == 2 then 20 else if failures == 3 then 40
    else if failures == 4 then 80 else if failures == 5 then 160 else 300
  }

  lemma RestIsDelay(failures: nat)
    ensures Delay(failures) == Rest(failures)
  {
    assert Pow2(1) == 2 && Pow2(2) == 4 && Pow2(3) == 8 && Pow2(4) == 16 && Pow2(5) == 32 && Pow2(6) == 64;
  }

  /** A route that rests is not called and keeps its rest. Any other is called: success ends the
      backoff, a stop of the service leaves it, and a failure prolongs it. */
  lemma VisitOutcome(b: Option<Backoff>, v: Visit)
    ensures var rests, failures := b.Some? && v.at < b.value.next, if b.Some? then b.value.failures else 0;
            && Calls(b, [v]) == (if rests then [] else [v.at])
            && After(b, v) == (if rests || v.outcome == Stopped then b
                               else if v.outcome == Done then None else Some(Backoff(failures + 1, v.at + Rest(failures))))
  {
    RestIsDelay(Failures(b));
    assert [v][1..] == [] && Calls(After(b, v), []) == [];
  }

  predicate InOrder(visits: seq<Visit>) {
    forall i, j :: 0 <= i < j < |visits| ==> visits[i].at <= visits[j].at
  }

  predicate AllFail(visits: seq<Visit>) {
    forall i :: 0 <= i < |visits| ==> visits[i].outcome.Failed?
  }

  lemma {:induction false} CallsSpread(b: Option<Backoff>, visits: seq<Visit>)
    requires InOrder(visits) && AllFail(visits)
    ensures var calls := Calls(b, visits);
            && (forall i :: 0 <= i < |calls| - 1 ==> calls[i + 1] - calls[i] >= Delay(Failures(b) + i))
            && (|calls| > 0 && b.Some? ==> calls[0] >= b.value.next)
    decreases |visits|
  {
    if visits != [] {
      var rest := Calls(After(b, visits[0]), visits[1..]);
      CallsSpread(After(b, visits[0]), visits[1..]);
      if !Deferred(b, visits[0].at) {
        var calls := Calls(b, visits);
        forall i | 0 <= i < |calls| - 1 ensures calls[i + 1] - calls[i] >= Delay(Failures(b) + i) {
          if i > 0 { assert calls[i + 1] - calls[i] == rest[i] - rest[i - 1]; }
        }
      }
    }
  }

  lemma {:induction false} DelayGrows(m: nat, n: nat)
    requires m <= n
    ensures 5 <= Delay(m) <= Delay(n) <= 300 && (n >= 6 ==> Delay(n) == 300)
    decreases n - m
  {
    assert Pow2(1) == 2 && Pow2(2) == 4 && Pow2(3) == 8 && Pow2(4) == 16 && Pow2(5) == 32 && Pow2(6) == 64;
    if m < n { DelayGrows(m, n - 1); }
  }

  /** However often a failing route comes up: the calls to its provider spread out, and from
      the seventh on they are five minutes apart. */
  lemma FailingRouteIsLeftAlone(visits: seq<Visit>, i: nat)
    requires InOrder(visits) && AllFail(visits) && i + 1 < |Calls(None, visits)|
    ensures var calls := Calls(None, visits);
            calls[i + 1] - calls[i] >= Delay(i) >= 5 && (i >= 6 ==> calls[i + 1] - calls[i] >= 300)
  {
    CallsSpread(None, visits);
    DelayGrows(i, i);
  }
}
