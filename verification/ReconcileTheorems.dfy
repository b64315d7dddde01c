module ReconcileTheorems {
  import opened Options
  import opened ReconcileModel
  import opened Arithmetic

  ghost predicate InHand(s: State, o: nat) {
    exists w :: 0 <= w < |s.workers| && s.workers[w] == Working(o)
  }

  ghost predicate InChannel(s: State, o: nat) {
    exists i :: 0 <= i < |s.results| && s.results[i].offset == o
  }

  /** No offset that was taken is lost, except after a cancellation. */
  ghost predicate Accounted(s: State) {
    s.cancelled || forall o :: 0 <= o < s.next ==> InHand(s, o) || InChannel(s, o) || (o < |s.completed| && s.completed[o])
  }

  ghost predicate InRange(s: State) {
    && |s.completed| == s.limit && s.next <= s.limit && s.contiguous <= s.limit
    && (forall w :: 0 <= w < |s.workers| && s.workers[w].Working? ==> s.workers[w].offset < s.next)
    && (forall i :: 0 <= i < |s.results| ==> s.results[i].offset < s.limit)
  }

  /** Results, marks and the cursor speak only of routes that were attempted. */
  ghost predicate Truthful(s: State) {
    && (forall i :: 0 <= i < |s.results| ==> s.results[i].offset in s.attempted)
    && (forall o :: 0 <= o < |s.completed| && s.completed[o] ==> o in s.attempted)
  }

  ghost predicate Prefixed(s: State) {
    && s.contiguous <= |s.completed|
    && (forall o :: 0 <= o < s.contiguous ==> s.completed[o])
    && (s.contiguous < |s.completed| ==> !s.completed[s.contiguous])
    && (s.saved.Some? ==> s.saved.value <= s.contiguous)
  }

  ghost predicate Left(s: State) {
    forall w :: 0 <= w < |s.workers| && s.workers[w].Gone? ==> s.cancelled || s.next == s.limit
  }

  ghost predicate Inv(s: State) {
    InRange(s) && Truthful(s) && Prefixed(s) && Accounted(s) && Left(s)
  }

  lemma TakeKeeps(s: State, w: nat)
    requires Inv(s)
    ensures Inv(Take(s, w))
  {
    var t := Take(s, w);
    if t != s && !t.cancelled {
      forall o | 0 <= o < t.next ensures InHand(t, o) || InChannel(t, o) || t.completed[o] {
        if o < s.next {
          assert InHand(s, o) || InChannel(s, o) || s.completed[o];
          if InHand(s, o) {
            var v :| 0 <= v < |s.workers| && s.workers[v] == Working(o);
            assert t.workers[v] == Working(o);
          }
          if InChannel(s, o) { var i :| 0 <= i < |s.results| && s.results[i].offset == o; assert t.results[i].offset == o; }
        } else {
          assert t.workers[w] == Working(o);
        }
      }
    }
  }

  lemma ReturnKeeps(s: State, w: nat, failed: bool)
    requires Inv(s)
    ensures Inv(Return(s, w, failed))
  {
    var t := Return(s, w, failed);
    if t != s && !t.cancelled {
      forall o | 0 <= o < t.next ensures InHand(t, o) || InChannel(t, o) || t.completed[o] {
        assert InHand(s, o) || InChannel(s, o) || s.completed[o];
        if InHand(s, o) {
          var v :| 0 <= v < |s.workers| && s.workers[v] == Working(o);
          if v == w { assert t.results[|s.results|].offset == o; } else { assert t.workers[v] == Working(o); }
        }
        if InChannel(s, o) { var i :| 0 <= i < |s.results| && s.results[i].offset == o; assert t.results[i].offset == o; }
      }
    }
  }

  lemma ReceiveKeeps(s: State, stored: bool)
    requires Inv(s)
    ensures Inv(Receive(s, stored))
  {
  }

  lemma StepKeeps(s: State, a: Action)
    requires Inv(s)
    ensures Inv(Step(s, a))
  {
    match a
    case OpTake(w) => TakeKeeps(s, w);
    case OpReturn(w, failed) => ReturnKeeps(s, w, failed);
    case OpReceive(stored) => ReceiveKeeps(s, stored);
    case OpCancel =>
  }

  lemma {:induction false} RunKeeps(s: State, actions: seq<Action>)
    requires Inv(s)
    ensures Inv(Run(s, actions)) && SameCycle(s, Run(s, actions))
    decreases |actions|
  {
    if actions != [] {
      StepKeeps(s, actions[0]);
      RunKeeps(Step(s, actions[0]), actions[1..]);
    }
  }

  ghost predicate SameCycle(s: State, t: State) {
    t.n == s.n && t.start == s.start && t.limit == s.limit && |t.workers| == |s.workers|
  }

  /** The stored cursor stands `passed` routes after the start of the cycle, and all of these
      were attempted. */
  ghost predicate HasPassed(s: State, passed: nat) {
    s.n > 0 && passed <= s.limit && Cursor(s) == (s.start + passed) % s.n && forall o: nat :: o < passed ==> o in s.attempted
  }

  ghost predicate HonestCursor(s: State) {
    exists passed: nat :: HasPassed(s, passed)
  }

  /** Under every interleaving of the workers, with failures, lost checkpoints and
      cancellation: all routes that the stored cursor has passed were attempted. */
  lemma CursorNeverPassesUnattempted(n: nat, start: nat, actions: seq<Action>)
    requires n > 0 && start < n
    ensures HonestCursor(Run(Begin(n, start), actions))
  {
    RunKeeps(Begin(n, start), actions);
    var s := Run(Begin(n, start), actions);
    var passed: nat := if s.saved.None? then 0 else s.saved.value;
    forall o: nat | o < passed ensures o in s.attempted { assert s.completed[o]; }
    if s.saved.None? { DivModUnique(start, n, 0, start); }
    assert HasPassed(s, passed);
  }

  ghost predicate AllStored(actions: seq<Action>) {
    forall i :: 0 <= i < |actions| && actions[i].OpReceive? ==> actions[i].stored
  }

  lemma {:induction false} StoredKeepsUp(s: State, actions: seq<Action>)
    requires Inv(s) && AllStored(actions) && (s.contiguous > 0 ==> s.saved == Some(s.contiguous))
    ensures Run(s, actions).contiguous > 0 ==> Run(s, actions).saved == Some(Run(s, actions).contiguous)
    decreases |actions|
  {
    if actions != [] {
      StepKeeps(s, actions[0]);
      StoredKeepsUp(Step(s, actions[0]), actions[1..]);
    }
  }

  ghost predicate CompleteCycle(s: State, n: nat, start: nat, actions: seq<Action>) {
    n > 0 && start < n && s == Run(Begin(n, start), actions) && Finished(s) && !s.cancelled && AllStored(actions)
  }

  /** A cycle that was not cancelled attempts every one of its routes, and moves the cursor by
      exactly their number. */
  lemma CompleteCycleAdvances(s: State, n: nat, start: nat, actions: seq<Action>)
    requires CompleteCycle(s, n, start, actions)
    ensures Cursor(s) == (start + Min(LIMIT, n)) % n && forall o: nat :: o < Min(LIMIT, n) ==> o in s.attempted
  {
    RunKeeps(Begin(n, start), actions);
    StoredKeepsUp(Begin(n, start), actions);
    assert |s.workers| == WORKERS && s.workers[0].Gone? && s.next == s.limit;
    forall o: nat | o < s.limit ensures s.completed[o] && o in s.attempted {
      assert InHand(s, o) || InChannel(s, o) || s.completed[o];
    }
    assert s.contiguous == s.limit;
  }

  // ---- Every cycle can end ----

  function Burden(w: Worker): nat {
    match w case Gone => 0 case Idle => 1 case Working(_) => 3
  }

  /** What is left to do; an offset that was not taken weighs as much as one in hand. */
  ghost function Work(s: State): nat
    requires |s.workers| == WORKERS && s.next <= s.limit
  {
    3 * (s.limit - s.next) + Burden(s.workers[0]) + Burden(s.workers[1]) + |s.results|
  }

  /** Whatever a worker or the loop does next brings the end of the cycle nearer. */
  lemma StepShrinksWork(s: State, a: Action)
    requires Inv(s) && |s.workers| == WORKERS && !a.OpCancel? && Step(s, a) != s
    ensures Step(s, a).next <= s.limit && |Step(s, a).workers| == WORKERS && Work(Step(s, a)) < Work(s)
  {
  }

  /** Before the end one of them can always act, without failure. */
  lemma NotStuck(s: State) returns (a: Action)
    requires Inv(s) && |s.workers| == WORKERS && !Finished(s)
    ensures !a.OpCancel? && (a.OpReceive? ==> a.stored) && Step(s, a) != s
  {
    if s.results != [] {
      a := OpReceive(true);
      assert |Receive(s, true).results| < |s.results|;
    } else {
      var w: nat :| w < WORKERS && !s.workers[w].Gone?;
      a := if s.workers[w].Idle? then OpTake(w) else OpReturn(w, false);
      assert Step(s, a).workers[w] != s.workers[w];
    }
  }

  lemma {:induction false} CanFinish(s: State) returns (rest: seq<Action>)
    requires Inv(s) && |s.workers| == WORKERS && !s.cancelled
    ensures Finished(Run(s, rest)) && !Run(s, rest).cancelled && AllStored(rest)
    decreases Work(s)
  {
    rest := [];
    if !Finished(s) {
      var a := NotStuck(s);
      StepKeeps(s, a);
      StepShrinksWork(s, a);
      var more := CanFinish(Step(s, a));
      rest := [a] + more;
      assert rest[1..] == more;
    }
  }

  lemma {:induction false} RunConcat(s: State, a: seq<Action>, b: seq<Action>)
    ensures Run(s, a + b) == Run(Run(s, a), b)
    decreases |a|
  {
    if a == [] {
      assert a + b == b;
    } else {
      assert (a + b)[0] == a[0] && (a + b)[1..] == a[1..] + b;
      RunConcat(Step(s, a[0]), a[1..], b);
    }
  }

  /** From every point of a cycle that was not cancelled there is a way to its end. */
  lemma CycleCanFinish(n: nat, start: nat, before: seq<Action>) returns (rest: seq<Action>)
    requires n > 0 && start < n && AllStored(before) && !Run(Begin(n, start), before).cancelled
    ensures CompleteCycle(Run(Begin(n, start), before + rest), n, start, before + rest)
  {
    RunKeeps(Begin(n, start), before);
    rest := CanFinish(Run(Begin(n, start), before));
    RunConcat(Begin(n, start), before, rest);
  }

  // ---- Cycle after cycle ----

  /** Each cycle starts where the one before left the cursor. */
  ghost predicate Chain(cycles: seq<State>, plans: seq<seq<Action>>, n: nat, start: nat)
    decreases |cycles|
  {
    |plans| == |cycles| && (cycles == [] ||
      (CompleteCycle(cycles[0], n, start, plans[0]) && Chain(cycles[1..], plans[1..], n, Cursor(cycles[0]))))
  }

  lemma {:induction false} ChainStarts(cycles: seq<State>, plans: seq<seq<Action>>, n: nat, start: nat, j: nat)
    requires n > 0 && start < n && Chain(cycles, plans, n, start) && j < |cycles|
    ensures CompleteCycle(cycles[j], n, (start + j * Min(LIMIT, n)) % n, plans[j])
    decreases |cycles|
  {
    if j == 0 {
      DivModUnique(start, n, 0, start);
    } else {
      CompleteCycleAdvances(cycles[0], n, start, plans[0]);
      ChainStarts(cycles[1..], plans[1..], n, Cursor(cycles[0]), j - 1);
      NextStart(start, Min(LIMIT, n), j, n);
    }
  }

  /** There are chains of any length from any start. */
  lemma {:induction false} ChainsExist(n: nat, start: nat, k: nat) returns (cycles: seq<State>, plans: seq<seq<Action>>)
    requires n > 0 && start < n
    ensures |cycles| == k && Chain(cycles, plans, n, start)
    decreases k
  {
    cycles, plans := [], [];
    if k > 0 {
      var plan := CycleCanFinish(n, start, []);
      assert [] + plan == plan;
      var s := Run(Begin(n, start), plan);
      CompleteCycleAdvances(s, n, start, plan);
      var later, laterPlans := ChainsExist(n, Cursor(s), k - 1);
      cycles, plans := [s] + later, [plan] + laterPlans;
      assert cycles[1..] == later && plans[1..] == laterPlans;
    }
  }

  ghost predicate Visits(s: State, n: nat, route: nat) {
    n > 0 && exists o: nat :: o in s.attempted && (s.start + o) % n == route
  }

  /** No route waits longer than the number of routes divided by the cycle's share, rounded
      up, wherever the cursor stood. */
  lemma EveryRouteVisited(cycles: seq<State>, plans: seq<seq<Action>>, n: nat, start: nat, route: nat)
    requires n > 0 && start < n && route < n && Chain(cycles, plans, n, start) && |cycles| == CeilDiv(n, Min(LIMIT, n))
    ensures exists j :: 0 <= j < |cycles| && Visits(cycles[j], n, route)
  {
    var limit := Min(LIMIT, n);
    var distance: nat := if route >= start then route - start else route + n - start;
    var j, o := Divide(distance, n, limit);
    ChainStarts(cycles, plans, n, start, j);
    CycleVisits(cycles[j], n, (start + j * limit) % n, plans[j], o);
    Lands(start, j * limit, o, distance, route, n);
    assert Visits(cycles[j], n, route);
  }

  lemma CycleVisits(s: State, n: nat, begin: nat, plan: seq<Action>, o: nat)
    requires CompleteCycle(s, n, begin, plan) && o < Min(LIMIT, n)
    ensures Visits(s, n, (begin + o) % n)
  {
    CompleteCycleAdvances(s, n, begin, plan);
    RunKeeps(Begin(n, begin), plan);
    assert s.start == begin && o in s.attempted;
  }

  lemma Lands(start: nat, skipped: nat, o: nat, distance: nat, route: nat, n: nat)
    requires route < n && distance == skipped + o && (start + distance == route || start + distance == route + n)
    ensures ((start + skipped) % n + o) % n == route
  {
  }
}
