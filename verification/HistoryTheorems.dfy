module HistoryTheorems {
  import opened Options
  import opened HistoryModel
  import opened Arithmetic

  ghost predicate Sound(i: Import) {
    && i.events == i.applied + i.duplicates
    && i.failures <= 5
    && (i.failures == 5 ==> i.status.Failed? || i.status.Cancelled?)
    && (i.token.Some? ==> i.status.Running?)
    && i.end - i.start <= MAX_RANGE && i.start < i.end
  }

  ghost predicate OneWorker(s: State) {
    forall i, j :: BusyIn(s, i) && BusyIn(s, j) && s.imports[i].source == s.imports[j].source ==> i == j
  }

  ghost predicate BusyIn(s: State, i: nat) {
    i in s.imports && Busy(s, s.imports[i])
  }

  ghost predicate Holds(s: State, i: nat, token: nat) {
    i in s.imports && s.imports[i].token == Some(token)
  }

  ghost predicate TokensFit(s: State) {
    && (forall i, t :: Holds(s, i, t) ==> t in s.issued)
    && (forall i, j, t :: Holds(s, i, t) && Holds(s, j, t) ==> i == j)
  }

  ghost predicate Inv(s: State) {
    (forall i :: i in s.imports ==> Sound(s.imports[i])) && OneWorker(s) && TokensFit(s)
  }

  lemma {:induction false} CountsAddUp(known: seq<bool>)
    ensures Count(known, true) + Count(known, false) == |known|
  {
    if known != [] { CountsAddUp(known[1..]); }
  }

  lemma CommitIsSound(i: Import, p: Page, clock: int)
    requires Sound(i) && i.status.Running?
    ensures Sound(Commit(i, p).(next := clock))
  {
    CountsAddUp(p.known);
  }

  lemma WaitKeeps(s: State, wait: nat)
    requires Inv(s)
    ensures Inv(Wait(s, wait))
  {
    var t := Wait(s, wait);
    forall i, j | BusyIn(t, i) && BusyIn(t, j) && t.imports[i].source == t.imports[j].source ensures i == j {
      assert BusyIn(s, i) && BusyIn(s, j);
    }
    forall i, k | Holds(t, i, k) ensures k in t.issued { assert Holds(s, i, k); }
    forall i, j, k | Holds(t, i, k) && Holds(t, j, k) ensures i == j { assert Holds(s, i, k) && Holds(s, j, k); }
  }

  /** The row of one import changes, and it keeps no claim that it did not have. */
  lemma RowKeeps(s: State, t: State, id: nat)
    requires Inv(s) && id in t.imports && t.clock == s.clock && s.issued <= t.issued
    requires forall i :: i in t.imports && i != id ==> i in s.imports && t.imports[i] == s.imports[i]
    requires Sound(t.imports[id]) && !t.imports[id].status.Running?
    ensures Inv(t)
  {
    forall i, j | BusyIn(t, i) && BusyIn(t, j) && t.imports[i].source == t.imports[j].source ensures i == j {
      assert BusyIn(s, i) && BusyIn(s, j);
    }
    forall i, k | Holds(t, i, k) ensures k in t.issued { assert Holds(s, i, k); }
    forall i, j, k | Holds(t, i, k) && Holds(t, j, k) ensures i == j { assert Holds(s, i, k) && Holds(s, j, k); }
  }

  lemma ClaimKeeps(s: State, source: nat, pick: nat, token: nat)
    requires Inv(s)
    ensures Inv(Claim(s, source, pick, token))
  {
    var t := Claim(s, source, pick, token);
    if t != s {
      forall i, j | BusyIn(t, i) && BusyIn(t, j) && t.imports[i].source == t.imports[j].source ensures i == j {
        assert i != pick ==> BusyIn(s, i) && s.imports[i].source != source;
        assert j != pick ==> BusyIn(s, j) && s.imports[j].source != source;
      }
      forall i, k | Holds(t, i, k) ensures k in t.issued { assert i != pick ==> Holds(s, i, k); }
      forall i, j, k | Holds(t, i, k) && Holds(t, j, k) ensures i == j {
        assert i != pick ==> Holds(s, i, k);
        assert j != pick ==> Holds(s, j, k);
      }
    }
  }

  lemma ApplyKeeps(s: State, op: Op)
    requires Inv(s)
    ensures Inv(Apply(s, op))
  {
    var t := Apply(s, op);
    if t != s {
      match op
      case OpClaim(source, id, token) => ClaimKeeps(s, source, id, token);
      case OpFinish(id, token, admitted, p) => CommitIsSound(s.imports[id], p, s.clock); RowKeeps(s, t, id);
      case OpCreate(id, _, _, _, _) => RowKeeps(s, t, id);
      case OpCancel(id) => RowKeeps(s, t, id);
      case OpRetry(id, _) => RowKeeps(s, t, id);
      case OpFail(id, _, _, _) => RowKeeps(s, t, id);
    }
  }

  lemma StepKeeps(s: State, e: Event)
    requires Inv(s)
    ensures Inv(Step(s, e))
  {
    WaitKeeps(s, e.wait);
    ApplyKeeps(Wait(s, e.wait), e.op);
  }

  lemma {:induction false} RunKeeps(s: State, events: seq<Event>)
    requires Inv(s)
    ensures Inv(Run(s, events))
    decreases |events|
  {
    if events != [] {
      StepKeeps(s, events[0]);
      RunKeeps(Step(s, events[0]), events[1..]);
    }
  }

  /** In every reachable state a source has at most one claim that has not expired. */
  lemma OneStepAtATime(s: State, events: seq<Event>, i: nat, j: nat)
    requires Initial(s)
    requires var t := Run(s, events); BusyIn(t, i) && BusyIn(t, j) && t.imports[i].source == t.imports[j].source
    ensures i == j
  {
    RunKeeps(s, events);
  }

  /** Every import has accounted for all its events, and gave up at the fifth failure in a row. */
  lemma EventsAccounted(s: State, events: seq<Event>, i: nat)
    requires Initial(s) && i in Run(s, events).imports
    ensures var h := Run(s, events).imports[i];
            && h.events == h.applied + h.duplicates && h.failures <= 5
            && (h.failures == 5 ==> !h.status.Queued? && !h.status.Running? && !h.status.Completed?)
  {
    RunKeeps(s, events);
    assert Sound(Run(s, events).imports[i]);
  }

  // ---- A token is good for one step ----

  /** The step is committed or recorded as failed under this token. */
  ghost predicate Uses(s: State, op: Op, token: nat) {
    && ((op.OpFinish? && Acceptable(op.page)) || op.OpFail?) && op.token == token
    && ClaimHolds(s, op.id, token, op.admitted)
  }

  ghost function UseCount(s: State, events: seq<Event>, token: nat): nat
    decreases |events|
  {
    if events == [] then 0
    else (if Uses(Wait(s, events[0].wait), events[0].op, token) then 1 else 0) + UseCount(Step(s, events[0]), events[1..], token)
  }

  /** The token may still be used: it is held, or was never issued. */
  ghost predicate Usable(s: State, token: nat) {
    token !in s.issued || exists i :: Holds(s, i, token)
  }

  lemma StepSpends(s: State, e: Event, token: nat)
    requires Inv(s)
    ensures Usable(Step(s, e), token) ==> Usable(s, token)
    ensures Uses(Wait(s, e.wait), e.op, token) ==> Usable(s, token) && !Usable(Step(s, e), token)
  {
    var w, t := Wait(s, e.wait), Step(s, e);
    WaitKeeps(s, e.wait);
    forall i ensures Holds(t, i, token) ==> Holds(s, i, token) || token !in s.issued { }
    if Uses(w, e.op, token) {
      assert Holds(w, e.op.id, token) && Holds(s, e.op.id, token);
      forall i ensures !Holds(t, i, token) { assert Holds(w, i, token) ==> i == e.op.id; }
    }
  }

  lemma {:induction false} NoSecondUse(s: State, events: seq<Event>, token: nat)
    requires Inv(s)
    ensures UseCount(s, events, token) <= if Usable(s, token) then 1 else 0
    decreases |events|
  {
    if events != [] {
      StepSpends(s, events[0], token);
      StepKeeps(s, events[0]);
      NoSecondUse(Step(s, events[0]), events[1..], token);
    }
  }

  /** Each claim ends at most once, so no page is committed twice under one claim. */
  lemma TokenUsedAtMostOnce(s: State, events: seq<Event>, token: nat)
    requires Initial(s)
    ensures UseCount(s, events, token) <= 1
  {
    NoSecondUse(s, events, token);
  }

  ghost predicate LiveIn(s: State, i: nat, token: nat) {
    Holds(s, i, token) && s.imports[i].until > s.clock
  }

  /** The token was handed out, and its claim has expired, ended or been taken over. */
  ghost predicate IsSpent(s: State, token: nat) {
    token in s.issued && forall i :: !LiveIn(s, i, token)
  }

  lemma StepStaysSpent(s: State, e: Event, token: nat)
    requires IsSpent(s, token)
    ensures IsSpent(Step(s, e), token) && !Uses(Wait(s, e.wait), e.op, token)
    ensures (e.op.OpFinish? || e.op.OpFail?) && e.op.token == token ==> Step(s, e) == Wait(s, e.wait)
  {
    var w, t := Wait(s, e.wait), Step(s, e);
    forall i ensures !LiveIn(w, i, token) && !LiveIn(t, i, token) { assert !LiveIn(s, i, token); }
    assert !LiveIn(w, e.op.id, token);
  }

  /** A worker whose claim has expired or was taken over never commits and never records a
      failure, whatever happens later. */
  lemma {:induction false} StaleWorkerNeverCommits(s: State, events: seq<Event>, token: nat)
    requires IsSpent(s, token)
    ensures UseCount(s, events, token) == 0
    decreases |events|
  {
    if events != [] {
      StepStaysSpent(s, events[0], token);
      StaleWorkerNeverCommits(Step(s, events[0]), events[1..], token);
    }
  }

  // ---- What a finished step leaves ----

  lemma {:induction false} CompletedIsFinal(s: State, events: seq<Event>, i: nat)
    requires i in s.imports && s.imports[i].status.Completed?
    ensures i in Run(s, events).imports && Run(s, events).imports[i] == s.imports[i]
    decreases |events|
  {
    if events != [] { CompletedIsFinal(Step(s, events[0]), events[1..], i); }
  }

  /** A committed step goes on only from a new place: the import is queued again exactly when
      the page is not the last one and brings a cursor that differs from the one before. */
  lemma QueuedExactlyWithNewCursor(s: State, id: nat, token: nat, p: Page)
    requires ClaimHolds(s, id, token, true) && Acceptable(p)
    ensures var h := Finish(s, id, token, true, p).imports[id];
            && (h.status.Queued? <==> !p.complete && h.cursor != s.imports[id].cursor)
            && (h.status.Completed? <==> p.complete)
            && (h.status.Failed? <==> !p.complete && h.cursor == s.imports[id].cursor)
            && h.events == s.imports[id].events + |p.known|
  {
  }

  ghost predicate CommitsPage(s: State, op: Op, id: nat) {
    op.OpFinish? && op.id == id && ClaimHolds(s, id, op.token, op.admitted) && Acceptable(op.page)
  }

  /** The places from which the import goes on, one for each committed step that queued it again. */
  ghost function Trail(s: State, events: seq<Event>, id: nat): seq<nat>
    decreases |events|
  {
    if events == [] then []
    else
      var w, t := Wait(s, events[0].wait), Step(s, events[0]);
      (if CommitsPage(w, events[0].op, id) && t.imports[id].status.Queued? then [t.imports[id].cursor] else []) + Trail(t, events[1..], id)
  }

  lemma {:induction false} NoTrailAfterTheEnd(s: State, events: seq<Event>, id: nat)
    requires id in s.imports && s.imports[id].status.Completed?
    ensures Trail(s, events, id) == []
    decreases |events|
  {
    if events != [] { NoTrailAfterTheEnd(Step(s, events[0]), events[1..], id); }
  }

  /** An import does not turn on the spot: unless it is retried by hand, each committed step
      that leaves it queued goes on from another place than the step before. */
  lemma {:induction false} CursorMovesOn(s: State, events: seq<Event>, id: nat)
    requires id in s.imports && forall i :: 0 <= i < |events| ==> !(events[i].op.OpRetry? && events[i].op.id == id)
    ensures var trail := Trail(s, events, id);
            && (trail != [] ==> trail[0] != s.imports[id].cursor)
            && forall i :: 0 < i < |trail| ==> trail[i] != trail[i - 1]
    decreases |events|
  {
    if events != [] {
      var w, t, op := Wait(s, events[0].wait), Step(s, events[0]), events[0].op;
      assert !(op.OpRetry? && op.id == id);
      CursorMovesOn(t, events[1..], id);
      if CommitsPage(w, op, id) {
        QueuedExactlyWithNewCursor(w, id, op.token, op.page);
        if op.page.complete { NoTrailAfterTheEnd(t, events[1..], id); }
      }
    }
  }

  ghost predicate Quiet(events: seq<Event>, id: nat) {
    forall i :: 0 <= i < |events| ==>
      !((events[i].op.OpRetry? || events[i].op.OpCancel?) && events[i].op.id == id)
  }

  function Elapsed(events: seq<Event>): nat {
    if events == [] then 0 else events[0].wait + Elapsed(events[1..])
  }

  /** Nobody takes up a queued import before its time, unless it is cancelled or retried by hand. */
  lemma {:induction false} QueuedStepWaits(s: State, events: seq<Event>, id: nat)
    requires id in s.imports && s.imports[id].status.Queued? && s.clock + Elapsed(events) < s.imports[id].next && Quiet(events, id)
    ensures id in Run(s, events).imports && Run(s, events).imports[id] == s.imports[id]
    decreases |events|
  {
    if events != [] {
      assert !((events[0].op.OpRetry? || events[0].op.OpCancel?) && events[0].op.id == id);
      QueuedStepWaits(Step(s, events[0]), events[1..], id);
    }
  }

  /** After a failure an import rests for 30 seconds, doubled once for each failure in a row
      before it. */
  lemma FailedStepRests(s: State, id: nat, token: nat, events: seq<Event>)
    requires ClaimHolds(s, id, token, true) && s.imports[id].failures < 4
    requires Elapsed(events) < 30 * Pow2(Min(s.imports[id].failures, 4)) && Quiet(events, id)
    ensures var t := Fail(s, id, token, true, false);
            id in Run(t, events).imports && Run(t, events).imports[id] == t.imports[id] && t.imports[id].status.Queued?
  {
    QueuedStepWaits(Fail(s, id, token, true, false), events, id);
  }

  /** How often in a row an import fails without a commit or a retry by hand in between. */
  ghost function Failures(s: State, events: seq<Event>, id: nat, run: nat): nat
    decreases |events|
  {
    if events == [] then run
    else
      var w := Wait(s, events[0].wait);
      var op := events[0].op;
      Failures(Step(s, events[0]), events[1..], id,
        if op.OpFail? && op.id == id && ClaimHolds(w, id, op.token, op.admitted) then run + 1
        else if (op.OpFinish? || op.OpRetry?) && op.id == id && Apply(w, op) != w then 0
        else run)
  }

  ghost predicate Tracks(s: State, id: nat, run: nat) {
    if id in s.imports then s.imports[id].failures == run else run == 0
  }

  lemma {:induction false} FailuresBounded(s: State, events: seq<Event>, id: nat, run: nat)
    requires Inv(s) && Tracks(s, id, run)
    ensures Failures(s, events, id, run) <= 5
    decreases |events|
  {
    if events == [] {
      assert id in s.imports ==> Sound(s.imports[id]);
    } else {
      var w, t := Wait(s, events[0].wait), Step(s, events[0]);
      var op := events[0].op;
      var next := if op.OpFail? && op.id == id && ClaimHolds(w, id, op.token, op.admitted) then run + 1
                  else if (op.OpFinish? || op.OpRetry?) && op.id == id && Apply(w, op) != w then 0
                  else run;
      assert Tracks(w, id, run);
      StepTracks(w, op, id, run, next);
      StepKeeps(s, events[0]);
      FailuresBounded(t, events[1..], id, next);
    }
  }

  lemma StepTracks(s: State, op: Op, id: nat, run: nat, next: nat)
    requires Tracks(s, id, run)
    requires next == if op.OpFail? && op.id == id && ClaimHolds(s, id, op.token, op.admitted) then run + 1
                     else if (op.OpFinish? || op.OpRetry?) && op.id == id && Apply(s, op) != s then 0
                     else run
    ensures Tracks(Apply(s, op), id, next)
  {
  }

  /** Five failures in a row, and no more, over any run. */
  lemma AtMostFiveFailuresInARow(s: State, events: seq<Event>, id: nat)
    requires Initial(s)
    ensures Failures(s, events, id, 0) <= 5
  {
    FailuresBounded(s, events, id, 0);
  }
}
