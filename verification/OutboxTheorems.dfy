module OutboxTheorems {
  import opened Options
  import opened OutboxModel

  // ---- The invariant ----

  predicate HandedOver(status: Status) {
    status.Sending? || status.Accepted? || status.RetryableFailed? || status.DeliveryUnknown? || status.Failed? || status.Unknown?
  }

  /** One attempt if the row was handed over, and none before. */
  ghost predicate RowFits(r: Row) {
    |r.attempts| == if HandedOver(r.status) then 1 else 0
  }

  ghost predicate Same(s: State, i: nat, j: nat) {
    i in s.rows && j in s.rows && s.rows[i].route == s.rows[j].route && s.rows[i].digest == s.rows[j].digest
  }

  ghost predicate Inv(s: State) {
    (forall i :: i in s.rows ==> RowFits(s.rows[i])) && (forall i, j :: Same(s, i, j) ==> i == j)
  }

  /** How one row may move. */
  ghost predicate Moves(before: Row, after: Row) {
    && after.route == before.route && after.digest == before.digest && after.channel == before.channel && after.task == before.task
    && (HandedOver(before.status) ==> HandedOver(after.status))
    && (Waiting(after) ==> after == before)
    && (after.status.Sending? ==> before.status.Sending? || Waiting(before))
    && (before.status.Unknown? ==> after.status.Unknown?)
  }

  lemma RowsMove(s: State, op: Op)
    requires forall i :: i in s.rows ==> RowFits(s.rows[i])
    ensures forall i :: i in s.rows ==> i in Step(s, op).rows && Moves(s.rows[i], Step(s, op).rows[i])
  {
    forall i | i in s.rows ensures i in Step(s, op).rows && Moves(s.rows[i], Step(s, op).rows[i]) { assert RowFits(s.rows[i]); }
  }

  lemma RowsFit(s: State, op: Op)
    requires forall i :: i in s.rows ==> RowFits(s.rows[i])
    ensures forall i :: i in Step(s, op).rows ==> RowFits(Step(s, op).rows[i])
  {
  }

  lemma RowsNew(s: State, op: Op)
    ensures forall i :: i in Step(s, op).rows && i !in s.rows ==> !Known(s, Step(s, op).rows[i].route, Step(s, op).rows[i].digest)
    ensures forall i, j :: i in Step(s, op).rows && i !in s.rows && j in Step(s, op).rows && j !in s.rows ==> i == j
  {
  }

  lemma StepMoves(s: State, op: Op)
    requires Inv(s)
    ensures Inv(Step(s, op))
    ensures forall i :: i in s.rows ==> i in Step(s, op).rows && Moves(s.rows[i], Step(s, op).rows[i])
  {
    var t := Step(s, op);
    RowsMove(s, op);
    RowsFit(s, op);
    RowsNew(s, op);
    forall i, j | Same(t, i, j) ensures i == j {
      assert i in s.rows && j in s.rows ==> Same(s, i, j);
    }
  }

  lemma {:induction false} RunKeeps(s: State, ops: seq<Op>)
    requires Inv(s)
    ensures Inv(Run(s, ops))
    decreases |ops|
  {
    if ops != [] {
      StepMoves(s, ops[0]);
      RunKeeps(Step(s, ops[0]), ops[1..]);
    }
  }

  // ---- Sent at most once ----

  ghost predicate Starts(s: State, op: Op, id: nat) {
    id in Step(s, op).rows && Step(s, op).rows[id].status.Sending? && !(id in s.rows && s.rows[id].status.Sending?)
  }

  /** How often the row is handed to the platform. */
  ghost function Sends(s: State, ops: seq<Op>, id: nat): nat
    decreases |ops|
  {
    if ops == [] then 0 else (if Starts(s, ops[0], id) then 1 else 0) + Sends(Step(s, ops[0]), ops[1..], id)
  }

  ghost predicate MaySend(s: State, id: nat) {
    id !in s.rows || Waiting(s.rows[id])
  }

  lemma {:induction false} NoSecondSend(s: State, ops: seq<Op>, id: nat)
    requires Inv(s)
    ensures Sends(s, ops, id) <= if MaySend(s, id) then 1 else 0
    decreases |ops|
  {
    if ops != [] {
      StepMoves(s, ops[0]);
      NoSecondSend(Step(s, ops[0]), ops[1..], id);
    }
  }

  /** Over any mix of dispatches, results, restarts, cancellations and policy changes. */
  lemma SentAtMostOnce(ops: seq<Op>, id: nat)
    ensures Sends(State(map[]), ops, id) <= 1
    ensures id in Run(State(map[]), ops).rows ==> |Run(State(map[]), ops).rows[id].attempts| <= 1
  {
    NoSecondSend(State(map[]), ops, id);
    RunKeeps(State(map[]), ops);
    assert id in Run(State(map[]), ops).rows ==> RowFits(Run(State(map[]), ops).rows[id]);
  }

  ghost predicate StartsReply(s: State, op: Op, route: nat, digest: nat) {
    exists id :: Starts(s, op, id) && Step(s, op).rows[id].route == route && Step(s, op).rows[id].digest == digest
  }

  ghost function ReplySends(s: State, ops: seq<Op>, route: nat, digest: nat): nat
    decreases |ops|
  {
    if ops == [] then 0
    else (if StartsReply(s, ops[0], route, digest) then 1 else 0) + ReplySends(Step(s, ops[0]), ops[1..], route, digest)
  }

  /** No row of this reply has been handed over. */
  ghost predicate MaySendReply(s: State, route: nat, digest: nat) {
    forall i :: i in s.rows && s.rows[i].route == route && s.rows[i].digest == digest ==> Waiting(s.rows[i])
  }

  lemma ReplySpent(s: State, op: Op, route: nat, digest: nat)
    requires Inv(s)
    ensures MaySendReply(Step(s, op), route, digest) ==> MaySendReply(s, route, digest)
    ensures StartsReply(s, op, route, digest) ==> MaySendReply(s, route, digest) && !MaySendReply(Step(s, op), route, digest)
  {
    StepMoves(s, op);
    var t := Step(s, op);
    if StartsReply(s, op, route, digest) {
      var id :| Starts(s, op, id) && t.rows[id].route == route && t.rows[id].digest == digest;
      forall i | i in s.rows && s.rows[i].route == route && s.rows[i].digest == digest ensures Waiting(s.rows[i]) {
        assert Same(t, i, id);
      }
    }
  }

  lemma {:induction false} NoSecondReply(s: State, ops: seq<Op>, route: nat, digest: nat)
    requires Inv(s)
    ensures ReplySends(s, ops, route, digest) <= if MaySendReply(s, route, digest) then 1 else 0
    decreases |ops|
  {
    if ops != [] {
      StepMoves(s, ops[0]);
      ReplySpent(s, ops[0], route, digest);
      NoSecondReply(Step(s, ops[0]), ops[1..], route, digest);
    }
  }

  /** However often a reply to one input is prepared again, it is sent at most once. */
  lemma EachReplySentAtMostOnce(ops: seq<Op>, route: nat, digest: nat)
    ensures ReplySends(State(map[]), ops, route, digest) <= 1
  {
    NoSecondReply(State(map[]), ops, route, digest);
  }

  // ---- What becomes of a reply that was handed over ----

  lemma {:induction false} NeverWithdrawn(s: State, ops: seq<Op>, id: nat)
    requires Inv(s) && id in s.rows && HandedOver(s.rows[id].status)
    ensures id in Run(s, ops).rows && HandedOver(Run(s, ops).rows[id].status)
    ensures s.rows[id].status.Unknown? ==> Run(s, ops).rows[id].status.Unknown?
    decreases |ops|
  {
    if ops != [] {
      StepMoves(s, ops[0]);
      NeverWithdrawn(Step(s, ops[0]), ops[1..], id);
    }
  }

  /** After any run a reply that was handed over is neither stale nor cancelled nor waiting
      again; and one whose outcome a restart left unknown keeps that state for ever, since
      reconciliation only takes the other unknown state. */
  lemma HandedOverForGood(ops: seq<Op>, later: seq<Op>, id: nat)
    requires id in Run(State(map[]), ops).rows && HandedOver(Run(State(map[]), ops).rows[id].status)
    ensures var t := Run(Run(State(map[]), ops), later);
            && id in t.rows && HandedOver(t.rows[id].status)
            && (Run(State(map[]), ops).rows[id].status.Unknown? ==> t.rows[id].status.Unknown?)
  {
    RunKeeps(State(map[]), ops);
    NeverWithdrawn(Run(State(map[]), ops), later, id);
  }

  // ---- Rows and attempts tell the same ----

  ghost predicate RowAgrees(r: Row) {
    HandedOver(r.status) ==> r.attempts == [r.status]
  }

  ghost predicate Agree(s: State) {
    forall i :: i in s.rows ==> RowAgrees(s.rows[i])
  }

  /** FinishDelivery ends the row whatever attempt it is told about, but the attempt only if it
      is the one: the two stay in step exactly when the number is right. */
  lemma FinishAgreesExactlyWhen(s: State, id: nat, n: nat, to: Status)
    requires Inv(s) && Agree(s)
    ensures Agree(Finish(s, id, n, to)) <==> (id in s.rows && s.rows[id].status.Sending? && Final(to) ==> n == 1)
  {
    var t := Finish(s, id, n, to);
    if id in s.rows {
      assert RowAgrees(s.rows[id]) && RowFits(s.rows[id]);
      forall i | i in t.rows && i != id ensures RowAgrees(t.rows[i]) { assert RowAgrees(s.rows[i]); }
      assert Agree(t) <==> RowAgrees(t.rows[id]);
    }
  }

  /** A delivery that is ended under a wrong number: the row is accepted, its attempt still sends. */
  lemma WrongNumberParts()
    ensures var t := Run(State(map[]), [OpPrepare(0, 1, 2, 3, Some(4)), OpBegin(0, true), OpFinish(0, 2, Accepted)]);
            0 in t.rows && t.rows[0].status.Accepted? && t.rows[0].attempts == [Sending]
  {
    var a, b, c := OpPrepare(0, 1, 2, 3, Some(4)), OpBegin(0, true), OpFinish(0, 2, Accepted);
    var s1 := Step(State(map[]), a);
    var s2 := Step(s1, b);
    assert s2.rows[0].attempts == [Sending];
    assert [a, b, c][1..] == [b, c] && [b, c][1..] == [c] && [c][1..] == [];
    assert Run(s1, [b, c]) == Run(s2, [c]) == Step(s2, c);
  }

  predicate WellNumbered(ops: seq<Op>) {
    forall i :: 0 <= i < |ops| && ops[i].OpFinish? ==> ops[i].n == 1
  }

  lemma StepAgrees(s: State, op: Op)
    requires Inv(s) && Agree(s) && (op.OpFinish? ==> op.n == 1)
    ensures Agree(Step(s, op))
  {
  }

  /** Restarts, reports and reconciliations keep them in step over any run. */
  lemma {:induction false} AttemptsAgree(s: State, ops: seq<Op>)
    requires Inv(s) && Agree(s) && WellNumbered(ops)
    ensures Agree(Run(s, ops))
    decreases |ops|
  {
    if ops != [] {
      StepMoves(s, ops[0]);
      StepAgrees(s, ops[0]);
      AttemptsAgree(Step(s, ops[0]), ops[1..]);
    }
  }
}
