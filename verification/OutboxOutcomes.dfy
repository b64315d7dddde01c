/** What each transaction on the outbox does to its row, and when it is refused. */
module OutboxOutcomes {
  import opened Options
  import opened OutboxModel
  import opened OutboxTheorems

  ghost predicate OtherRowsSame(s: State, t: State, id: nat) {
    forall i :: i != id ==> (i in t.rows <==> i in s.rows) && (i in s.rows ==> t.rows[i] == s.rows[i])
  }

  /** The row goes on with this status and these attempts. */
  ghost predicate Becomes(s: State, t: State, id: nat, status: Status, attempts: seq<Status>) {
    && id in s.rows && id in t.rows && OtherRowsSame(s, t, id)
    && var r := s.rows[id]; t.rows[id] == Row(r.route, r.digest, r.channel, r.task, status, attempts)
  }

  predicate IsWaiting(r: Row) {
    r.status == Draft || r.status == Ready
  }

  /** The first reply to an input on a route gets a row: a draft for a person, ready for a task. */
  lemma PreparationOutcome(s: State, id: nat, route: nat, digest: nat, channel: nat, task: Option<nat>)
    requires id !in s.rows
    ensures var t := Prepare(s, id, route, digest, channel, task);
            if forall i :: i in s.rows ==> s.rows[i].route != route || s.rows[i].digest != digest
            then t.rows == s.rows[id := Row(route, digest, channel, task, if task == None then Draft else Ready, [])]
            else t == s
  {
  }

  /** A waiting row is handed over with its displayed digest and all checks passed; a ready one
      also by its own runtime as long as it is current. */
  lemma SendingOutcome(s: State, id: nat, matches: bool, sendable: bool, current: bool)
    ensures var t := Authorize(s, id, matches, sendable);
            if matches && sendable && id in s.rows && IsWaiting(s.rows[id])
            then Becomes(s, t, id, Sending, s.rows[id].attempts + [Sending]) else t == s
    ensures var t := Begin(s, id, current);
            if current && id in s.rows && s.rows[id].status == Ready
            then Becomes(s, t, id, Sending, s.rows[id].attempts + [Sending]) else t == s
  {
  }

  /** In step with its single attempt a row that is being sent ends as it is told. */
  lemma FinishOutcome(s: State, id: nat, n: nat, to: Status)
    requires Inv(s) && Agree(s)
    ensures var t := Finish(s, id, n, to);
            if to in {Accepted, Failed, Unknown} && id in s.rows && s.rows[id].status == Sending
            then Becomes(s, t, id, to, [if n == 1 then to else Sending]) else t == s
  {
    if id in s.rows {
      assert RowAgrees(s.rows[id]) && RowFits(s.rows[id]);
      assert s.rows[id := s.rows[id]] == s.rows;
    }
  }

  /** A person's delivery is reported once, and as accepted only with a receipt. */
  lemma ReportOutcome(s: State, id: nat, to: Status, hasReceipt: bool)
    requires Inv(s) && Agree(s)
    ensures var t := Record(s, id, to, hasReceipt);
            if to in {Accepted, RetryableFailed, DeliveryUnknown, Failed} && id in s.rows && s.rows[id].status == Sending && (to == Accepted ==> hasReceipt)
            then Becomes(s, t, id, to, [to]) else t == s
  {
    assert id in s.rows ==> RowAgrees(s.rows[id]);
  }

  lemma CancellationOutcome(s: State, id: nat, hasReason: bool)
    ensures var t := Cancel(s, id, hasReason);
            if hasReason && id in s.rows && (IsWaiting(s.rows[id]) || s.rows[id].status == Stale)
            then Becomes(s, t, id, Cancelled, s.rows[id].attempts) else t == s
  {
  }

  /** Evidence settles an unknown delivery: with a receipt it was accepted, without a delivery
      it may be retried. Nothing else can be reconciled. */
  lemma ReconciliationOutcome(s: State, id: nat, accepted: bool, hasReceipt: bool, hasEvidence: bool)
    requires Inv(s)
    ensures var t, to := Reconcile(s, id, accepted, hasReceipt, hasEvidence), if accepted then Accepted else RetryableFailed;
            if hasEvidence && (accepted ==> hasReceipt) && id in s.rows && s.rows[id].status == DeliveryUnknown
            then Becomes(s, t, id, to, [to]) else t == s
  {
    assert id in s.rows ==> RowFits(s.rows[id]);
  }

  ghost predicate EachRow(s: State, t: State, of: Row -> bool, to: Row -> Row) {
    t.rows.Keys == s.rows.Keys && forall i :: i in s.rows ==> t.rows[i] == if of(s.rows[i]) then to(s.rows[i]) else s.rows[i]
  }

  /** What was not handed over is stale. */
  function Outdated(r: Row): Row {
    if r.status == Draft || r.status == Ready then Row(r.route, r.digest, r.channel, r.task, Stale, r.attempts) else r
  }

  /** What was being sent has an unknown outcome. */
  function CutOff(r: Row): Row {
    if r.status == Sending then Row(r.route, r.digest, r.channel, r.task, Unknown, [Unknown]) else r
  }

  lemma PolicyOutcome(s: State, route: nat, channel: nat)
    ensures EachRow(s, PolicyChanged(s, route), (r: Row) => r.route == route, Outdated)
    ensures EachRow(s, ChannelChanged(s, channel), (r: Row) => r.channel == channel, Outdated)
  {
  }

  lemma RowCutOff(r: Row)
    requires RowFits(r) && RowAgrees(r)
    ensures Interrupted(r) == CutOff(r) && Interrupted(Retired(r)) == CutOff(Outdated(r))
  {
  }

  lemma RuntimeOutcome(s: State, tasks: set<nat>)
    requires Inv(s) && Agree(s)
    ensures EachRow(s, Restart(s, tasks), (r: Row) => r.task.Some? && r.task.value in tasks, CutOff)
    ensures EachRow(s, Reconfigure(s, tasks), (r: Row) => r.task.Some? && r.task.value in tasks, (r: Row) => CutOff(Outdated(r)))
  {
    forall i | i in s.rows ensures Interrupted(s.rows[i]) == CutOff(s.rows[i]) && Interrupted(Retired(s.rows[i])) == CutOff(Outdated(s.rows[i])) {
      assert RowFits(s.rows[i]) && RowAgrees(s.rows[i]);
      RowCutOff(s.rows[i]);
    }
  }

  /** After any run a reply that still waits can be sent and accepted, with one attempt. */
  lemma ReplyCanBeDelivered(ops: seq<Op>, id: nat)
    requires id in Run(State(map[]), ops).rows && IsWaiting(Run(State(map[]), ops).rows[id])
    ensures var s := Run(State(map[]), ops);
            Becomes(s, Record(Authorize(s, id, true, true), id, Accepted, true), id, Accepted, [Accepted])
  {
    RunKeeps(State(map[]), ops);
    var s := Run(State(map[]), ops);
    assert RowFits(s.rows[id]);
    SendingOutcome(s, id, true, true, true);
    var m := Authorize(s, id, true, true);
    assert m.rows[id].attempts == [Sending];
    assert EndSending([Sending], Accepted) == [Accepted];
  }
}
