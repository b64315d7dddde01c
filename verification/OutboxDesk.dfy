module OutboxDesk {
  import opened Options
  import opened OutboxModel
  import opened OutboxTheorems

  class Desk {
    var rows: map<nat, Row>

    ghost function Tables(): State
      reads this
    {
      State(rows)
    }

    constructor ()
      ensures Tables() == State(map[])
    {
      rows := map[];
    }

    /** The row of this reply, new or found. */
    method Draft(id: nat, route: nat, digest: nat, channel: nat, task: Option<nat>) returns (found: nat, duplicate: bool)
      requires id !in rows
      modifies this
      ensures Tables() == Prepare(old(Tables()), id, route, digest, channel, task)
      ensures duplicate <==> Known(old(Tables()), route, digest)
      ensures found in rows && rows[found].route == route && rows[found].digest == digest && (!duplicate ==> found == id)
    {
      var same := set i | i in rows && rows[i].route == route && rows[i].digest == digest;
      if same != {} {
        var i :| i in same;
        return i, true;
      }
      assert !Known(Tables(), route, digest) by {
        forall i ensures !(i in rows && rows[i].route == route && rows[i].digest == digest) { assert i !in same; }
      }
      rows := rows[id := Row(route, digest, channel, task, if task.Some? then Ready else Status.Draft, [])];
      return id, false;
    }

    method AuthorizeDispatch(id: nat, matches: bool, checks: seq<bool>) returns (ok: bool)
      modifies this
      ensures Tables() == Authorize(old(Tables()), id, matches, forall i :: 0 <= i < |checks| ==> checks[i])
      ensures ok <==> Tables() != old(Tables())
    {
      if id !in rows || !matches { return false; }
      var sendable := rows[id].status in {Status.Draft, Ready};
      for i := 0 to |checks|
        invariant sendable <==> Waiting(rows[id]) && forall j :: 0 <= j < i ==> checks[j]
      {
        if !checks[i] { sendable := false; }
      }
      if !sendable { return false; }
      var attempt := |rows[id].attempts| + 1;
      rows := rows[id := rows[id].(status := Sending, attempts := rows[id].attempts + [Sending])];
      assert |rows[id].attempts| == attempt && rows[id] != old(rows)[id];
      ok := true;
    }

    method BeginDelivery(id: nat, current: bool) returns (attempt: nat)
      modifies this
      ensures Tables() == Begin(old(Tables()), id, current)
      ensures if Tables() == old(Tables()) then attempt == 0 else id in rows && attempt == |rows[id].attempts|
    {
      if id !in rows || !current || rows[id].status != Ready { return 0; }
      attempt := |rows[id].attempts| + 1;
      rows := rows[id := rows[id].(status := Sending, attempts := rows[id].attempts + [Sending])];
      assert rows[id] != old(rows)[id];
    }

    method FinishDelivery(id: nat, attempt: nat, to: Status)
      modifies this
      ensures Tables() == Finish(old(Tables()), id, attempt, to)
    {
      if id !in rows || to !in {Accepted, Failed, Unknown} { return; }
      var r := rows[id];
      if 1 <= attempt <= |r.attempts| && r.attempts[attempt - 1] == Sending {
        rows := rows[id := r.(attempts := r.attempts[attempt - 1 := to])];
      }
      if rows[id].status == Sending { rows := rows[id := rows[id].(status := to)]; }
      assert rows == old(rows)[id := rows[id]];
    }

    method EndAttempts(attempts: seq<Status>, to: Status) returns (ended: seq<Status>)
      ensures ended == EndSending(attempts, to)
    {
      ended := attempts;
      for i := 0 to |attempts|
        invariant |ended| == |attempts|
        invariant forall j :: 0 <= j < |ended| ==> ended[j] == if j < i && attempts[j].Sending? then to else attempts[j]
      {
        if ended[i] == Sending { ended := ended[i := to]; }
      }
    }

    method RecordDelivery(id: nat, to: Status, hasReceipt: bool) returns (ok: bool)
      modifies this
      ensures Tables() == Record(old(Tables()), id, to, hasReceipt)
      ensures ok <==> Tables() != old(Tables())
    {
      if to !in {Accepted, RetryableFailed, DeliveryUnknown, Failed} { return false; }
      if id !in rows || rows[id].status != Sending || (to == Accepted && !hasReceipt) { return false; }
      var ended := EndAttempts(rows[id].attempts, to);
      rows := rows[id := rows[id].(status := to, attempts := ended)];
      assert rows[id] != old(rows)[id];
      ok := true;
    }

    method CancelDraft(id: nat, hasReason: bool) returns (ok: bool)
      modifies this
      ensures Tables() == Cancel(old(Tables()), id, hasReason)
      ensures ok <==> Tables() != old(Tables())
    {
      if id !in rows || !hasReason || rows[id].status !in {Status.Draft, Ready, Stale} { return false; }
      rows := rows[id := rows[id].(status := Cancelled)];
      assert rows[id] != old(rows)[id];
      ok := true;
    }

    method ReconcileDelivery(id: nat, accepted: bool, hasReceipt: bool, hasEvidence: bool)
      modifies this
      ensures Tables() == Reconcile(old(Tables()), id, accepted, hasReceipt, hasEvidence)
    {
      if id !in rows || rows[id].status != DeliveryUnknown || !hasEvidence { return; }
      var outcome := RetryableFailed;
      if accepted {
        if !hasReceipt { return; }
        outcome := Accepted;
      }
      var attempts := rows[id].attempts;
      if |attempts| > 0 { attempts := attempts[|attempts| - 1 := outcome]; }
      rows := rows[id := rows[id].(status := outcome, attempts := attempts)];
    }

    method RetireRoute(route: nat)
      modifies this
      ensures Tables() == PolicyChanged(old(Tables()), route)
    {
      rows := map i | i in rows ::
        if rows[i].route == route && rows[i].status in {Status.Draft, Ready} then rows[i].(status := Stale) else rows[i];
    }

    method RetireChannel(channel: nat)
      modifies this
      ensures Tables() == ChannelChanged(old(Tables()), channel)
    {
      rows := map i | i in rows ::
        if rows[i].channel == channel && rows[i].status in {Status.Draft, Ready} then rows[i].(status := Stale) else rows[i];
    }

    method RestartRuntime(tasks: set<nat>)
      modifies this
      ensures Tables() == Restart(old(Tables()), tasks)
    {
      rows := map i | i in rows ::
        if rows[i].task.Some? && rows[i].task.value in tasks
        then rows[i].(status := if rows[i].status == Sending then Unknown else rows[i].status,
                      attempts := EndSending(rows[i].attempts, Unknown))
        else rows[i];
    }

    method ReconfigureRuntime(tasks: set<nat>)
      modifies this
      ensures Tables() == Reconfigure(old(Tables()), tasks)
    {
      rows := map i | i in rows ::
        if rows[i].task.Some? && rows[i].task.value in tasks && rows[i].status in {Status.Draft, Ready}
        then rows[i].(status := Stale) else rows[i];
      RestartRuntime(tasks);
    }

    /** Any of these transactions, as an operation of a run. */
    method Transact(op: Op)
      requires Inv(Tables()) && (op.OpPrepare? ==> op.id !in rows)
      modifies this
      ensures Tables() == Step(old(Tables()), op) && Inv(Tables())
    {
      StepMoves(Tables(), op);
      match op {
        case OpPrepare(id, route, digest, channel, task) => var _, _ := Draft(id, route, digest, channel, task);
        case OpAuthorize(id, matches, sendable) => var _ := AuthorizeDispatch(id, matches, [sendable]); assert [sendable][0] == sendable;
        case OpBegin(id, current) => var _ := BeginDelivery(id, current);
        case OpFinish(id, n, to) => FinishDelivery(id, n, to);
        case OpRecord(id, to, hasReceipt) => var _ := RecordDelivery(id, to, hasReceipt);
        case OpCancel(id, hasReason) => var _ := CancelDraft(id, hasReason);
        case OpReconcile(id, accepted, hasReceipt, hasEvidence) => ReconcileDelivery(id, accepted, hasReceipt, hasEvidence);
        case OpPolicy(route) => RetireRoute(route);
        case OpChannel(channel) => RetireChannel(channel);
        case OpReconfigure(tasks) => ReconfigureRuntime(tasks);
        case OpRestart(tasks) => RestartRuntime(tasks);
      }
    }
  }
}
