module TaskEngine {
  import opened TaskModel
  import opened TaskTheorems

  /** The four tables, updated in place by one method per transaction. A method that returns
      `false` stands for a refused transaction: it has changed nothing. */
  class Engine {
    var tasks: map<nat, Task>
    var attempts: map<nat, Attempt>
    var actions: map<nat, Action>
    var runs: map<nat, ActionAttempt>

    ghost function Tables(): State
      reads this
    {
      State(tasks, attempts, actions, runs)
    }

    constructor ()
      ensures Tables() == State(map[], map[], map[], map[])
    {
      tasks, attempts, actions, runs := map[], map[], map[], map[];
    }

    method StaleRuntimeTaskWork(ids: set<nat>)
      modifies this
      ensures Tables() == DropWork(old(Tables()), ids)
    {
      actions := map a | a in actions ::
        if actions[a].task !in ids then actions[a]
        else if actions[a].status in {Proposed, Confirmed} then actions[a].(status := Outdated)
        else if actions[a].status == Executing then actions[a].(status := Unknown)
        else actions[a];
      runs := DropRuns(runs, ids);
      attempts := DropAttempts(attempts, ids, Dropped);
    }

    method Move(id: nat, status: TaskStatus)
      requires id in tasks
      modifies this`tasks
      ensures Tables() == Moved(old(Tables()), id, status)
    {
      tasks := tasks[id := Task(status, tasks[id].version + 1)];
    }

    /** The decisions of one completed batch, in their order. */
    method CompleteRuntimeBatch(mode: Mode, decisions: seq<Decision>)
      modifies this
      ensures Tables() == DecideAll(old(Tables()), mode, decisions)
    {
      for i := 0 to |decisions|
        invariant DecideAll(Tables(), mode, decisions[i..]) == DecideAll(old(Tables()), mode, decisions)
      {
        ghost var before := Tables();
        var d := decisions[i];
        assert decisions[i..][0] == d && decisions[i..][1..] == decisions[i + 1..];
        if d.kind == Context {
        } else if d.kind in {Cancel, Finish} || (d.id in tasks && tasks[d.id].status == Completed && d.kind == NewTask) {
          var status := if d.kind == Cancel then Cancelled else Completed;
          if d.id in tasks && tasks[d.id].status != status {
            StaleRuntimeTaskWork({d.id});
            Move(d.id, status);
          }
        } else {
          var status := if d.clarify && mode != Proactive then Clarification else Pending;
          if d.id !in tasks {
            tasks := tasks[d.id := Task(status, 1)];
          } else {
            StaleRuntimeTaskWork({d.id});
            Move(d.id, status);
          }
        }
        assert Tables() == Decide(before, mode, d);
      }
    }

    method MessageChanged(id: nat, recalled: bool)
      modifies this
      ensures Tables() == SourceChanged(old(Tables()), id, recalled)
    {
      if id in tasks && tasks[id].status != Cancelled {
        Move(id, if recalled then Cancelled else Stale);
        StaleRuntimeTaskWork({id});
      }
    }

    method MayStart(c: Config) returns (ok: bool)
      ensures ok == Admits(Tables(), c)
    {
      var active := |set a | a in attempts && attempts[a].status == InProgress|
                  + |set r | r in runs && runs[r].status == InProgress|;
      assert (set a | a in attempts && attempts[a].status == InProgress) == Working(Tables());
      assert (set r | r in runs && runs[r].status == InProgress) == Acting(Tables());
      ok := c.running && !((c.mode != Proactive && c.mode != GroupMention && active > 0) || active >= c.concurrency);
    }

    method ClaimRuntimeTask(c: Config, pick: nat, attempt: nat) returns (ok: bool)
      modifies this
      ensures Tables() == ClaimTask(old(Tables()), c, pick, attempt)
      ensures ok <==> Tables() != old(Tables())
    {
      ok := MayStart(c);
      if !ok || pick !in tasks || tasks[pick].status != Pending || attempt in attempts {
        return false;
      }
      var version := tasks[pick].version;
      tasks := tasks[pick := Task(Running, version)];
      attempts := attempts[attempt := Attempt(pick, version, InProgress)];
      assert attempt in Tables().attempts && attempt !in old(Tables()).attempts;
    }

    method CompleteRuntimeTask(mode: Mode, task: nat, version: nat, attempt: nat, proposals: set<nat>, destructive: bool) returns (ok: bool)
      modifies this
      ensures Tables() == CompleteTask(old(Tables()), mode, task, version, attempt, proposals, destructive)
      ensures ok <==> Tables() != old(Tables())
    {
      if task !in tasks || tasks[task].version != version || tasks[task].status != Running { return false; }
      if attempt !in attempts || attempts[attempt] != Attempt(task, version, InProgress) { return false; }
      if !(proposals !! actions.Keys) { return false; }
      var prepared := exists a :: a in actions && actions[a] == Action(task, version, Proposed);
      var status := Completed;
      if proposals != {} || prepared {
        status := AwaitingConfirmation;
        if mode == Proactive {
          status := Blocked;
          if destructive && !prepared && proposals != {} { status := AwaitingConfirmation; }
        }
      }
      tasks := tasks[task := Task(status, version)];
      attempts := attempts[attempt := attempts[attempt].(status := Done)];
      actions := actions + map a | a in proposals :: Action(task, version, Proposed);
      assert tasks[task] != old(tasks)[task];
      return true;
    }

    method FailRuntimeTask(task: nat, version: nat, attempt: nat) returns (ok: bool)
      modifies this
      ensures Tables() == FailTask(old(Tables()), task, version, attempt)
      ensures ok <==> Tables() != old(Tables())
    {
      if task !in tasks || tasks[task].version != version || tasks[task].status != Running { return false; }
      tasks := tasks[task := tasks[task].(status := Failed)];
      if attempt in attempts {
        attempts := attempts[attempt := attempts[attempt].(status := Errored)];
      }
      assert tasks[task] != old(tasks)[task];
      return true;
    }

    method SetRuntimeTaskStatus(id: nat, retry: bool, uncertain: bool)
      modifies this
      ensures Tables() == SetStatus(old(Tables()), id, retry, uncertain)
    {
      if id !in tasks { return; }
      if retry {
        if tasks[id].status !in {Failed, Stale, Cancelled, Clarification, Blocked, ActionFailed, ActionUnknown} || uncertain { return; }
        Move(id, Pending);
      } else {
        if tasks[id].status == Completed { return; }
        Move(id, Cancelled);
      }
      StaleRuntimeTaskWork({id});
    }

    method ResumeRuntimeTask(id: nat, resumable: bool)
      modifies this
      ensures Tables() == Resume(old(Tables()), id, resumable)
    {
      if id !in tasks || tasks[id].status != Failed || !resumable { return; }
      if exists a :: a in actions && actions[a].task == id && actions[a].status in {Unknown, Executing, Confirmed} { return; }
      Move(id, Pending);
      StaleRuntimeTaskWork({id});
    }

    method ProposeRuntimeAction(task: nat, version: nat, attempt: nat, action: nat)
      modifies this
      ensures Tables() == Propose(old(Tables()), task, version, attempt, action)
    {
      if task !in tasks || tasks[task] != Task(Running, version) { return; }
      if attempt !in attempts || attempts[attempt] != Attempt(task, version, InProgress) || action in actions { return; }
      actions := actions[action := Action(task, version, Proposed)];
    }

    method ConfirmRuntimeActionFromMessage(action: nat)
      modifies this
      ensures Tables() == Confirm(old(Tables()), action)
    {
      if action !in actions || actions[action].task !in tasks { return; }
      var a, t := actions[action], tasks[actions[action].task];
      if a.status != Proposed || t.status != AwaitingConfirmation || a.version != t.version { return; }
      actions := actions[action := a.(status := Confirmed)];
    }

    method ConfirmRuntimeCard(task: nat, shown: set<nat>, agree: bool)
      modifies this
      ensures Tables() == AnswerCard(old(Tables()), task, shown, agree)
    {
      if exists a :: a in shown && (a !in actions || actions[a].task != task || task !in tasks
                                    || tasks[task] != Task(AwaitingConfirmation, actions[a].version)) { return; }
      var open := set a | a in shown && a in actions && actions[a].status == Proposed;
      if open == {} { return; }
      var answer := if agree then Confirmed else Rejected;
      actions := map a | a in actions :: if a in open then actions[a].(status := answer) else actions[a];
      assert open == set a | a in shown && a in old(actions) && old(actions)[a].status.Proposed?;
      if !agree {
        var first :| first in open;
        assert old(actions)[first].task == task;
        tasks := tasks[task := tasks[task].(status := Cancelled)];
      }
    }

    method ClaimRuntimeAction(c: Config, action: nat, run: nat) returns (ok: bool)
      modifies this
      ensures Tables() == ClaimAction(old(Tables()), c, action, run)
      ensures ok <==> Tables() != old(Tables())
    {
      ok := MayStart(c);
      if !ok || action !in actions || actions[action].task !in tasks || run in runs { return false; }
      var a := actions[action];
      if tasks[a.task] != Task(AwaitingConfirmation, a.version) || a.status != Confirmed { return false; }
      actions := actions[action := a.(status := Executing)];
      runs := runs[run := ActionAttempt(action, a.task, a.version, InProgress)];
      assert run in Tables().runs && run !in old(Tables()).runs;
    }

    method CompleteRuntimeAction(action: nat, run: nat, version: nat)
      modifies this
      ensures Tables() == CompleteAction(old(Tables()), action, run, version)
    {
      if action !in actions || run !in runs || runs[run].action != action { return; }
      if actions[action].version != version || actions[action].status != Executing || runs[run].status != InProgress { return; }
      runs := runs[run := runs[run].(status := Done)];
      actions := actions[action := actions[action].(status := Executed)];
      var task := actions[action].task;
      var remaining := exists a :: a in actions && actions[a].task == task && actions[a].version == version && actions[a].status != Executed;
      if !remaining && task in tasks && tasks[task] == Task(AwaitingConfirmation, version) {
        tasks := tasks[task := Task(Completed, version)];
      }
    }

    /** FailRuntimeAction, or UnknownRuntimeAction when `unknown`. */
    method EndRuntimeAction(action: nat, run: nat, version: nat, unknown: bool)
      modifies this
      ensures Tables() == EndAction(old(Tables()), action, run, version, unknown)
    {
      if action !in actions || actions[action].status != Executing || actions[action].version != version { return; }
      var task := actions[action].task;
      if run in runs && runs[run].status == InProgress {
        runs := runs[run := runs[run].(status := if unknown then Unsure else Errored)];
      }
      actions := actions[action := actions[action].(status := if unknown then Unknown else Faulted)];
      if task in tasks && tasks[task] == Task(AwaitingConfirmation, version) {
        tasks := tasks[task := Task(if unknown then ActionUnknown else ActionFailed, version)];
      }
    }

    method RecoverRuntime()
      modifies this
      ensures Tables() == Recover(old(Tables()))
    {
      attempts := DropAttempts(attempts, tasks.Keys, Errored);
      tasks := map t | t in tasks :: if tasks[t].status == Running then tasks[t].(status := Failed) else tasks[t];
      var unknown := exists a :: a in actions && actions[a].status == Executing;
      actions := map a | a in actions :: if actions[a].status == Executing then actions[a].(status := Unknown) else actions[a];
      runs := DropRuns(runs, tasks.Keys);
      assert tasks.Keys == old(tasks).Keys && unknown == AnyExecuting(old(Tables()));
      if unknown {
        tasks := map t | t in tasks :: if tasks[t].status == AwaitingConfirmation then tasks[t].(status := ActionUnknown) else tasks[t];
      }
    }

    method InvalidateRuntimeConfigWork()
      modifies this
      ensures Tables() == Reconfigure(old(Tables()))
    {
      tasks := map t | t in tasks :: if Reconfigurable(tasks[t].status) then Task(Stale, tasks[t].version + 1) else tasks[t];
      assert tasks.Keys == old(tasks).Keys;
      StaleRuntimeTaskWork(tasks.Keys);
    }

    /** Any of these transactions, as an operation of a run; it keeps the invariant. Expired
        payloads are dropped elsewhere. */
    method Transact(op: Op)
      requires Inv(Tables()) && WellAddressed(Tables(), op) && !op.OpExpirePayloads?
      modifies this
      ensures Tables() == Step(old(Tables()), op) && Inv(Tables())
    {
      StepKeeps(Tables(), op);
      Perform(op);
    }

    method Perform(op: Op)
      requires !op.OpExpirePayloads?
      modifies this
      ensures Tables() == Step(old(Tables()), op)
    {
      match op {
        case OpDecide(mode, decisions) => CompleteRuntimeBatch(mode, decisions);
        case OpSourceChanged(task, recalled) => MessageChanged(task, recalled);
        case OpClaimTask(c, task, attempt) => var _ := ClaimRuntimeTask(c, task, attempt);
        case OpCompleteTask(mode, task, version, attempt, proposals, destructive) =>
          var _ := CompleteRuntimeTask(mode, task, version, attempt, proposals, destructive);
        case OpFailTask(task, version, attempt) => var _ := FailRuntimeTask(task, version, attempt);
        case OpSetStatus(task, retry, uncertain) => SetRuntimeTaskStatus(task, retry, uncertain);
        case OpResume(task, resumable) => ResumeRuntimeTask(task, resumable);
        case OpPropose(task, version, attempt, action) => ProposeRuntimeAction(task, version, attempt, action);
        case OpConfirm(action) => ConfirmRuntimeActionFromMessage(action);
        case OpAnswerCard(task, shown, agree) => ConfirmRuntimeCard(task, shown, agree);
        case OpClaimAction(c, action, run) => var _ := ClaimRuntimeAction(c, action, run);
        case OpCompleteAction(action, run, version) => CompleteRuntimeAction(action, run, version);
        case OpEndAction(action, run, version, unknown) => EndRuntimeAction(action, run, version, unknown);
        case OpRecover => RecoverRuntime();
        case OpReconfigure => InvalidateRuntimeConfigWork();
        case OpExpirePayloads(_) => assert false;
      }
    }
  }
}
