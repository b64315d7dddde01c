/** What each transaction on tasks and actions does when it is accepted, when that is, and that
    neither a task nor an approved action is ever at a dead end. */
module TaskOutcomes {
  import opened TaskModel
  import opened TaskTheorems

  // ---- What stays and what is dropped ----

  ghost predicate TasksSameBut(s: State, t: State, task: nat) {
    forall k :: k != task ==> (k in t.tasks <==> k in s.tasks) && (k in s.tasks ==> t.tasks[k] == s.tasks[k])
  }

  ghost predicate BecomesTask(s: State, t: State, task: nat, after: Task) {
    task in t.tasks && t.tasks[task] == after && TasksSameBut(s, t, task)
  }

  /** Work in progress on these tasks has ended so, without an answer. */
  ghost predicate AttemptsEnded(s: State, t: State, tasks: set<nat>, to: Outcome) {
    t.attempts.Keys == s.attempts.Keys && forall a :: a in s.attempts ==>
      t.attempts[a] == if s.attempts[a].status == InProgress && s.attempts[a].task in tasks
                       then Attempt(s.attempts[a].task, s.attempts[a].version, to) else s.attempts[a]
  }

  /** What was waiting for an answer or for its turn is outdated; what was being executed has
      an unknown outcome. */
  ghost predicate ActionsEnded(s: State, t: State, tasks: set<nat>) {
    t.actions.Keys == s.actions.Keys && forall a :: a in s.actions ==>
      var was := s.actions[a];
      t.actions[a] == if was.task !in tasks then was
                      else if was.status == Proposed || was.status == Confirmed then Action(was.task, was.version, Outdated)
                      else if was.status == Executing then Action(was.task, was.version, Unknown) else was
  }

  ghost predicate RunsEnded(s: State, t: State, tasks: set<nat>) {
    t.runs.Keys == s.runs.Keys && forall r :: r in s.runs ==>
      var was := s.runs[r];
      t.runs[r] == if was.status == InProgress && was.task in tasks then ActionAttempt(was.action, was.task, was.version, Unsure) else was
  }

  ghost predicate WorkEnded(s: State, t: State, tasks: set<nat>) {
    AttemptsEnded(s, t, tasks, Dropped) && ActionsEnded(s, t, tasks) && RunsEnded(s, t, tasks)
  }

  /** The task goes on under a new version, and all its work is dropped. */
  ghost predicate StartsOver(s: State, t: State, task: nat, status: TaskStatus) {
    task in s.tasks && BecomesTask(s, t, task, Task(status, s.tasks[task].version + 1)) && WorkEnded(s, t, {task})
  }

  // ---- Tasks ----

  /** A decision that ends a task reaches only tasks that are known and not ended so already. */
  lemma EndingDecisionOutcome(s: State, mode: Mode, d: Decision)
    requires d.kind in {Cancel, Finish, Context}
    ensures var t, status := Decide(s, mode, d), if d.kind == Cancel then Cancelled else Completed;
            if d.kind != Context && d.id in s.tasks && s.tasks[d.id].status != status then StartsOver(s, t, d.id, status) else t == s
  {
  }

  /** New work opens a task or starts it over; but a task that is complete is not opened by
      being found anew, only by an update. */
  lemma OpeningDecisionOutcome(s: State, mode: Mode, d: Decision)
    requires d.kind in {NewTask, Update}
    ensures var t, status := Decide(s, mode, d), if d.clarify && mode != Proactive then Clarification else Pending;
            if d.id !in s.tasks then t == s.(tasks := s.tasks[d.id := Task(status, 1)])
            else if d.kind == NewTask && s.tasks[d.id].status == Completed then t == s
            else StartsOver(s, t, d.id, status)
  {
  }

  /** A later decision of a batch finds what the earlier ones left. */
  lemma {:induction false} DecisionsInOrder(s: State, mode: Mode, ds: seq<Decision>, d: Decision)
    ensures DecideAll(s, mode, ds + [d]) == Decide(DecideAll(s, mode, ds), mode, d)
    decreases |ds|
  {
    if ds == [] {
      assert ds + [d] == [d] && [d][1..] == [];
    } else {
      assert (ds + [d])[0] == ds[0] && (ds + [d])[1..] == ds[1..] + [d];
      DecisionsInOrder(Decide(s, mode, ds[0]), mode, ds[1..], d);
    }
  }

  lemma SourceChangeOutcome(s: State, id: nat, recalled: bool)
    ensures var t := SourceChanged(s, id, recalled);
            if id in s.tasks && s.tasks[id].status != Cancelled then StartsOver(s, t, id, if recalled then Cancelled else Stale) else t == s
  {
  }

  /** An owner cancels everything but completed tasks, and retries whatever stands still and
      has no message of unknown outcome. */
  lemma OwnerOutcome(s: State, id: nat, retry: bool, uncertain: bool)
    ensures var t := SetStatus(s, id, retry, uncertain);
            if id !in s.tasks then t == s
            else if !retry then if s.tasks[id].status == Completed then t == s else StartsOver(s, t, id, Cancelled)
            else if uncertain || s.tasks[id].status in {Pending, Running, Completed, AwaitingConfirmation} then t == s
            else StartsOver(s, t, id, Pending)
  {
    if id in s.tasks { EachStatus(s.tasks[id].status); }
  }

  lemma EachStatus(status: TaskStatus)
    ensures status in {Pending, Running, Completed, AwaitingConfirmation} <==>
            status !in {Failed, Stale, Cancelled, Clarification, Blocked, ActionFailed, ActionUnknown}
    ensures status in {Completed, Cancelled, Stale, ActionUnknown} <==> !Reconfigurable(status)
  {
    match status case _ =>
  }

  /** A failed task is resumed unless one of its actions may have taken effect or still may. */
  lemma ResumeOutcome(s: State, id: nat, resumable: bool)
    ensures var t := Resume(s, id, resumable);
            if resumable && id in s.tasks && s.tasks[id].status == Failed
              && forall a :: a in s.actions && s.actions[a].task == id ==> s.actions[a].status !in {Unknown, Executing, Confirmed}
            then StartsOver(s, t, id, Pending) else t == s
  {
  }

  // ---- Attempts ----

  ghost function UnderWay(s: State): nat {
    |set a | a in s.attempts && s.attempts[a].status == InProgress| + |set r | r in s.runs && s.runs[r].status == InProgress|
  }

  /** Room for one more attempt; a direct runtime does one thing at a time. */
  ghost predicate HasRoom(s: State, c: Config) {
    c.running && UnderWay(s) < (if c.mode == Direct && c.concurrency > 0 then 1 else c.concurrency)
  }

  lemma RoomMeansAdmitted(s: State, c: Config)
    ensures HasRoom(s, c) <==> Admits(s, c)
  {
    assert (set a | a in s.attempts && s.attempts[a].status == InProgress) == Working(s);
    assert (set r | r in s.runs && s.runs[r].status == InProgress) == Acting(s);
  }

  /** A pending task is taken up exactly if there is room. */
  lemma ClaimOutcome(s: State, c: Config, pick: nat, attempt: nat)
    requires attempt !in s.attempts
    ensures var t := ClaimTask(s, c, pick, attempt);
            if HasRoom(s, c) && pick in s.tasks && s.tasks[pick].status == Pending
            then BecomesTask(s, t, pick, Task(Running, s.tasks[pick].version)) && t.actions == s.actions && t.runs == s.runs
                 && t.attempts == s.attempts[attempt := Attempt(pick, s.tasks[pick].version, InProgress)]
            else t == s
  {
    RoomMeansAdmitted(s, c);
  }

  /** The running version of the task and an attempt in progress on it. */
  predicate WorksOn(s: State, task: nat, version: nat, attempt: nat) {
    && task in s.tasks && s.tasks[task].status == Running && s.tasks[task].version == version
    && attempt in s.attempts && s.attempts[attempt] == Attempt(task, version, InProgress)
  }

  /** The actions that were prepared for this version and wait for an answer. */
  function Waiting(s: State, task: nat, version: nat): set<nat> {
    set a | a in s.actions && s.actions[a].task == task && s.actions[a].version == version && s.actions[a].status == Proposed
  }

  lemma WaitingIsPrepared(s: State, task: nat, version: nat)
    ensures |Waiting(s, task, version)| == 0 <==> !Prepared(s, task, version)
  {
    var waiting := Waiting(s, task, version);
    if Prepared(s, task, version) {
      var a :| a in s.actions && s.actions[a] == Action(task, version, Proposed);
      assert a in waiting;
    } else {
      forall a | a in s.actions ensures a !in waiting { assert s.actions[a] != Action(task, version, Proposed); }
      assert waiting <= s.actions.Keys && waiting == {};
    }
  }

  /** A task whose attempt proposes nothing and prepared nothing is completed. A proactive
      runtime may only propose destructive actions; everything else that it proposes blocks the
      task. All other tasks wait for confirmation. */
  lemma CompletionOutcome(s: State, mode: Mode, task: nat, version: nat, attempt: nat, proposals: set<nat>, destructive: bool)
    requires WorksOn(s, task, version, attempt) && proposals !! s.actions.Keys
    ensures var t := CompleteTask(s, mode, task, version, attempt, proposals, destructive);
            var n, prepared := |proposals| + |Waiting(s, task, version)|, |Waiting(s, task, version)|;
            && task in t.tasks
            && (t.tasks[task].status == Completed <==> n == 0)
            && (t.tasks[task].status == Blocked <==> n > 0 && mode == Proactive && !(destructive && |proposals| > 0 && prepared == 0))
            && t.tasks[task].status in {Completed, Blocked, AwaitingConfirmation}
  {
    WaitingIsPrepared(s, task, version);
    assert proposals == {} <==> |proposals| == 0;
  }

  /** Exactly the proposals are added, for this version, and the attempt is done; an attempt
      that is not in progress on the running version of the task completes nothing. */
  lemma CompletionRows(s: State, mode: Mode, task: nat, version: nat, attempt: nat, proposals: set<nat>, destructive: bool)
    ensures var t := CompleteTask(s, mode, task, version, attempt, proposals, destructive);
            if WorksOn(s, task, version, attempt) && proposals !! s.actions.Keys then
              && task in t.tasks && t.tasks[task].version == version && TasksSameBut(s, t, task)
              && t.attempts == s.attempts[attempt := Attempt(task, version, Done)] && t.runs == s.runs
              && t.actions.Keys == s.actions.Keys + proposals
              && (forall a :: a in s.actions ==> t.actions[a] == s.actions[a])
              && (forall a :: a in proposals ==> t.actions[a] == Action(task, version, Proposed))
            else t == s
  {
  }

  lemma FailureOutcome(s: State, task: nat, version: nat, attempt: nat)
    ensures var t := FailTask(s, task, version, attempt);
            if task in s.tasks && s.tasks[task].status == Running && s.tasks[task].version == version then
              && BecomesTask(s, t, task, Task(Failed, version)) && t.actions == s.actions && t.runs == s.runs
              && t.attempts.Keys == s.attempts.Keys
              && forall a :: a in s.attempts ==>
                   t.attempts[a] == if a == attempt then Attempt(s.attempts[a].task, s.attempts[a].version, Errored) else s.attempts[a]
            else t == s
  {
  }

  // ---- Actions ----

  ghost predicate BecomesAction(s: State, t: State, action: nat, status: ActionStatus) {
    && action in s.actions && t.actions == s.actions[action := Action(s.actions[action].task, s.actions[action].version, status)]
    && t.attempts == s.attempts
  }

  lemma ProposalOutcome(s: State, task: nat, version: nat, attempt: nat, action: nat)
    ensures var t := Propose(s, task, version, attempt, action);
            if WorksOn(s, task, version, attempt) && action !in s.actions
            then t == State(s.tasks, s.attempts, s.actions[action := Action(task, version, Proposed)], s.runs)
            else t == s
  {
  }

  /** The task of the action waits for answers at the version of the action. */
  predicate IsAsked(s: State, action: nat, status: ActionStatus) {
    && action in s.actions && s.actions[action].status == status && s.actions[action].task in s.tasks
    && s.tasks[s.actions[action].task].status == AwaitingConfirmation
    && s.tasks[s.actions[action].task].version == s.actions[action].version
  }

  lemma ConfirmationOutcome(s: State, action: nat)
    ensures var t := Confirm(s, action);
            if IsAsked(s, action, Proposed)
            then BecomesAction(s, t, action, Confirmed) && t.tasks == s.tasks && t.runs == s.runs
            else t == s
  {
  }

  predicate IsShownFor(s: State, a: nat, task: nat) {
    && a in s.actions && s.actions[a].task == task && task in s.tasks
    && s.tasks[task].status == AwaitingConfirmation && s.tasks[task].version == s.actions[a].version
  }

  /** One answer settles all open actions of a card, and a refusal cancels the task. A card that
      shows anything else than actions of this waiting task, or nothing open, is not answered. */
  lemma CardOutcome(s: State, task: nat, shown: set<nat>, agree: bool)
    ensures var t := AnswerCard(s, task, shown, agree);
            if (forall a :: a in shown ==> IsShownFor(s, a, task)) && (exists a :: a in shown && a in s.actions && s.actions[a].status == Proposed) then
              && t.actions.Keys == s.actions.Keys && t.attempts == s.attempts && t.runs == s.runs
              && (forall a :: a in s.actions ==>
                    t.actions[a] == if a in shown && s.actions[a].status == Proposed
                                    then Action(task, s.actions[a].version, if agree then Confirmed else Rejected) else s.actions[a])
              && BecomesTask(s, t, task, Task(if agree then AwaitingConfirmation else Cancelled, s.tasks[task].version))
            else t == s
  {
    var open := set a | a in shown && a in s.actions && s.actions[a].status.Proposed?;
    if exists a :: a in shown && a in s.actions && s.actions[a].status == Proposed {
      var a :| a in shown && a in s.actions && s.actions[a].status == Proposed;
      assert a in open;
      if forall b :: b in shown ==> IsShownFor(s, b, task) {
        assert IsShownFor(s, a, task);
        forall b | b in shown ensures Awaits(s, b) && s.actions[b].task == task { assert IsShownFor(s, b, task); }
      } else {
        var b :| b in shown && !IsShownFor(s, b, task);
        assert !(Awaits(s, b) && s.actions[b].task == task);
      }
    } else {
      assert open == {};
    }
  }

  /** A confirmed action of a waiting task starts exactly if there is room. */
  lemma ActionClaimOutcome(s: State, c: Config, action: nat, run: nat)
    requires run !in s.runs
    ensures var t := ClaimAction(s, c, action, run);
            if HasRoom(s, c) && IsAsked(s, action, Confirmed)
            then BecomesAction(s, t, action, Executing) && t.tasks == s.tasks
                 && t.runs == s.runs[run := ActionAttempt(action, s.actions[action].task, s.actions[action].version, InProgress)]
            else t == s
  {
    RoomMeansAdmitted(s, c);
  }

  lemma ExecutionOutcome(s: State, action: nat, run: nat, version: nat)
    ensures var t := CompleteAction(s, action, run, version);
            if action in s.actions && s.actions[action].status == Executing && s.actions[action].version == version
               && run in s.runs && s.runs[run].action == action && s.runs[run].status == InProgress then
              && BecomesAction(s, t, action, Executed)
              && t.runs == s.runs[run := ActionAttempt(action, s.runs[run].task, s.runs[run].version, Done)]
              && (if IsAsked(s, action, Executing) && OthersExecuted(s, action, s.actions[action].task, version)
                  then BecomesTask(s, t, s.actions[action].task, Task(Completed, version)) else t.tasks == s.tasks)
            else t == s
  {
    var t := CompleteAction(s, action, run, version);
    if t != s {
      var task := s.actions[action].task;
      forall a | a in s.actions ensures a in t.actions && (a != action ==> t.actions[a] == s.actions[a]) { }
      assert OthersExecuted(s, action, task, version) ==> AllExecuted(t, task, version);
      if !OthersExecuted(s, action, task, version) {
        var a :| a in s.actions && a != action && s.actions[a].task == task && s.actions[a].version == version && !s.actions[a].status.Executed?;
        assert a in t.actions && !AllExecuted(t, task, version);
      }
    }
  }

  lemma BrokenOffOutcome(s: State, action: nat, run: nat, version: nat, unknown: bool)
    ensures var t := EndAction(s, action, run, version, unknown);
            if action in s.actions && s.actions[action].status == Executing && s.actions[action].version == version then
              var task := s.actions[action].task;
              && BecomesAction(s, t, action, if unknown then Unknown else Faulted) && t.runs.Keys == s.runs.Keys
              && (forall r :: r in s.runs ==>
                    t.runs[r] == if r == run && s.runs[r].status == InProgress
                                 then ActionAttempt(s.runs[r].action, s.runs[r].task, s.runs[r].version, if unknown then Unsure else Errored)
                                 else s.runs[r])
              && (if task in s.tasks && s.tasks[task].status == AwaitingConfirmation && s.tasks[task].version == version
                  then BecomesTask(s, t, task, Task(if unknown then ActionUnknown else ActionFailed, version)) else t.tasks == s.tasks)
            else t == s
  {
  }

  // ---- Restart, configuration, retention ----

  /** After a restart running tasks have failed, and if any action was being executed, its
      outcome and that of all waiting tasks is unknown. */
  lemma RestartOutcome(s: State)
    ensures var t := Recover(s);
            var cut := exists a :: a in s.actions && s.actions[a].status == Executing;
            && t.tasks.Keys == s.tasks.Keys && t.actions.Keys == s.actions.Keys
            && (forall k :: k in s.tasks ==>
                  t.tasks[k] == if s.tasks[k].status == Running then Task(Failed, s.tasks[k].version)
                                else if s.tasks[k].status == AwaitingConfirmation && cut then Task(ActionUnknown, s.tasks[k].version)
                                else s.tasks[k])
            && (forall a :: a in s.actions ==>
                  t.actions[a] == if s.actions[a].status == Executing then Action(s.actions[a].task, s.actions[a].version, Unknown) else s.actions[a])
  {
  }

  /** ... and nothing is under way. */
  lemma RestartEndsWork(s: State)
    requires Linked(s)
    ensures AttemptsEnded(s, Recover(s), s.tasks.Keys, Errored) && RunsEnded(s, Recover(s), s.tasks.Keys)
    ensures UnderWay(Recover(s)) == 0
  {
    var t := Recover(s);
    assert AttemptsEnded(s, t, s.tasks.Keys, Errored) && RunsEnded(s, t, s.tasks.Keys);
    NothingUnderWay(s, t);
  }

  lemma NothingUnderWay(s: State, t: State)
    requires Linked(s) && AttemptsEnded(s, t, s.tasks.Keys, Errored) && RunsEnded(s, t, s.tasks.Keys)
    ensures UnderWay(t) == 0
  {
    forall a | a in t.attempts ensures t.attempts[a].status != InProgress { assert s.attempts[a].task in s.tasks; }
    forall r | r in t.runs ensures t.runs[r].status != InProgress {
      assert s.runs[r].action in s.actions && s.actions[s.runs[r].action].task in s.tasks;
    }
    assert (set a | a in t.attempts && t.attempts[a].status == InProgress) == {};
    assert (set r | r in t.runs && t.runs[r].status == InProgress) == {};
  }

  /** A new configuration makes every task stale that is not over and may still lead to
      something under the old one. */
  lemma ReconfigurationOutcome(s: State)
    ensures var t := Reconfigure(s);
            && t.tasks.Keys == s.tasks.Keys && WorkEnded(s, t, s.tasks.Keys)
            && forall k :: k in s.tasks ==>
                 t.tasks[k] == if s.tasks[k].status in {Completed, Cancelled, Stale, ActionUnknown} then s.tasks[k]
                               else Task(Stale, s.tasks[k].version + 1)
  {
    forall k | k in s.tasks ensures s.tasks[k].status in {Completed, Cancelled, Stale, ActionUnknown} <==> !Reconfigurable(s.tasks[k].status) {
      EachStatus(s.tasks[k].status);
    }
  }

  lemma RetentionOutcome(s: State, tasks: set<nat>)
    ensures var t := ExpirePayloads(s, tasks);
            ActionsEnded(s, t, tasks) && t.tasks == s.tasks && t.attempts == s.attempts && t.runs == s.runs
  {
  }

  // ---- No dead ends ----

  lemma {:induction false} Unused(keys: set<nat>) returns (n: nat)
    ensures n !in keys && forall k :: k in keys ==> k < n
    decreases |keys|
  {
    n := 0;
    if keys != {} {
      var k :| k in keys;
      n := Unused(keys - {k});
      if n <= k { n := k + 1; }
      assert forall j :: j in keys ==> j == k || j in keys - {k};
    }
  }

  function Roomy(s: State): Config {
    Config(true, GroupMention, Active(s) + 1)
  }

  lemma RunPair(s: State, a: Op, m: State, b: Op, t: State)
    requires m == Step(s, a) && t == Step(m, b)
    ensures Run(s, [a, b]) == t
  {
    RunTwo(s, a, b);
  }

  /** Cancelled and retried: two versions on, and nothing of it has been proposed. */
  lemma RetriedTask(s: State, task: nat) returns (t: State)
    requires ActionsLinked(s) && task in s.tasks && s.tasks[task].status != Completed
    ensures t == Run(s, [OpSetStatus(task, false, false), OpSetStatus(task, true, false)])
    ensures task in t.tasks && t.tasks[task] == Task(Pending, s.tasks[task].version + 2) && Waiting(t, task, s.tasks[task].version + 2) == {}
  {
    var m := SetStatus(s, task, false, false);
    t := SetStatus(m, task, true, false);
    OwnerOutcome(s, task, false, false);
    OwnerOutcome(m, task, true, false);
    RunPair(s, OpSetStatus(task, false, false), m, OpSetStatus(task, true, false), t);
    forall a | a in t.actions ensures a !in Waiting(t, task, s.tasks[task].version + 2) {
      assert s.actions[a].task in s.tasks && t.actions[a].version == s.actions[a].version && t.actions[a].task == s.actions[a].task;
    }
    assert Waiting(t, task, s.tasks[task].version + 2) <= t.actions.Keys;
  }

  /** Worked on without any proposal. */
  lemma WorkedTask(s: State, task: nat, version: nat) returns (ops: seq<Op>)
    requires task in s.tasks && s.tasks[task] == Task(Pending, version) && Waiting(s, task, version) == {}
    ensures var t := Run(s, ops); task in t.tasks && t.tasks[task].status == Completed
  {
    var attempt := Unused(s.attempts.Keys);
    var c := Roomy(s);
    RoomMeansAdmitted(s, c);
    ClaimOutcome(s, c, task, attempt);
    var m := ClaimTask(s, c, task, attempt);
    assert WorksOn(m, task, version, attempt) && Waiting(m, task, version) == Waiting(s, task, version);
    CompletionOutcome(m, GroupMention, task, version, attempt, {}, false);
    var claim, complete := OpClaimTask(c, task, attempt), OpCompleteTask(GroupMention, task, version, attempt, {}, false);
    RunPair(s, claim, m, complete, CompleteTask(m, GroupMention, task, version, attempt, {}, false));
    ops := [claim, complete];
  }

  /** After any run, whatever failed, was cut off or went stale: some course of the owner and
      the runtime completes the task. */
  lemma NoTaskIsStuck(s: State, before: seq<Op>, task: nat) returns (ops: seq<Op>)
    requires Initial(s) && task in Run(s, before).tasks
    ensures var t := Run(s, before + ops); task in t.tasks && t.tasks[task].status == Completed
  {
    RunCore(s, before);
    ops := [];
    var u := Run(s, before);
    if u.tasks[task].status != Completed {
      var retried := RetriedTask(u, task);
      var work := WorkedTask(retried, task, u.tasks[task].version + 2);
      ops := [OpSetStatus(task, false, false), OpSetStatus(task, true, false)] + work;
      RunsOn(u, [OpSetStatus(task, false, false), OpSetStatus(task, true, false)], work);
    }
    RunsOn(s, before, ops);
    assert Run(Run(s, before), []) == Run(s, before);
  }

  predicate OfVersion(s: State, a: nat, task: nat, version: nat) {
    a in s.actions && s.actions[a].task == task && s.actions[a].version == version
  }

  /** These actions are confirmed, and all others of this version are executed. */
  ghost predicate IsApproved(s: State, task: nat, version: nat, left: set<nat>) {
    && task in s.tasks && s.tasks[task] == Task(AwaitingConfirmation, version)
    && (forall a :: a in left ==> OfVersion(s, a, task, version) && s.actions[a].status == Confirmed)
    && (forall a :: OfVersion(s, a, task, version) && a !in left ==> s.actions[a].status == Executed)
  }

  lemma ExecuteOne(s: State, task: nat, version: nat, left: set<nat>, a: nat) returns (ops: seq<Op>)
    requires IsApproved(s, task, version, left) && a in left
    ensures var t := Run(s, ops);
            && t.actions == s.actions[a := Action(task, version, Executed)]
            && (if left == {a} then task in t.tasks && t.tasks[task] == Task(Completed, version) else IsApproved(t, task, version, left - {a}))
  {
    var run := Unused(s.runs.Keys);
    var c := Roomy(s);
    var m := StartedAction(s, task, version, left, a, c, run);
    ExecutionOutcome(m, a, run, version);
    var t := CompleteAction(m, a, run, version);
    RunPair(s, OpClaimAction(c, a, run), m, OpCompleteAction(a, run, version), t);
    ops := [OpClaimAction(c, a, run), OpCompleteAction(a, run, version)];
    if left != {a} { StillApproved(s, t, task, version, left, a); }
  }

  lemma StartedAction(s: State, task: nat, version: nat, left: set<nat>, a: nat, c: Config, run: nat) returns (t: State)
    requires IsApproved(s, task, version, left) && a in left && c == Roomy(s) && run !in s.runs
    ensures t == ClaimAction(s, c, a, run) && t.tasks == s.tasks && t.actions == s.actions[a := Action(task, version, Executing)]
    ensures run in t.runs && t.runs[run].action == a && t.runs[run].status == InProgress
    ensures IsAsked(t, a, Executing) && (OthersExecuted(t, a, task, version) <==> left == {a})
  {
    RoomMeansAdmitted(s, c);
    assert OfVersion(s, a, task, version) && IsAsked(s, a, Confirmed);
    ActionClaimOutcome(s, c, a, run);
    t := ClaimAction(s, c, a, run);
    if left == {a} {
      forall b | b in t.actions && b != a && OfVersion(t, b, task, version) ensures t.actions[b].status == Executed {
        assert OfVersion(s, b, task, version);
      }
    } else {
      var b :| b in left && b != a;
      assert OfVersion(s, b, task, version) && t.actions[b].status == Confirmed;
    }
  }

  lemma StillApproved(s: State, t: State, task: nat, version: nat, left: set<nat>, a: nat)
    requires IsApproved(s, task, version, left) && a in left
    requires t.actions == s.actions[a := Action(task, version, Executed)] && t.tasks == s.tasks
    ensures IsApproved(t, task, version, left - {a})
  {
    forall b | b in left - {a} ensures OfVersion(t, b, task, version) && t.actions[b].status == Confirmed { assert OfVersion(s, b, task, version); }
    forall b | OfVersion(t, b, task, version) && b !in left - {a} ensures t.actions[b].status == Executed {
      assert b != a ==> OfVersion(s, b, task, version);
    }
  }

  lemma {:induction false} ExecuteAll(s: State, task: nat, version: nat, left: set<nat>) returns (ops: seq<Op>)
    requires IsApproved(s, task, version, left) && left != {}
    ensures var t := Run(s, ops);
            && task in t.tasks && t.tasks[task] == Task(Completed, version) && t.actions.Keys == s.actions.Keys
            && forall a :: a in s.actions ==> t.actions[a] == if a in left then Action(task, version, Executed) else s.actions[a]
    decreases |left|
  {
    var a :| a in left;
    assert OfVersion(s, a, task, version);
    ops := ExecuteOne(s, task, version, left, a);
    if left != {a} {
      var t := Run(s, ops);
      var b :| b in left && b != a;
      assert b in left - {a};
      var more := ExecuteAll(t, task, version, left - {a});
      RunsOn(s, ops, more);
      ops := ops + more;
    }
  }

  /** What an attempt proposes can be carried out: once the owner agrees to the card, some course
      of the runtime executes every action, and with the last of them the task is complete. */
  lemma ApprovalIsCarriedOut(s: State, mode: Mode, task: nat, version: nat, attempt: nat, proposals: set<nat>) returns (ops: seq<Op>)
    requires WorksOn(s, task, version, attempt) && proposals !! s.actions.Keys && proposals != {} && mode != Proactive
    requires forall a :: OfVersion(s, a, task, version) ==> s.actions[a].status == Proposed
    ensures var t := Run(s, ops);
            && task in t.tasks && t.tasks[task] == Task(Completed, version)
            && forall a :: OfVersion(t, a, task, version) ==> t.actions[a].status == Executed
  {
    var shown := Waiting(s, task, version) + proposals;
    var complete, answer := OpCompleteTask(mode, task, version, attempt, proposals, false), OpAnswerCard(task, shown, true);
    var m := AllAreShown(s, mode, task, version, attempt, proposals);
    var t := CardApproves(m, task, version, shown);
    RunPair(s, complete, m, answer, t);
    var more := ExecuteAll(t, task, version, shown);
    RunsOn(s, [complete, answer], more);
    ops := [complete, answer] + more;
    forall a | OfVersion(Run(t, more), a, task, version) ensures Run(t, more).actions[a].status == Executed {
      assert a in shown <==> OfVersion(t, a, task, version);
    }
  }

  lemma AllAreShown(s: State, mode: Mode, task: nat, version: nat, attempt: nat, proposals: set<nat>) returns (t: State)
    requires WorksOn(s, task, version, attempt) && proposals !! s.actions.Keys && proposals != {} && mode != Proactive
    requires forall a :: OfVersion(s, a, task, version) ==> s.actions[a].status == Proposed
    ensures t == CompleteTask(s, mode, task, version, attempt, proposals, false)
    ensures task in t.tasks && t.tasks[task] == Task(AwaitingConfirmation, version)
    ensures var shown := Waiting(s, task, version) + proposals;
            && (forall a :: a in shown ==> IsShownFor(t, a, task) && t.actions[a].status == Proposed)
            && forall a :: OfVersion(t, a, task, version) ==> a in shown
  {
    t := CompleteTask(s, mode, task, version, attempt, proposals, false);
    CompletionOutcome(s, mode, task, version, attempt, proposals, false);
    CompletionRows(s, mode, task, version, attempt, proposals, false);
    assert |proposals| > 0;
    forall a | OfVersion(t, a, task, version) ensures a in Waiting(s, task, version) + proposals {
      assert a in s.actions ==> OfVersion(s, a, task, version);
    }
  }

  lemma CardApproves(s: State, task: nat, version: nat, shown: set<nat>) returns (t: State)
    requires task in s.tasks && s.tasks[task] == Task(AwaitingConfirmation, version) && shown != {}
    requires forall a :: a in shown ==> IsShownFor(s, a, task) && s.actions[a].status == Proposed
    requires forall a :: OfVersion(s, a, task, version) ==> a in shown
    ensures t == AnswerCard(s, task, shown, true) && IsApproved(t, task, version, shown)
  {
    t := AnswerCard(s, task, shown, true);
    CardOutcome(s, task, shown, true);
    var first :| first in shown;
    assert IsShownFor(s, first, task);
    forall a | a in shown ensures OfVersion(t, a, task, version) && t.actions[a].status == Confirmed { assert IsShownFor(s, a, task); }
    forall a | OfVersion(t, a, task, version) ensures a in shown { assert OfVersion(s, a, task, version); }
  }
}
