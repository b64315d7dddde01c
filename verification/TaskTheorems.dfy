module TaskTheorems {
  import opened TaskModel

  // ---- The invariant ----

  ghost predicate AttemptsLinked(s: State) {
    forall a :: a in s.attempts ==> s.attempts[a].task in s.tasks && s.attempts[a].version <= s.tasks[s.attempts[a].task].version
  }

  ghost predicate ActionsLinked(s: State) {
    forall a :: a in s.actions ==> s.actions[a].task in s.tasks && s.actions[a].version <= s.tasks[s.actions[a].task].version
  }

  ghost predicate RunsLinked(s: State) {
    forall r :: r in s.runs ==> s.runs[r].action in s.actions && s.runs[r].task == s.actions[s.runs[r].action].task
  }

  /** Rows refer to rows that exist and to versions that exist. */
  ghost predicate Linked(s: State) {
    AttemptsLinked(s) && ActionsLinked(s) && RunsLinked(s)
  }

  ghost predicate SameWork(a: Attempt, b: Attempt) {
    a.task == b.task && a.version == b.version
  }

  /** No version of a task is ever attempted twice ... */
  ghost predicate AttemptsDiffer(s: State) {
    forall a, b :: a in s.attempts && b in s.attempts && SameWork(s.attempts[a], s.attempts[b]) ==> a == b
  }

  ghost predicate AwaitsAttempt(s: State, a: Attempt) {
    a.task in s.tasks && s.tasks[a.task].status.Pending? && a.version == s.tasks[a.task].version
  }

  /** ... and a waiting version not even once. */
  ghost predicate WaitingUnattempted(s: State) {
    forall a :: a in s.attempts ==> !AwaitsAttempt(s, s.attempts[a])
  }

  ghost predicate AttemptedOnce(s: State) {
    AttemptsDiffer(s) && WaitingUnattempted(s)
  }

  /** An attempt in progress belongs to the running, current version of its task ... */
  ghost predicate WorkIsCurrent(s: State) {
    forall a :: a in s.attempts && s.attempts[a].status.InProgress? ==> IsCurrent(s, s.attempts[a].task, s.attempts[a].version)
  }

  ghost predicate HasWorker(s: State, t: nat) {
    exists a :: a in s.attempts && s.attempts[a].task == t && s.attempts[a].status.InProgress?
  }

  /** ... and every running task has one. */
  ghost predicate RunningHasWorker(s: State) {
    forall t :: t in s.tasks && s.tasks[t].status.Running? ==> HasWorker(s, t)
  }

  ghost predicate Live(a: Action) {
    a.status.Proposed? || a.status.Confirmed? || a.status.Executing?
  }

  ghost predicate LiveIsCurrent(s: State) {
    forall a :: a in s.actions && s.actions[a].task in s.tasks && Live(s.actions[a])
      ==> s.actions[a].version == s.tasks[s.actions[a].task].version
  }

  /** An action has at most one attempt row ever, and none while it still waits. */
  ghost predicate ExecutedOnce(s: State) {
    && (forall q, r :: q in s.runs && r in s.runs && s.runs[q].action == s.runs[r].action ==> q == r)
    && (forall r :: r in s.runs && s.runs[r].action in s.actions
          ==> !s.actions[s.runs[r].action].status.Proposed? && !s.actions[s.runs[r].action].status.Confirmed?)
  }

  ghost predicate HasRun(s: State, a: nat) {
    exists r :: r in s.runs && s.runs[r].action == a && s.runs[r].status.InProgress?
  }

  ghost predicate ExecutingHasRun(s: State) {
    forall a :: a in s.actions && s.actions[a].status.Executing? ==> HasRun(s, a)
  }

  /** What holds whichever attempt a worker names when it reports. */
  ghost predicate Core(s: State) {
    Linked(s) && AttemptedOnce(s) && LiveIsCurrent(s) && ExecutedOnce(s)
  }

  ghost predicate Inv(s: State) {
    Core(s) && WorkIsCurrent(s) && RunningHasWorker(s) && ExecutingHasRun(s)
  }

  // ---- How rows may change, table by table ----

  ghost predicate TaskMoves(before: Task, after: Task) {
    && before.version <= after.version
    && (after.status.Running? ==> after == before)
    && (after.status.Pending? ==> after == before || before.version < after.version)
  }

  ghost predicate ActionMoves(before: Action, after: Action) {
    && after.task == before.task && after.version == before.version
    && (after.status.Proposed? ==> before.status.Proposed?)
    && (after.status.Confirmed? ==> before.status.Proposed? || before.status.Confirmed?)
    && (after.status.Executing? ==> before.status.Executing?)
  }

  ghost predicate TasksMove(s: State, t: State) {
    && (forall k :: k in s.tasks ==> k in t.tasks && TaskMoves(s.tasks[k], t.tasks[k]))
    && (forall k :: k in t.tasks && k !in s.tasks ==> !t.tasks[k].status.Running?)
  }

  /** An attempt in progress either stays, with its task, or ends; it stays if its task still runs. */
  ghost predicate AttemptsMove(s: State, t: State) {
    (forall a :: a in t.attempts <==> a in s.attempts) &&
    forall a :: a in s.attempts ==>
      && t.attempts[a].task == s.attempts[a].task && t.attempts[a].version == s.attempts[a].version
      && (t.attempts[a].status.InProgress? ==> t.attempts[a] == s.attempts[a] && TaskKept(s, t, s.attempts[a].task))
      && (s.attempts[a].status.InProgress? && TaskRuns(t, s.attempts[a].task) ==> t.attempts[a] == s.attempts[a])
  }

  ghost predicate AttemptsSame(s: State, t: State) {
    (forall a :: a in t.attempts <==> a in s.attempts) &&
    forall a :: a in s.attempts ==> SameWork(t.attempts[a], s.attempts[a])
  }

  ghost predicate RunsSame(s: State, t: State) {
    (forall r :: r in t.runs <==> r in s.runs) &&
    forall r :: r in s.runs ==> t.runs[r].action == s.runs[r].action && t.runs[r].task == s.runs[r].task
  }

  ghost predicate TaskKept(s: State, t: State, k: nat) {
    k in s.tasks ==> k in t.tasks && t.tasks[k] == s.tasks[k]
  }

  ghost predicate TaskRuns(t: State, k: nat) {
    k in t.tasks && t.tasks[k].status.Running?
  }

  ghost predicate VersionKept(s: State, t: State, k: nat) {
    k in s.tasks && k in t.tasks && t.tasks[k].version == s.tasks[k].version
  }

  /** Actions only move on, and only towards execution while their task keeps its version. */
  ghost predicate ActionsMove(s: State, t: State) {
    && (forall a :: a in s.actions ==> a in t.actions && ActionMoves(s.actions[a], t.actions[a]))
    && (forall a :: a in s.actions && Live(t.actions[a]) && s.actions[a].task in s.tasks ==> VersionKept(s, t, s.actions[a].task))
    && (forall a :: a in t.actions && a !in s.actions ==> IsNew(t, t.actions[a]))
  }

  ghost predicate IsNew(t: State, a: Action) {
    a.status.Proposed? && a.task in t.tasks && a.version == t.tasks[a.task].version
  }

  ghost predicate RunsMove(s: State, t: State) {
    (forall r :: r in t.runs <==> r in s.runs) &&
    forall r :: r in s.runs ==>
      && t.runs[r].action == s.runs[r].action && t.runs[r].task == s.runs[r].task
      && (s.runs[r].status.InProgress? && ActionRuns(t, s.runs[r].action) ==> t.runs[r] == s.runs[r])
  }

  ghost predicate ActionRuns(t: State, a: nat) {
    a in t.actions && t.actions[a].status.Executing?
  }

  ghost predicate CoreMoves(s: State, t: State) {
    TasksMove(s, t) && AttemptsSame(s, t) && ActionsMove(s, t) && RunsSame(s, t)
  }

  ghost predicate Evolves(s: State, t: State) {
    TasksMove(s, t) && AttemptsMove(s, t) && ActionsMove(s, t) && RunsMove(s, t)
  }

  lemma AttemptsLinkedKept(s: State, t: State)
    requires AttemptsLinked(s) && TasksMove(s, t) && AttemptsSame(s, t)
    ensures AttemptsLinked(t)
  {
  }

  lemma ActionsLinkedKept(s: State, t: State)
    requires ActionsLinked(s) && TasksMove(s, t) && ActionsMove(s, t)
    ensures ActionsLinked(t)
  {
  }

  lemma RunsLinkedKept(s: State, t: State)
    requires RunsLinked(s) && ActionsMove(s, t) && RunsSame(s, t)
    ensures RunsLinked(t)
  {
  }

  lemma AttemptsDifferKept(s: State, t: State)
    requires AttemptsDiffer(s) && AttemptsSame(s, t)
    ensures AttemptsDiffer(t)
  {
  }

  lemma WaitingKept(s: State, t: State)
    requires AttemptsLinked(s) && WaitingUnattempted(s) && TasksMove(s, t) && AttemptsSame(s, t)
    ensures WaitingUnattempted(t)
  {
  }

  lemma WorkKept(s: State, t: State)
    requires WorkIsCurrent(s) && AttemptsMove(s, t)
    ensures WorkIsCurrent(t)
  {
  }

  lemma WorkersKept(s: State, t: State)
    requires RunningHasWorker(s) && TasksMove(s, t) && AttemptsMove(s, t)
    ensures RunningHasWorker(t)
  {
  }

  lemma LiveKept(s: State, t: State)
    requires ActionsLinked(s) && LiveIsCurrent(s) && ActionsMove(s, t)
    ensures LiveIsCurrent(t)
  {
  }

  lemma OnceKept(s: State, t: State)
    requires RunsLinked(s) && ExecutedOnce(s) && ActionsMove(s, t) && RunsSame(s, t)
    ensures ExecutedOnce(t)
  {
  }

  lemma RunsKept(s: State, t: State)
    requires ExecutingHasRun(s) && ActionsMove(s, t) && RunsMove(s, t)
    ensures ExecutingHasRun(t)
  {
  }

  lemma CoreKept(s: State, t: State)
    requires Core(s) && CoreMoves(s, t)
    ensures Core(t)
  {
    AttemptsLinkedKept(s, t);
    ActionsLinkedKept(s, t);
    RunsLinkedKept(s, t);
    AttemptsDifferKept(s, t);
    WaitingKept(s, t);
    LiveKept(s, t);
    OnceKept(s, t);
  }

  lemma EvolvesMoves(s: State, t: State)
    requires Evolves(s, t)
    ensures CoreMoves(s, t)
  {
  }

  lemma EvolvesKeeps(s: State, t: State)
    requires Inv(s) && Evolves(s, t)
    ensures Inv(t)
  {
    EvolvesMoves(s, t);
    CoreKept(s, t);
    WorkKept(s, t);
    WorkersKept(s, t);
    RunsKept(s, t);
  }

  // ---- One transaction at a time ----

  lemma MovedTasks(s: State, id: nat, status: TaskStatus)
    requires id in s.tasks && !status.Running?
    ensures var t := Moved(DropWork(s, {id}), id, status); TasksMove(s, t) && AttemptsMove(s, t)
  {
  }

  lemma MovedActions(s: State, id: nat, status: TaskStatus)
    requires Linked(s) && id in s.tasks
    ensures var t := Moved(DropWork(s, {id}), id, status); ActionsMove(s, t) && RunsMove(s, t)
  {
  }

  /** Withdrawing a task's work and moving it to a new version that is not running. */
  lemma MovedEvolves(s: State, id: nat, status: TaskStatus)
    requires Linked(s) && id in s.tasks && !status.Running?
    ensures Evolves(s, Moved(DropWork(s, {id}), id, status))
  {
    MovedTasks(s, id, status);
    MovedActions(s, id, status);
  }

  lemma DecideEvolves(s: State, mode: Mode, d: Decision)
    requires Linked(s)
    ensures Evolves(s, Decide(s, mode, d))
  {
    var to := if !Closes(s, d) then if d.clarify && mode != Proactive then Clarification else Pending
              else if d.kind.Cancel? then Cancelled else Completed;
    if Decide(s, mode, d) == s {
    } else if d.id in s.tasks {
      MovedEvolves(s, d.id, to);
      assert Decide(s, mode, d) == Moved(DropWork(s, {d.id}), d.id, to);
    } else {
      assert Decide(s, mode, d) == s.(tasks := s.tasks[d.id := Task(to, 1)]);
    }
  }

  lemma {:induction false} DecideAllKeeps(s: State, mode: Mode, ds: seq<Decision>)
    requires Inv(s)
    ensures Inv(DecideAll(s, mode, ds))
    decreases |ds|
  {
    if ds != [] {
      DecideEvolves(s, mode, ds[0]);
      EvolvesKeeps(s, Decide(s, mode, ds[0]));
      DecideAllKeeps(Decide(s, mode, ds[0]), mode, ds[1..]);
    }
  }

  lemma SourceChangedEvolves(s: State, id: nat, recalled: bool)
    requires Linked(s)
    ensures Evolves(s, SourceChanged(s, id, recalled))
  {
    if id in s.tasks { MovedEvolves(s, id, if recalled then Cancelled else Stale); }
  }

  lemma MovedFirst(s: State, id: nat, status: TaskStatus)
    requires Linked(s) && id in s.tasks && !status.Running?
    ensures Evolves(s, DropWork(Moved(s, id, status), {id}))
  {
    MovedEvolves(s, id, status);
    assert Moved(DropWork(s, {id}), id, status) == DropWork(Moved(s, id, status), {id});
  }

  lemma SetStatusEvolves(s: State, id: nat, retry: bool, uncertain: bool)
    requires Linked(s)
    ensures Evolves(s, SetStatus(s, id, retry, uncertain))
  {
    if SetStatus(s, id, retry, uncertain) != s { MovedFirst(s, id, if retry then Pending else Cancelled); }
  }

  lemma ResumeEvolves(s: State, id: nat, resumable: bool)
    requires Linked(s)
    ensures Evolves(s, Resume(s, id, resumable))
  {
    if Resume(s, id, resumable) != s { MovedFirst(s, id, Pending); }
  }

  lemma TheWorker(s: State, task: nat, version: nat, attempt: nat)
    requires AttemptedOnce(s) && WorkIsCurrent(s) && Belongs(s, attempt, task, version) && IsCurrent(s, task, version)
    ensures forall a :: a in s.attempts && s.attempts[a].task == task && s.attempts[a].status.InProgress? ==> a == attempt
  {
  }

  lemma CompleteTaskTasks(s: State, mode: Mode, task: nat, version: nat, attempt: nat, proposals: set<nat>, destructive: bool)
    requires AttemptedOnce(s) && WorkIsCurrent(s)
    ensures var t := CompleteTask(s, mode, task, version, attempt, proposals, destructive); TasksMove(s, t) && AttemptsMove(s, t)
  {
    if CompleteTask(s, mode, task, version, attempt, proposals, destructive) != s { TheWorker(s, task, version, attempt); }
  }

  lemma CompleteTaskRows(s: State, mode: Mode, task: nat, version: nat, attempt: nat, proposals: set<nat>, destructive: bool)
    ensures var t := CompleteTask(s, mode, task, version, attempt, proposals, destructive); ActionsMove(s, t) && RunsMove(s, t)
  {
  }

  /** Failing keeps the invariant exactly when the caller hands back an attempt of that very
      task and version: the row to fail is looked up by its id and nothing else. */
  lemma FailTaskKeepsExactlyWhen(s: State, task: nat, version: nat, attempt: nat)
    requires Inv(s)
    ensures Inv(FailTask(s, task, version, attempt)) <==> (IsCurrent(s, task, version) ==> Belongs(s, attempt, task, version))
  {
    var t := FailTask(s, task, version, attempt);
    if IsCurrent(s, task, version) {
      if Belongs(s, attempt, task, version) {
        TheWorker(s, task, version, attempt);
        assert Evolves(s, t);
        EvolvesKeeps(s, t);
      } else {
        assert HasWorker(s, task);
        var w :| w in s.attempts && s.attempts[w].task == task && s.attempts[w].status.InProgress?;
        assert w in t.attempts && t.attempts[w].status.InProgress? && !WorkIsCurrent(t);
      }
    }
  }

  lemma ProposeEvolves(s: State, task: nat, version: nat, attempt: nat, action: nat)
    ensures Evolves(s, Propose(s, task, version, attempt, action))
  {
  }

  lemma ConfirmEvolves(s: State, action: nat)
    ensures Evolves(s, Confirm(s, action))
  {
  }

  lemma AnswerCardTasks(s: State, task: nat, shown: set<nat>, agree: bool)
    requires WorkIsCurrent(s)
    ensures var t := AnswerCard(s, task, shown, agree); TasksMove(s, t) && AttemptsMove(s, t)
  {
  }

  lemma AnswerCardRows(s: State, task: nat, shown: set<nat>, agree: bool)
    requires ExecutedOnce(s)
    ensures var t := AnswerCard(s, task, shown, agree); ActionsMove(s, t) && RunsMove(s, t)
  {
  }

  lemma CompleteActionTasks(s: State, action: nat, run: nat, version: nat)
    requires WorkIsCurrent(s)
    ensures var t := CompleteAction(s, action, run, version); TasksMove(s, t) && AttemptsMove(s, t)
  {
  }

  lemma CompleteActionRows(s: State, action: nat, run: nat, version: nat)
    requires ExecutedOnce(s)
    ensures var t := CompleteAction(s, action, run, version); ActionsMove(s, t) && RunsMove(s, t)
  {
  }

  /** Whether `run` is the attempt on which some other executing action depends. */
  ghost predicate CarriesAnother(s: State, run: nat, action: nat) {
    run in s.runs && s.runs[run].status.InProgress? && s.runs[run].action != action && ActionRuns(s, s.runs[run].action)
  }

  predicate IsExecuting(s: State, action: nat, version: nat) {
    action in s.actions && s.actions[action].status.Executing? && s.actions[action].version == version
  }

  lemma EndActionTasks(s: State, action: nat, run: nat, version: nat, unknown: bool)
    requires WorkIsCurrent(s)
    ensures var t := EndAction(s, action, run, version, unknown); TasksMove(s, t) && AttemptsMove(s, t)
  {
  }

  lemma EndActionRows(s: State, action: nat, run: nat, version: nat, unknown: bool)
    requires ExecutedOnce(s) && !CarriesAnother(s, run, action)
    ensures var t := EndAction(s, action, run, version, unknown); ActionsMove(s, t) && RunsMove(s, t)
  {
  }

  /** The same for an action whose attempt failed or has no known outcome. */
  lemma EndActionKeepsExactlyWhen(s: State, action: nat, run: nat, version: nat, unknown: bool)
    requires Inv(s)
    ensures Inv(EndAction(s, action, run, version, unknown)) <==>
            (IsExecuting(s, action, version) ==> !CarriesAnother(s, run, action))
  {
    var t := EndAction(s, action, run, version, unknown);
    if IsExecuting(s, action, version) {
      if CarriesAnother(s, run, action) {
        var other := s.runs[run].action;
        assert ActionRuns(t, other) && !t.runs[run].status.InProgress?;
        assert forall r :: r in t.runs && t.runs[r].action == other ==> r in s.runs && r == run;
      } else {
        EndActionTasks(s, action, run, version, unknown);
        EndActionRows(s, action, run, version, unknown);
        EvolvesKeeps(s, t);
      }
    }
  }

  lemma RecoverTasks(s: State)
    requires AttemptsLinked(s)
    ensures TasksMove(s, Recover(s)) && AttemptsMove(s, Recover(s))
  {
  }

  lemma RecoverRows(s: State)
    requires ActionsLinked(s) && RunsLinked(s)
    ensures ActionsMove(s, Recover(s)) && RunsMove(s, Recover(s))
  {
  }

  lemma ReconfigureTasks(s: State)
    requires AttemptsLinked(s)
    ensures TasksMove(s, Reconfigure(s)) && AttemptsMove(s, Reconfigure(s))
  {
  }

  lemma ReconfigureActions(s: State)
    requires ActionsLinked(s)
    ensures ActionsMove(s, Reconfigure(s))
  {
  }

  lemma ReconfigureRuns(s: State)
    requires ActionsLinked(s) && RunsLinked(s)
    ensures RunsMove(s, Reconfigure(s))
  {
  }

  lemma ExpirePayloadsEvolves(s: State, tasks: set<nat>)
    ensures Evolves(s, ExpirePayloads(s, tasks))
  {
  }

  lemma ClaimTaskCore(s: State, c: Config, pick: nat, attempt: nat)
    requires Core(s)
    ensures Core(ClaimTask(s, c, pick, attempt))
  {
  }

  lemma ClaimTaskKeeps(s: State, c: Config, pick: nat, attempt: nat)
    requires Inv(s)
    ensures Inv(ClaimTask(s, c, pick, attempt))
  {
    var t := ClaimTask(s, c, pick, attempt);
    if t != s {
      ClaimTaskCore(s, c, pick, attempt);
      assert WorkIsCurrent(t);
      forall k | k in t.tasks && t.tasks[k].status.Running? ensures HasWorker(t, k) {
        if k == pick {
          assert t.attempts[attempt].task == k;
        } else {
          var a :| a in s.attempts && s.attempts[a].task == k && s.attempts[a].status.InProgress?;
          assert t.attempts[a] == s.attempts[a];
        }
      }
      forall a | a in t.actions && t.actions[a].status.Executing? ensures HasRun(t, a) { assert HasRun(s, a); }
    }
  }

  lemma ClaimActionLinked(s: State, c: Config, action: nat, run: nat)
    requires Linked(s)
    ensures Linked(ClaimAction(s, c, action, run))
  {
  }

  lemma ClaimActionRuns(s: State, c: Config, action: nat, run: nat)
    requires LiveIsCurrent(s) && ExecutedOnce(s)
    ensures LiveIsCurrent(ClaimAction(s, c, action, run)) && ExecutedOnce(ClaimAction(s, c, action, run))
  {
  }

  lemma ClaimActionAttempts(s: State, c: Config, action: nat, run: nat)
    requires AttemptedOnce(s)
    ensures AttemptedOnce(ClaimAction(s, c, action, run))
  {
  }

  lemma ClaimActionCore(s: State, c: Config, action: nat, run: nat)
    requires Core(s)
    ensures Core(ClaimAction(s, c, action, run))
  {
    ClaimActionLinked(s, c, action, run);
    ClaimActionRuns(s, c, action, run);
    ClaimActionAttempts(s, c, action, run);
  }

  lemma ClaimActionKeeps(s: State, c: Config, action: nat, run: nat)
    requires Inv(s)
    ensures Inv(ClaimAction(s, c, action, run))
  {
    var t := ClaimAction(s, c, action, run);
    if t != s {
      ClaimActionCore(s, c, action, run);
      assert WorkIsCurrent(t);
      forall k | k in t.tasks && t.tasks[k].status.Running? ensures HasWorker(t, k) { assert HasWorker(s, k); }
      forall a | a in t.actions && t.actions[a].status.Executing? ensures HasRun(t, a) {
        if a == action {
          assert t.runs[run].action == a;
        } else {
          var r :| r in s.runs && s.runs[r].action == a && s.runs[r].status.InProgress?;
          assert t.runs[r] == s.runs[r];
        }
      }
    }
  }

  // ---- Whatever attempt is named ----

  lemma {:induction false} DecideAllCore(s: State, mode: Mode, ds: seq<Decision>)
    requires Core(s)
    ensures Core(DecideAll(s, mode, ds))
    decreases |ds|
  {
    if ds != [] {
      var t := Decide(s, mode, ds[0]);
      DecideEvolves(s, mode, ds[0]);
      EvolvesMoves(s, t);
      CoreKept(s, t);
      DecideAllCore(t, mode, ds[1..]);
    }
  }

  lemma CompleteTaskMoves(s: State, mode: Mode, task: nat, version: nat, attempt: nat, proposals: set<nat>, destructive: bool)
    ensures CoreMoves(s, CompleteTask(s, mode, task, version, attempt, proposals, destructive))
  {
  }

  lemma FailTaskMoves(s: State, task: nat, version: nat, attempt: nat)
    ensures CoreMoves(s, FailTask(s, task, version, attempt))
  {
  }

  lemma AnswerCardMoves(s: State, task: nat, shown: set<nat>, agree: bool)
    ensures CoreMoves(s, AnswerCard(s, task, shown, agree))
  {
  }

  lemma CompleteActionMoves(s: State, action: nat, run: nat, version: nat)
    ensures CoreMoves(s, CompleteAction(s, action, run, version))
  {
  }

  lemma EndActionMoves(s: State, action: nat, run: nat, version: nat, unknown: bool)
    ensures CoreMoves(s, EndAction(s, action, run, version, unknown))
  {
  }

  lemma OwnerStepMoves(s: State, op: Op)
    requires Linked(s) && (op.OpSourceChanged? || op.OpSetStatus? || op.OpResume? || op.OpConfirm? || op.OpAnswerCard?)
    ensures CoreMoves(s, Step(s, op))
  {
    match op
    case OpSourceChanged(k, recalled) => SourceChangedEvolves(s, k, recalled); EvolvesMoves(s, Step(s, op));
    case OpSetStatus(k, retry, uncertain) => SetStatusEvolves(s, k, retry, uncertain); EvolvesMoves(s, Step(s, op));
    case OpResume(k, ok) => ResumeEvolves(s, k, ok); EvolvesMoves(s, Step(s, op));
    case OpConfirm(a) => ConfirmEvolves(s, a); EvolvesMoves(s, Step(s, op));
    case OpAnswerCard(k, shown, agree) => AnswerCardMoves(s, k, shown, agree);
  }

  lemma WorkerStepMoves(s: State, op: Op)
    requires op.OpCompleteTask? || op.OpFailTask? || op.OpPropose? || op.OpCompleteAction? || op.OpEndAction?
    ensures CoreMoves(s, Step(s, op))
  {
    match op
    case OpCompleteTask(mode, k, v, a, ps, d) => CompleteTaskMoves(s, mode, k, v, a, ps, d);
    case OpFailTask(k, v, a) => FailTaskMoves(s, k, v, a);
    case OpPropose(k, v, at, ac) => ProposeEvolves(s, k, v, at, ac); EvolvesMoves(s, Step(s, op));
    case OpCompleteAction(a, r, v) => CompleteActionMoves(s, a, r, v);
    case OpEndAction(a, r, v, u) => EndActionMoves(s, a, r, v, u);
  }

  lemma SystemStepMoves(s: State, op: Op)
    requires Linked(s) && (op.OpRecover? || op.OpReconfigure? || op.OpExpirePayloads?)
    ensures CoreMoves(s, Step(s, op))
  {
    match op
    case OpRecover => RecoverTasks(s); RecoverRows(s); EvolvesMoves(s, Step(s, op));
    case OpReconfigure => ReconfigureTasks(s); ReconfigureActions(s); ReconfigureRuns(s); EvolvesMoves(s, Step(s, op));
    case OpExpirePayloads(ts) => ExpirePayloadsEvolves(s, ts); EvolvesMoves(s, Step(s, op));
  }

  lemma StepCore(s: State, op: Op)
    requires Core(s)
    ensures Core(Step(s, op))
  {
    if op.OpDecide? {
      DecideAllCore(s, op.mode, op.decisions);
    } else if op.OpClaimTask? {
      ClaimTaskCore(s, op.config, op.task, op.attempt);
    } else if op.OpClaimAction? {
      ClaimActionCore(s, op.config, op.action, op.run);
    } else {
      if op.OpRecover? || op.OpReconfigure? || op.OpExpirePayloads? { SystemStepMoves(s, op); }
      else if op.OpSourceChanged? || op.OpSetStatus? || op.OpResume? || op.OpConfirm? || op.OpAnswerCard? { OwnerStepMoves(s, op); }
      else { WorkerStepMoves(s, op); }
      CoreKept(s, Step(s, op));
    }
  }

  lemma {:induction false} RunCore(s: State, ops: seq<Op>)
    requires Core(s)
    ensures Core(Run(s, ops))
    decreases |ops|
  {
    if ops != [] {
      StepCore(s, ops[0]);
      RunCore(Step(s, ops[0]), ops[1..]);
    }
  }

  /** After any run at all: an action that may still be executed belongs to the version that
      its task has now. */
  lemma LiveActionsAreCurrent(s: State, ops: seq<Op>, action: nat)
    requires Initial(s) && action in Run(s, ops).actions && Live(Run(s, ops).actions[action])
    ensures var t := Run(s, ops);
            t.actions[action].task in t.tasks && t.tasks[t.actions[action].task].version == t.actions[action].version
  {
    RunCore(s, ops);
  }

  // ---- Every run ----

  /** Failures are reported with the attempt that the claim returned. */
  predicate WellAddressed(s: State, op: Op) {
    match op
    case OpFailTask(t, v, a) => Belongs(s, a, t, v)
    case OpEndAction(a, r, _, _) => r in s.runs && s.runs[r].action == a
    case _ => true
  }

  predicate Addressed(s: State, ops: seq<Op>)
    decreases |ops|
  {
    ops == [] || (WellAddressed(s, ops[0]) && Addressed(Step(s, ops[0]), ops[1..]))
  }

  lemma StepKeeps(s: State, op: Op)
    requires Inv(s) && WellAddressed(s, op)
    ensures Inv(Step(s, op))
  {
    match op
    case OpDecide(mode, ds) => DecideAllKeeps(s, mode, ds);
    case OpSourceChanged(t, recalled) => SourceChangedEvolves(s, t, recalled); EvolvesKeeps(s, Step(s, op));
    case OpClaimTask(c, t, a) => ClaimTaskKeeps(s, c, t, a);
    case OpCompleteTask(mode, t, v, a, ps, d) => CompleteTaskTasks(s, mode, t, v, a, ps, d); CompleteTaskRows(s, mode, t, v, a, ps, d); EvolvesKeeps(s, Step(s, op));
    case OpFailTask(t, v, a) => FailTaskKeepsExactlyWhen(s, t, v, a);
    case OpSetStatus(t, retry, uncertain) => SetStatusEvolves(s, t, retry, uncertain); EvolvesKeeps(s, Step(s, op));
    case OpResume(t, ok) => ResumeEvolves(s, t, ok); EvolvesKeeps(s, Step(s, op));
    case OpPropose(t, v, at, ac) => ProposeEvolves(s, t, v, at, ac); EvolvesKeeps(s, Step(s, op));
    case OpConfirm(a) => ConfirmEvolves(s, a); EvolvesKeeps(s, Step(s, op));
    case OpAnswerCard(t, shown, agree) => AnswerCardTasks(s, t, shown, agree); AnswerCardRows(s, t, shown, agree); EvolvesKeeps(s, Step(s, op));
    case OpClaimAction(c, a, r) => ClaimActionKeeps(s, c, a, r);
    case OpCompleteAction(a, r, v) => CompleteActionTasks(s, a, r, v); CompleteActionRows(s, a, r, v); EvolvesKeeps(s, Step(s, op));
    case OpEndAction(a, r, v, u) => EndActionKeepsExactlyWhen(s, a, r, v, u);
    case OpRecover => RecoverTasks(s); RecoverRows(s); EvolvesKeeps(s, Step(s, op));
    case OpReconfigure => ReconfigureTasks(s); ReconfigureActions(s); ReconfigureRuns(s); EvolvesKeeps(s, Step(s, op));
    case OpExpirePayloads(ts) => ExpirePayloadsEvolves(s, ts); EvolvesKeeps(s, Step(s, op));
  }

  lemma {:induction false} RunKeeps(s: State, ops: seq<Op>)
    requires Inv(s) && Addressed(s, ops)
    ensures Inv(Run(s, ops))
    decreases |ops|
  {
    if ops != [] {
      StepKeeps(s, ops[0]);
      RunKeeps(Step(s, ops[0]), ops[1..]);
    }
  }

  lemma {:induction false} RunsOn(s: State, a: seq<Op>, b: seq<Op>)
    ensures Run(s, a + b) == Run(Run(s, a), b)
    decreases |a|
  {
    if a == [] {
      assert a + b == b;
    } else {
      assert (a + b)[0] == a[0] && (a + b)[1..] == a[1..] + b;
      RunsOn(Step(s, a[0]), a[1..], b);
    }
  }

  lemma RunTwo(s: State, a: Op, b: Op)
    ensures Run(s, [a, b]) == Step(Step(s, a), b)
  {
    assert [a, b][1..] == [b] && [b][1..] == [];
    assert Run(Step(s, a), [b]) == Step(Step(s, a), b);
  }

  lemma RunFour(s: State, a: Op, b: Op, c: Op, d: Op)
    ensures Run(s, [a, b, c, d]) == Step(Step(Step(Step(s, a), b), c), d)
  {
    RunsOn(s, [a, b], [c, d]);
    assert [a, b] + [c, d] == [a, b, c, d];
    RunTwo(s, a, b);
    RunTwo(Step(Step(s, a), b), c, d);
  }

  /** Two tasks run, and the failure of the first is reported with the attempt of the second. */
  function MixedUpTasks(): seq<Op> {
    var c := Config(true, GroupMention, 2);
    [OpDecide(GroupMention, [Decision(NewTask, 0, false), Decision(NewTask, 1, false)]),
     OpClaimTask(c, 0, 10), OpClaimTask(c, 1, 11), OpFailTask(0, 1, 11)]
  }

  /** The failed task is left with a working attempt and the running one without. */
  lemma MixedUpTasksBreak(s: State)
    requires Initial(s)
    ensures var t := Run(s, MixedUpTasks());
            && 0 in t.tasks && t.tasks[0].status.Failed? && HasWorker(t, 0)
            && 1 in t.tasks && t.tasks[1].status.Running? && !HasWorker(t, 1)
  {
    var ops := MixedUpTasks();
    var ds := ops[0].decisions;
    assert DecideAll(s, GroupMention, ds) == Decide(Decide(s, GroupMention, ds[0]), GroupMention, ds[1]) by {
      assert ds[1..] == [ds[1]] && [ds[1]][1..] == [];
      assert DecideAll(Decide(s, GroupMention, ds[0]), GroupMention, [ds[1]]) == Decide(Decide(s, GroupMention, ds[0]), GroupMention, ds[1]);
    }
    var s1 := Step(s, ops[0]);
    assert s1 == State(map[0 := Task(Pending, 1), 1 := Task(Pending, 1)], map[], map[], map[]);
    assert Working(s1) == {} && Acting(s1) == {};
    var s2 := Step(s1, ops[1]);
    assert Working(s2) == {10} && Acting(s2) == {};
    var s3 := Step(s2, ops[2]);
    assert s3.attempts == map[10 := Attempt(0, 1, InProgress), 11 := Attempt(1, 1, InProgress)];
    var t := Step(s3, ops[3]);
    assert t.attempts[10] == Attempt(0, 1, InProgress) && t.attempts[11] == Attempt(1, 1, Errored);
    RunFour(s, ops[0], ops[1], ops[2], ops[3]);
  }

  /** One task with two confirmed actions executes both, and the end of the first is reported
      with the run of the second. */
  function MixedUpActions(): seq<Op> {
    var c := Config(true, GroupMention, 2);
    [OpDecide(GroupMention, [Decision(NewTask, 0, false)]), OpClaimTask(c, 0, 10), OpCompleteTask(GroupMention, 0, 1, 10, {20, 21}, false),
     OpAnswerCard(0, {20, 21}, true)]
    + [OpClaimAction(c, 20, 30), OpClaimAction(c, 21, 31), OpEndAction(20, 31, 1, false)]
  }

  ghost predicate BothConfirmed(s: State) {
    && s.tasks == map[0 := Task(AwaitingConfirmation, 1)] && s.attempts == map[10 := Attempt(0, 1, Done)]
    && s.actions == map[20 := Action(0, 1, Confirmed), 21 := Action(0, 1, Confirmed)] && s.runs == map[]
  }

  lemma OneTaskRunning(s: State)
    requires Initial(s)
    ensures Run(s, MixedUpActions()[..2]) == State(map[0 := Task(Running, 1)], map[10 := Attempt(0, 1, InProgress)], map[], map[])
  {
    var ops := MixedUpActions()[..2];
    assert ops[0].decisions[1..] == [];
    var s1 := Step(s, ops[0]);
    assert s1 == Decide(s, GroupMention, ops[0].decisions[0]) == State(map[0 := Task(Pending, 1)], map[], map[], map[]);
    assert Working(s1) == {} && Acting(s1) == {};
    RunTwo(s, ops[0], ops[1]);
  }

  lemma TwoActionsConfirmed(s: State)
    requires s == State(map[0 := Task(Running, 1)], map[10 := Attempt(0, 1, InProgress)], map[], map[])
    ensures BothConfirmed(Run(s, MixedUpActions()[2..4]))
  {
    var ops := MixedUpActions()[2..4];
    var t := Step(s, ops[0]);
    assert t.actions == map[20 := Action(0, 1, Proposed), 21 := Action(0, 1, Proposed)];
    assert Awaits(t, 20) && Awaits(t, 21) && 20 in {20, 21};
    RunTwo(s, ops[0], ops[1]);
  }

  lemma BothExecute(s: State)
    requires BothConfirmed(s)
    ensures var t := Run(s, MixedUpActions()[4..6]);
            && t.runs == map[30 := ActionAttempt(20, 0, 1, InProgress), 31 := ActionAttempt(21, 0, 1, InProgress)]
            && t.actions == map[20 := Action(0, 1, Executing), 21 := Action(0, 1, Executing)]
  {
    var ops := MixedUpActions()[4..6];
    assert Working(s) == {} && Acting(s) == {};
    var t := Step(s, ops[0]);
    assert t.runs == map[30 := ActionAttempt(20, 0, 1, InProgress)];
    assert Working(t) == {} && Acting(t) == {30};
    RunTwo(s, ops[0], ops[1]);
  }

  /** The second action goes on executing without any run. */
  lemma MixedUpActionsBreak(s: State)
    requires Initial(s)
    ensures ActionRuns(Run(s, MixedUpActions()), 21) && !HasRun(Run(s, MixedUpActions()), 21)
  {
    var ops := MixedUpActions();
    OneTaskRunning(s);
    TwoActionsConfirmed(Run(s, ops[..2]));
    BothExecute(Run(Run(s, ops[..2]), ops[2..4]));
    RunsOn(s, ops[..2], ops[2..4]);
    assert ops[..2] + ops[2..4] == ops[..4];
    RunsOn(s, ops[..4], ops[4..6]);
    assert ops[..4] + ops[4..6] == ops[..6];
    RunsOn(s, ops[..6], ops[6..]);
    assert ops[..6] + ops[6..] == ops && ops[6..][1..] == [];
    EndedByWrongRun(Run(s, ops[..6]));
  }

  lemma EndedByWrongRun(s: State)
    requires s.runs == map[30 := ActionAttempt(20, 0, 1, InProgress), 31 := ActionAttempt(21, 0, 1, InProgress)]
    requires s.actions == map[20 := Action(0, 1, Executing), 21 := Action(0, 1, Executing)]
    ensures ActionRuns(Run(s, [MixedUpActions()[6]]), 21) && !HasRun(Run(s, [MixedUpActions()[6]]), 21)
  {
    var op := MixedUpActions()[6];
    assert [op][1..] == [];
    var t := Step(s, op);
    assert t.runs[31] == ActionAttempt(21, 0, 1, Errored) && t.runs[30].action == 20;
    assert Run(s, [op]) == t;
  }

  ghost predicate Competes(s: State, b: nat, task: nat)
    requires b in s.attempts && task in s.tasks
  {
    s.attempts[b].task == task && (s.attempts[b].version == s.tasks[task].version || s.attempts[b].status.InProgress?)
  }

  /** `a` works on the current version of the task, and nothing else works on the task or
      ever attempted that version. */
  ghost predicate SoleWorker(s: State, a: nat, task: nat) {
    && task in s.tasks && Belongs(s, a, task, s.tasks[task].version) && s.attempts[a].status.InProgress?
    && forall b :: b in s.attempts && Competes(s, b, task) ==> b == a
  }

  lemma RunningMeansOneAttempt(s: State, task: nat)
    requires Inv(s) && task in s.tasks
    ensures s.tasks[task].status.Running? <==> exists a :: SoleWorker(s, a, task)
  {
    if s.tasks[task].status.Running? {
      assert HasWorker(s, task);
      var a :| a in s.attempts && s.attempts[a].task == task && s.attempts[a].status.InProgress?;
      assert IsCurrent(s, task, s.attempts[a].version);
      assert SoleWorker(s, a, task);
    }
    forall a | SoleWorker(s, a, task) ensures s.tasks[task].status.Running? {
      assert IsCurrent(s, s.attempts[a].task, s.attempts[a].version);
    }
  }

  /** In every reachable state a task runs exactly when one attempt works on it, and that one
      is the only attempt its current version has or ever had. */
  lemma RunsExactlyWithOneAttempt(s: State, ops: seq<Op>, task: nat)
    requires Initial(s) && Addressed(s, ops) && task in Run(s, ops).tasks
    ensures Run(s, ops).tasks[task].status.Running? <==> exists a :: SoleWorker(Run(s, ops), a, task)
  {
    RunKeeps(s, ops);
    RunningMeansOneAttempt(Run(s, ops), task);
  }

  // ---- At most once, ever ----

  /** Rows are never deleted and never come to stand for anything else. */
  ghost predicate Remembers(s: State, t: State) {
    && (forall a :: a in s.attempts ==> a in t.attempts && t.attempts[a].task == s.attempts[a].task && t.attempts[a].version == s.attempts[a].version)
    && (forall r :: r in s.runs ==> r in t.runs && t.runs[r].action == s.runs[r].action)
    && (forall a :: a in s.actions ==> a in t.actions)
  }

  lemma DecideRemembers(s: State, mode: Mode, d: Decision)
    ensures var t := Decide(s, mode, d); Remembers(s, t) && Shrinks(s, t) && NoNewExecution(s, t)
  {
    var t := Decide(s, mode, d);
    if t.attempts != s.attempts || t.actions != s.actions || t.runs != s.runs {
      assert t.(tasks := s.tasks) == DropWork(s, {d.id});
    }
  }

  lemma {:induction false} DecideAllRemembers(s: State, mode: Mode, ds: seq<Decision>)
    ensures var t := DecideAll(s, mode, ds); Remembers(s, t) && Shrinks(s, t) && NoNewExecution(s, t)
    decreases |ds|
  {
    if ds != [] {
      var m := Decide(s, mode, ds[0]);
      DecideRemembers(s, mode, ds[0]);
      DecideAllRemembers(m, mode, ds[1..]);
    }
  }

  ghost predicate Shrinks(s: State, t: State) {
    && (forall a :: a in t.attempts && t.attempts[a].status.InProgress? ==> a in s.attempts && s.attempts[a].status.InProgress?)
    && (forall r :: r in t.runs && t.runs[r].status.InProgress? ==> r in s.runs && s.runs[r].status.InProgress?)
  }

  ghost predicate NoNewExecution(s: State, t: State) {
    forall a :: ActionRuns(t, a) ==> ActionRuns(s, a)
  }

  lemma StepRemembers(s: State, op: Op)
    ensures Remembers(s, Step(s, op))
  {
    if op.OpDecide? { DecideAllRemembers(s, op.mode, op.decisions); }
  }

  lemma StepShrinks(s: State, op: Op)
    requires !op.OpClaimTask? && !op.OpClaimAction?
    ensures Shrinks(s, Step(s, op))
  {
    if op.OpDecide? { DecideAllRemembers(s, op.mode, op.decisions); }
  }

  lemma StepNoNewExecution(s: State, op: Op)
    requires !op.OpClaimAction?
    ensures NoNewExecution(s, Step(s, op))
  {
    if op.OpDecide? { DecideAllRemembers(s, op.mode, op.decisions); }
  }

  /** How often a run turns the action from not executing to executing. */
  ghost function Executions(s: State, ops: seq<Op>, action: nat): nat
    decreases |ops|
  {
    if ops == [] then 0
    else (if !ActionRuns(s, action) && ActionRuns(Step(s, ops[0]), action) then 1 else 0)
         + Executions(Step(s, ops[0]), ops[1..], action)
  }

  ghost predicate EverRun(s: State, action: nat) {
    exists r :: r in s.runs && s.runs[r].action == action
  }

  lemma {:induction false} NoSecondExecution(s: State, ops: seq<Op>, action: nat)
    requires Core(s)
    ensures Executions(s, ops, action) <= if EverRun(s, action) then 0 else 1
    decreases |ops|
  {
    if ops != [] {
      StepCore(s, ops[0]);
      NoSecondExecution(Step(s, ops[0]), ops[1..], action);
      StepExecutes(s, ops[0], action);
    }
  }

  lemma StepExecutes(s: State, op: Op, action: nat)
    requires ExecutedOnce(s)
    ensures EverRun(s, action) ==> EverRun(Step(s, op), action)
    ensures !ActionRuns(s, action) && ActionRuns(Step(s, op), action) ==> !EverRun(s, action) && EverRun(Step(s, op), action)
  {
    StepRemembers(s, op);
    if !op.OpClaimAction? { StepNoNewExecution(s, op); }
    ExecutesOnlyUnrun(s, Step(s, op), op, action);
  }

  lemma ExecutesOnlyUnrun(s: State, t: State, op: Op, action: nat)
    requires ExecutedOnce(s) && Remembers(s, t) && (op.OpClaimAction? ==> t == ClaimAction(s, op.config, op.action, op.run))
    requires !op.OpClaimAction? ==> NoNewExecution(s, t)
    ensures EverRun(s, action) ==> EverRun(t, action)
    ensures !ActionRuns(s, action) && ActionRuns(t, action) ==> !EverRun(s, action) && EverRun(t, action)
  {
    if EverRun(s, action) {
      var r :| r in s.runs && s.runs[r].action == action;
      assert r in t.runs && t.runs[r].action == action;
    }
    if !ActionRuns(s, action) && ActionRuns(t, action) {
      assert op.run in t.runs && t.runs[op.run].action == action;
    }
  }

  /** However it is interrupted, restarted or reconfigured: no action is executed twice. */
  lemma ExecutedAtMostOnce(s: State, ops: seq<Op>, action: nat)
    requires Initial(s)
    ensures Executions(s, ops, action) <= 1
  {
    NoSecondExecution(s, ops, action);
  }

  ghost predicate StartsOne(s: State, t: State, task: nat, version: nat) {
    exists a :: Belongs(t, a, task, version) && a !in s.attempts
  }

  /** How often a run starts an attempt at this version of the task. */
  ghost function Starts(s: State, ops: seq<Op>, task: nat, version: nat): nat
    decreases |ops|
  {
    if ops == [] then 0
    else (if StartsOne(s, Step(s, ops[0]), task, version) then 1 else 0)
         + Starts(Step(s, ops[0]), ops[1..], task, version)
  }

  ghost predicate EverAttempted(s: State, task: nat, version: nat) {
    exists a :: Belongs(s, a, task, version)
  }

  lemma {:induction false} NoSecondStart(s: State, ops: seq<Op>, task: nat, version: nat)
    requires Core(s)
    ensures Starts(s, ops, task, version) <= if EverAttempted(s, task, version) then 0 else 1
    decreases |ops|
  {
    if ops != [] {
      var t := Step(s, ops[0]);
      StepCore(s, ops[0]);
      StepRemembers(s, ops[0]);
      NoSecondStart(t, ops[1..], task, version);
      StartsOnlyUnattempted(s, t, task, version);
    }
  }

  lemma StartsOnlyUnattempted(s: State, t: State, task: nat, version: nat)
    requires AttemptedOnce(t) && Remembers(s, t)
    ensures EverAttempted(s, task, version) ==> EverAttempted(t, task, version) && !StartsOne(s, t, task, version)
    ensures StartsOne(s, t, task, version) ==> EverAttempted(t, task, version)
  {
    if EverAttempted(s, task, version) {
      var a :| Belongs(s, a, task, version);
      assert Belongs(t, a, task, version);
    }
  }

  lemma AttemptedAtMostOnce(s: State, ops: seq<Op>, task: nat, version: nat)
    requires Initial(s)
    ensures Starts(s, ops, task, version) <= 1
  {
    NoSecondStart(s, ops, task, version);
  }

  // ---- Concurrency ----

  lemma SubsetSize(a: set<nat>, b: set<nat>)
    requires a <= b
    ensures |a| <= |b|
  {
    assert b == a + (b - a);
  }

  lemma ActiveAfterTaskClaim(s: State, c: Config, task: nat, attempt: nat)
    ensures var t := ClaimTask(s, c, task, attempt); t == s || (Admits(s, c) && Active(t) == Active(s) + 1)
  {
    var t := ClaimTask(s, c, task, attempt);
    if t != s {
      assert Working(t) == Working(s) + {attempt};
      assert Acting(t) == Acting(s);
    }
  }

  lemma ActiveAfterActionClaim(s: State, c: Config, action: nat, run: nat)
    ensures var t := ClaimAction(s, c, action, run); t == s || (Admits(s, c) && Active(t) == Active(s) + 1)
  {
    var t := ClaimAction(s, c, action, run);
    if t != s {
      assert Acting(t) == Acting(s) + {run};
      assert Working(t) == Working(s);
    }
  }

  /** The concurrency in force at the latest claim of the run that succeeded. */
  ghost function Admitted(s: State, ops: seq<Op>, before: nat): nat
    decreases |ops|
  {
    if ops == [] then before
    else Admitted(Step(s, ops[0]), ops[1..],
      if (ops[0].OpClaimTask? || ops[0].OpClaimAction?) && Step(s, ops[0]) != s
      then (if ops[0].config.mode.Direct? then 1 else ops[0].config.concurrency) else before)
  }

  lemma {:induction false} NeverMoreThanAdmitted(s: State, ops: seq<Op>, before: nat)
    requires Active(s) <= before
    ensures Active(Run(s, ops)) <= Admitted(s, ops, before)
    decreases |ops|
  {
    if ops != [] {
      var t := Step(s, ops[0]);
      if ops[0].OpClaimTask? || ops[0].OpClaimAction? {
        if ops[0].OpClaimTask? { ActiveAfterTaskClaim(s, ops[0].config, ops[0].task, ops[0].attempt); }
        else { ActiveAfterActionClaim(s, ops[0].config, ops[0].action, ops[0].run); }
        if t == s { NeverMoreThanAdmitted(t, ops[1..], before); }
        else { NeverMoreThanAdmitted(t, ops[1..], if ops[0].config.mode.Direct? then 1 else ops[0].config.concurrency); }
      } else {
        StepShrinks(s, ops[0]);
        SubsetSize(Working(t), Working(s));
        SubsetSize(Acting(t), Acting(s));
        NeverMoreThanAdmitted(t, ops[1..], before);
      }
    }
  }

  /** Over any run at all, even one with mixed-up attempt ids. */
  lemma ConcurrencyBound(s: State, ops: seq<Op>)
    requires Initial(s)
    ensures Active(Run(s, ops)) <= Admitted(s, ops, 0)
  {
    assert Working(s) == {} && Acting(s) == {};
    NeverMoreThanAdmitted(s, ops, 0);
  }

  // ---- Nothing is left open ----

  /** What may still happen to an action, by the state of its task. */
  ghost predicate Fitting(task: TaskStatus, action: Action) {
    && (task.Pending? || task.Completed? ==> !Live(action))
    && (task.Running? ==> !action.status.Confirmed? && !action.status.Executing?)
  }

  ghost predicate ActionFits(s: State, a: nat) {
    a in s.actions && s.actions[a].task in s.tasks ==> Fitting(s.tasks[s.actions[a].task].status, s.actions[a])
  }

  ghost predicate NothingOpen(s: State) {
    forall a :: ActionFits(s, a)
  }

  lemma MovedFits(s: State, id: nat, status: TaskStatus)
    requires NothingOpen(s) && id in s.tasks
    ensures NothingOpen(Moved(DropWork(s, {id}), id, status))
  {
    var t := Moved(DropWork(s, {id}), id, status);
    forall a ensures ActionFits(t, a) { assert ActionFits(s, a); }
  }

  lemma DecideFits(s: State, mode: Mode, d: Decision)
    requires ActionsLinked(s) && NothingOpen(s)
    ensures NothingOpen(Decide(s, mode, d))
  {
    var to := if !Closes(s, d) then if d.clarify && mode != Proactive then Clarification else Pending
              else if d.kind.Cancel? then Cancelled else Completed;
    if Decide(s, mode, d) == s {
    } else if d.id in s.tasks {
      MovedFits(s, d.id, to);
      assert Decide(s, mode, d) == Moved(DropWork(s, {d.id}), d.id, to);
    } else {
      forall a ensures ActionFits(Decide(s, mode, d), a) { assert ActionFits(s, a); }
    }
  }

  lemma {:induction false} DecideAllFits(s: State, mode: Mode, ds: seq<Decision>)
    requires Core(s) && NothingOpen(s)
    ensures NothingOpen(DecideAll(s, mode, ds))
    decreases |ds|
  {
    if ds != [] {
      var t := Decide(s, mode, ds[0]);
      DecideFits(s, mode, ds[0]);
      DecideEvolves(s, mode, ds[0]);
      EvolvesMoves(s, t);
      CoreKept(s, t);
      DecideAllFits(t, mode, ds[1..]);
    }
  }

  lemma MovedFirstFits(s: State, id: nat, status: TaskStatus)
    requires NothingOpen(s) && id in s.tasks
    ensures NothingOpen(DropWork(Moved(s, id, status), {id}))
  {
    MovedFits(s, id, status);
    assert Moved(DropWork(s, {id}), id, status) == DropWork(Moved(s, id, status), {id});
  }

  lemma CompleteTaskFits(s: State, mode: Mode, task: nat, version: nat, attempt: nat, proposals: set<nat>, destructive: bool)
    requires LiveIsCurrent(s) && NothingOpen(s)
    ensures NothingOpen(CompleteTask(s, mode, task, version, attempt, proposals, destructive))
  {
    var t := CompleteTask(s, mode, task, version, attempt, proposals, destructive);
    forall a ensures ActionFits(t, a) {
      assert ActionFits(s, a);
      if t != s && a in s.actions && s.actions[a].task == task && Live(s.actions[a]) {
        assert s.actions[a] == Action(task, version, Proposed);
        assert Prepared(s, task, version);
      }
    }
  }

  lemma CompleteActionFits(s: State, action: nat, run: nat, version: nat)
    requires Core(s) && NothingOpen(s)
    ensures NothingOpen(CompleteAction(s, action, run, version))
  {
    var t := CompleteAction(s, action, run, version);
    if t != s {
      LastActionCompletes(s, action, run, version);
      forall a ensures ActionFits(t, a) { assert ActionFits(s, a); }
    }
  }

  lemma OwnerStepFits(s: State, op: Op)
    requires NothingOpen(s) && (op.OpSourceChanged? || op.OpSetStatus? || op.OpResume? || op.OpConfirm? || op.OpAnswerCard?)
    ensures NothingOpen(Step(s, op))
  {
    var t := Step(s, op);
    if t != s {
      match op
      case OpSourceChanged(k, recalled) => MovedFits(s, k, if recalled then Cancelled else Stale);
      case OpSetStatus(k, retry, uncertain) => MovedFirstFits(s, k, if retry then Pending else Cancelled);
      case OpResume(k, ok) => MovedFirstFits(s, k, Pending);
      case OpConfirm(_) => forall a ensures ActionFits(t, a) { assert ActionFits(s, a); }
      case OpAnswerCard(k, shown, agree) => AnswerCardFits(s, k, shown, agree);
    }
  }

  lemma AnswerCardFits(s: State, task: nat, shown: set<nat>, agree: bool)
    requires NothingOpen(s)
    ensures NothingOpen(AnswerCard(s, task, shown, agree))
  {
    var t := AnswerCard(s, task, shown, agree);
    if t != s {
      var open :| open in shown && open in s.actions && s.actions[open].status.Proposed?;
      assert Awaits(s, open) && s.actions[open].task == task;
      forall a ensures ActionFits(t, a) {
        assert ActionFits(s, a);
        assert a in shown ==> Awaits(s, a) && s.actions[a].task == task;
      }
    }
  }

  lemma SystemStepFits(s: State, op: Op)
    requires NothingOpen(s) && (op.OpRecover? || op.OpReconfigure? || op.OpExpirePayloads? || op.OpClaimTask? || op.OpClaimAction?)
    ensures NothingOpen(Step(s, op))
  {
    forall a ensures ActionFits(Step(s, op), a) { assert ActionFits(s, a); }
  }

  lemma WorkerStepFits(s: State, op: Op)
    requires NothingOpen(s) && (op.OpFailTask? || op.OpPropose? || op.OpEndAction?)
    ensures NothingOpen(Step(s, op))
  {
    forall a ensures ActionFits(Step(s, op), a) { assert ActionFits(s, a); }
  }

  lemma StepFits(s: State, op: Op)
    requires Core(s) && NothingOpen(s)
    ensures NothingOpen(Step(s, op))
  {
    if op.OpDecide? { DecideAllFits(s, op.mode, op.decisions); }
    else if op.OpCompleteTask? { CompleteTaskFits(s, op.mode, op.task, op.version, op.attempt, op.proposals, op.destructive); }
    else if op.OpCompleteAction? { CompleteActionFits(s, op.action, op.run, op.version); }
    else if op.OpFailTask? || op.OpPropose? || op.OpEndAction? { WorkerStepFits(s, op); }
    else if op.OpSourceChanged? || op.OpSetStatus? || op.OpResume? || op.OpConfirm? || op.OpAnswerCard? { OwnerStepFits(s, op); }
    else { SystemStepFits(s, op); }
  }

  lemma {:induction false} RunFits(s: State, ops: seq<Op>)
    requires Core(s) && NothingOpen(s)
    ensures NothingOpen(Run(s, ops))
    decreases |ops|
  {
    if ops != [] {
      StepCore(s, ops[0]);
      StepFits(s, ops[0]);
      RunFits(Step(s, ops[0]), ops[1..]);
    }
  }

  /** After any run: a completed or waiting task has no action that could still be confirmed or
      executed, and while an attempt runs nothing of its task is confirmed or executing. */
  lemma NothingOpenBehindATask(s: State, ops: seq<Op>, a: nat)
    requires Initial(s) && a in Run(s, ops).actions && Run(s, ops).actions[a].task in Run(s, ops).tasks
    ensures Fitting(Run(s, ops).tasks[Run(s, ops).actions[a].task].status, Run(s, ops).actions[a])
  {
    RunFits(s, ops);
    assert ActionFits(Run(s, ops), a);
  }

  // ---- Completion through actions ----

  ghost predicate OthersExecuted(s: State, action: nat, task: nat, version: nat) {
    forall a :: a in s.actions && a != action && s.actions[a].task == task && s.actions[a].version == version ==> s.actions[a].status.Executed?
  }

  /** Executing an action changes its task exactly when the task awaits this version and no
      other action of it is left; the task is then complete, with nothing left to execute. */
  lemma LastActionCompletes(s: State, action: nat, run: nat, version: nat)
    requires Core(s) && CompleteAction(s, action, run, version) != s
    ensures s.actions[action].task in s.tasks
    ensures var t, k := CompleteAction(s, action, run, version), s.actions[action].task;
            if s.tasks[k] == Task(AwaitingConfirmation, version) && OthersExecuted(s, action, k, version)
            then t.tasks == s.tasks[k := Task(Completed, version)] && forall a :: a in t.actions && t.actions[a].task == k ==> !Live(t.actions[a])
            else t.tasks == s.tasks
  {
    var t, k := CompleteAction(s, action, run, version), s.actions[action].task;
    forall a | a in s.actions ensures a in t.actions && (a != action ==> t.actions[a] == s.actions[a]) { }
    assert AllExecuted(t, k, version) <==> OthersExecuted(s, action, k, version) by {
      if AllExecuted(t, k, version) {
        forall a | a in s.actions && a != action && s.actions[a].task == k && s.actions[a].version == version
          ensures s.actions[a].status.Executed? { assert a in t.actions; }
      }
    }
  }
}
