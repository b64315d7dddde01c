/** The task, attempt and pending-action rows of one runtime (internal/core/runtime.go).
    `TaskModel` has one function per transaction, on the four tables; a transaction that the
    source refuses leaves them as they are. `TaskEngine` holds the tables and updates them
    statement by statement, and `TaskTheorems` says what every run keeps. */
module TaskModel {

  datatype Mode = Proactive | GroupMention | Direct

  datatype Config = Config(running: bool, mode: Mode, concurrency: nat)

  datatype TaskStatus =
    | Pending | Running | Completed | Cancelled | Failed | Stale | Clarification | Blocked
    | AwaitingConfirmation | ActionFailed | ActionUnknown

  datatype Task = Task(status: TaskStatus, version: nat)

  /** The status of an attempt, at a task or at a confirmed action. */
  datatype Outcome = InProgress | Done | Errored | Dropped | Unsure

  datatype Attempt = Attempt(task: nat, version: nat, status: Outcome)

  datatype ActionStatus = Proposed | Confirmed | Rejected | Executing | Executed | Faulted | Outdated | Unknown

  datatype Action = Action(task: nat, version: nat, status: ActionStatus)

  datatype ActionAttempt = ActionAttempt(action: nat, task: nat, version: nat, status: Outcome)

  datatype State = State(
    tasks: map<nat, Task>, attempts: map<nat, Attempt>, actions: map<nat, Action>, runs: map<nat, ActionAttempt>)

  ghost predicate Initial(s: State) {
    s.tasks == map[] && s.attempts == map[] && s.actions == map[] && s.runs == map[]
  }

  // ---- Row updates shared by several transactions ----

  function DropAttempts(attempts: map<nat, Attempt>, tasks: set<nat>, to: Outcome): map<nat, Attempt> {
    map a | a in attempts ::
      if attempts[a].task in tasks && attempts[a].status.InProgress? then attempts[a].(status := to) else attempts[a]
  }

  function DropRuns(runs: map<nat, ActionAttempt>, tasks: set<nat>): map<nat, ActionAttempt> {
    map r | r in runs ::
      if runs[r].task in tasks && runs[r].status.InProgress? then runs[r].(status := Unsure) else runs[r]
  }

  /** Waiting actions become outdated; one that may already have taken effect becomes unknown. */
  function DropActions(actions: map<nat, Action>, tasks: set<nat>): map<nat, Action> {
    map a | a in actions :: if actions[a].task in tasks then actions[a].(status := Withdrawn(actions[a].status)) else actions[a]
  }

  function Withdrawn(status: ActionStatus): ActionStatus {
    match status
    case Proposed => Outdated
    case Confirmed => Outdated
    case Executing => Unknown
    case other => other
  }

  /** staleRuntimeTaskWork, for one task or for several. */
  function DropWork(s: State, tasks: set<nat>): State {
    s.(attempts := DropAttempts(s.attempts, tasks, Dropped), actions := DropActions(s.actions, tasks),
       runs := DropRuns(s.runs, tasks))
  }

  function Moved(s: State, id: nat, status: TaskStatus): State
    requires id in s.tasks
  {
    s.(tasks := s.tasks[id := Task(status, s.tasks[id].version + 1)])
  }

  // ---- Decisions of a completed batch ----

  datatype DecisionKind = NewTask | Update | Cancel | Finish | Context

  /** `id` is the task that holds the decision's canonical key, or the id for a new row. */
  datatype Decision = Decision(kind: DecisionKind, id: nat, clarify: bool)

  function Closes(s: State, d: Decision): bool {
    d.kind.Cancel? || d.kind.Finish? || (d.id in s.tasks && s.tasks[d.id].status.Completed? && d.kind.NewTask?)
  }

  function Decide(s: State, mode: Mode, d: Decision): State {
    var open := if d.clarify && mode != Proactive then Clarification else Pending;
    var closed := if d.kind.Cancel? then Cancelled else Completed;
    if d.kind.Context? then s
    else if Closes(s, d) then
      if d.id !in s.tasks || s.tasks[d.id].status == closed then s
      else Moved(DropWork(s, {d.id}), d.id, closed)
    else if d.id !in s.tasks then s.(tasks := s.tasks[d.id := Task(open, 1)])
    else Moved(DropWork(s, {d.id}), d.id, open)
  }

  function DecideAll(s: State, mode: Mode, ds: seq<Decision>): State
    decreases |ds|
  {
    if ds == [] then s else DecideAll(Decide(s, mode, ds[0]), mode, ds[1..])
  }

  /** A linked message was revised or became unavailable. */
  function SourceChanged(s: State, id: nat, recalled: bool): State {
    if id !in s.tasks || s.tasks[id].status.Cancelled? then s
    else Moved(DropWork(s, {id}), id, if recalled then Cancelled else Stale)
  }

  // ---- Attempts ----

  function Working(s: State): set<nat> {
    set a | a in s.attempts && s.attempts[a].status.InProgress?
  }

  function Acting(s: State): set<nat> {
    set r | r in s.runs && s.runs[r].status.InProgress?
  }

  function Active(s: State): nat {
    |Working(s)| + |Acting(s)|
  }

  /** Whether the runtime may start one more attempt. */
  predicate Admits(s: State, c: Config) {
    c.running && Active(s) < c.concurrency && (c.mode.Direct? ==> Active(s) == 0)
  }

  /** `pick` is the row that the query chose. */
  function ClaimTask(s: State, c: Config, pick: nat, attempt: nat): State {
    if !Admits(s, c) || pick !in s.tasks || !s.tasks[pick].status.Pending? || attempt in s.attempts then s
    else s.(tasks := s.tasks[pick := s.tasks[pick].(status := Running)],
            attempts := s.attempts[attempt := Attempt(pick, s.tasks[pick].version, InProgress)])
  }

  predicate IsCurrent(s: State, task: nat, version: nat) {
    task in s.tasks && s.tasks[task] == Task(Running, version)
  }

  predicate Belongs(s: State, attempt: nat, task: nat, version: nat) {
    attempt in s.attempts && s.attempts[attempt].task == task && s.attempts[attempt].version == version
  }

  predicate Prepared(s: State, task: nat, version: nat) {
    exists a :: a in s.actions && s.actions[a] == Action(task, version, Proposed)
  }

  /** Where a finished attempt leaves its task, given the actions it proposes. */
  function Ending(s: State, mode: Mode, task: nat, version: nat, proposals: set<nat>, destructive: bool): TaskStatus {
    if proposals == {} && !Prepared(s, task, version) then Completed
    else if mode == Proactive && !(destructive && proposals != {} && !Prepared(s, task, version)) then Blocked
    else AwaitingConfirmation
  }

  /** `proposals` are the ids of the new action rows; `destructive` says that all of them are. */
  function CompleteTask(s: State, mode: Mode, task: nat, version: nat, attempt: nat, proposals: set<nat>, destructive: bool): State {
    if !IsCurrent(s, task, version) || !Belongs(s, attempt, task, version) || !s.attempts[attempt].status.InProgress?
      || !(proposals !! s.actions.Keys) then s
    else State(s.tasks[task := Task(Ending(s, mode, task, version, proposals, destructive), version)],
               s.attempts[attempt := s.attempts[attempt].(status := Done)],
               s.actions + map a | a in proposals :: Action(task, version, Proposed), s.runs)
  }

  /** The attempt row is found by its id alone. */
  function FailTask(s: State, task: nat, version: nat, attempt: nat): State {
    if !IsCurrent(s, task, version) then s
    else s.(tasks := s.tasks[task := Task(Failed, version)],
            attempts := if attempt in s.attempts then s.attempts[attempt := s.attempts[attempt].(status := Errored)] else s.attempts)
  }

  /** An owner cancels or retries; `uncertain` tells that some communication has no known outcome. */
  function SetStatus(s: State, id: nat, retry: bool, uncertain: bool): State {
    if id !in s.tasks then s
    else if retry then
      if s.tasks[id].status in {Failed, Stale, Cancelled, Clarification, Blocked, ActionFailed, ActionUnknown} && !uncertain
      then DropWork(Moved(s, id, Pending), {id}) else s
    else if s.tasks[id].status.Completed? then s
    else DropWork(Moved(s, id, Cancelled), {id})
  }

  /** `resumable` stands for the checks on routes, messages and deliveries. */
  function Resume(s: State, id: nat, resumable: bool): State {
    if id !in s.tasks || !s.tasks[id].status.Failed? || !resumable
      || exists a :: a in s.actions && s.actions[a].task == id && s.actions[a].status in {Unknown, Executing, Confirmed} then s
    else DropWork(Moved(s, id, Pending), {id})
  }

  // ---- Pending actions ----

  function Propose(s: State, task: nat, version: nat, attempt: nat, action: nat): State {
    if !IsCurrent(s, task, version) || !Belongs(s, attempt, task, version) || !s.attempts[attempt].status.InProgress?
      || action in s.actions then s
    else s.(actions := s.actions[action := Action(task, version, Proposed)])
  }

  predicate Awaits(s: State, a: nat) {
    a in s.actions && s.actions[a].task in s.tasks
    && s.tasks[s.actions[a].task] == Task(AwaitingConfirmation, s.actions[a].version)
  }

  function Confirm(s: State, action: nat): State {
    if !Awaits(s, action) || !s.actions[action].status.Proposed? then s
    else s.(actions := s.actions[action := s.actions[action].(status := Confirmed)])
  }

  /** The owner's answer to a card that shows several actions of one task. */
  function AnswerCard(s: State, task: nat, shown: set<nat>, agree: bool): State {
    var open := set a | a in shown && a in s.actions && s.actions[a].status.Proposed?;
    if (exists a :: a in shown && !(Awaits(s, a) && s.actions[a].task == task)) || open == {} then s
    else s.(actions := map a | a in s.actions ::
              if a in open then s.actions[a].(status := if agree then Confirmed else Rejected) else s.actions[a],
            tasks := if agree then s.tasks else s.tasks[task := s.tasks[task].(status := Cancelled)])
  }

  function ClaimAction(s: State, c: Config, action: nat, run: nat): State {
    if !Admits(s, c) || !Awaits(s, action) || !s.actions[action].status.Confirmed? || run in s.runs then s
    else s.(actions := s.actions[action := s.actions[action].(status := Executing)],
            runs := s.runs[run := ActionAttempt(action, s.actions[action].task, s.actions[action].version, InProgress)])
  }

  predicate AllExecuted(s: State, task: nat, version: nat) {
    forall a :: a in s.actions && s.actions[a].task == task && s.actions[a].version == version ==> s.actions[a].status.Executed?
  }

  function CompleteAction(s: State, action: nat, run: nat, version: nat): State {
    if action !in s.actions || run !in s.runs || s.runs[run].action != action || s.actions[action].version != version
      || !s.actions[action].status.Executing? || !s.runs[run].status.InProgress? then s
    else
      var task := s.actions[action].task;
      var after := s.(runs := s.runs[run := s.runs[run].(status := Done)],
                      actions := s.actions[action := s.actions[action].(status := Executed)]);
      if AllExecuted(after, task, version) && task in s.tasks && s.tasks[task] == Task(AwaitingConfirmation, version)
      then after.(tasks := s.tasks[task := Task(Completed, version)]) else after
  }

  /** FailRuntimeAction and, with `unknown`, UnknownRuntimeAction: the attempt row is found by id alone. */
  function EndAction(s: State, action: nat, run: nat, version: nat, unknown: bool): State {
    if action !in s.actions || !s.actions[action].status.Executing? || s.actions[action].version != version then s
    else
      var task := s.actions[action].task;
      State(if task in s.tasks && s.tasks[task] == Task(AwaitingConfirmation, version)
            then s.tasks[task := Task(if unknown then ActionUnknown else ActionFailed, version)] else s.tasks,
            s.attempts,
            s.actions[action := s.actions[action].(status := if unknown then Unknown else Faulted)],
            if run in s.runs && s.runs[run].status.InProgress?
            then s.runs[run := s.runs[run].(status := if unknown then Unsure else Errored)] else s.runs)
  }

  // ---- Restart, configuration change and retention ----

  predicate AnyExecuting(s: State) {
    exists a :: a in s.actions && s.actions[a].status.Executing?
  }

  function Recover(s: State): State {
    var unknown := AnyExecuting(s);
    State(map t | t in s.tasks ::
            if s.tasks[t].status.Running? then s.tasks[t].(status := Failed)
            else if s.tasks[t].status.AwaitingConfirmation? && unknown then s.tasks[t].(status := ActionUnknown)
            else s.tasks[t],
          DropAttempts(s.attempts, s.tasks.Keys, Errored),
          map a | a in s.actions :: if s.actions[a].status.Executing? then s.actions[a].(status := Unknown) else s.actions[a],
          DropRuns(s.runs, s.tasks.Keys))
  }

  predicate Reconfigurable(status: TaskStatus) {
    status in {Pending, Running, Clarification, Blocked, AwaitingConfirmation, Failed, ActionFailed}
  }

  function Reconfigure(s: State): State {
    DropWork(s.(tasks := map t | t in s.tasks ::
      if Reconfigurable(s.tasks[t].status) then Task(Stale, s.tasks[t].version + 1) else s.tasks[t]), s.tasks.Keys)
  }

  /** Retention clears payloads; the attempts themselves are not told. */
  function ExpirePayloads(s: State, tasks: set<nat>): State {
    s.(actions := DropActions(s.actions, tasks))
  }

  // ---- Runs ----

  datatype Op =
    | OpDecide(mode: Mode, decisions: seq<Decision>)
    | OpSourceChanged(task: nat, recalled: bool)
    | OpClaimTask(config: Config, task: nat, attempt: nat)
    | OpCompleteTask(mode: Mode, task: nat, version: nat, attempt: nat, proposals: set<nat>, destructive: bool)
    | OpFailTask(task: nat, version: nat, attempt: nat)
    | OpSetStatus(task: nat, retry: bool, uncertain: bool)
    | OpResume(task: nat, resumable: bool)
    | OpPropose(task: nat, version: nat, attempt: nat, action: nat)
    | OpConfirm(action: nat)
    | OpAnswerCard(task: nat, shown: set<nat>, agree: bool)
    | OpClaimAction(config: Config, action: nat, run: nat)
    | OpCompleteAction(action: nat, run: nat, version: nat)
    | OpEndAction(action: nat, run: nat, version: nat, unknown: bool)
    | OpRecover
    | OpReconfigure
    | OpExpirePayloads(tasks: set<nat>)

  function Step(s: State, op: Op): State {
    match op
    case OpDecide(mode, ds) => DecideAll(s, mode, ds)
    case OpSourceChanged(t, recalled) => SourceChanged(s, t, recalled)
    case OpClaimTask(c, t, a) => ClaimTask(s, c, t, a)
    case OpCompleteTask(mode, t, v, a, ps, d) => CompleteTask(s, mode, t, v, a, ps, d)
    case OpFailTask(t, v, a) => FailTask(s, t, v, a)
    case OpSetStatus(t, retry, uncertain) => SetStatus(s, t, retry, uncertain)
    case OpResume(t, ok) => Resume(s, t, ok)
    case OpPropose(t, v, at, ac) => Propose(s, t, v, at, ac)
    case OpConfirm(a) => Confirm(s, a)
    case OpAnswerCard(t, shown, agree) => AnswerCard(s, t, shown, agree)
    case OpClaimAction(c, a, r) => ClaimAction(s, c, a, r)
    case OpCompleteAction(a, r, v) => CompleteAction(s, a, r, v)
    case OpEndAction(a, r, v, u) => EndAction(s, a, r, v, u)
    case OpRecover => Recover(s)
    case OpReconfigure => Reconfigure(s)
    case OpExpirePayloads(ts) => ExpirePayloads(s, ts)
  }

  function Run(s: State, ops: seq<Op>): State
    decreases |ops|
  {
    if ops == [] then s else Run(Step(s, ops[0]), ops[1..])
  }
}
