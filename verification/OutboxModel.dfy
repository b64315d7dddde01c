/** Replies on their way out: the outbox rows and their delivery attempts
    (internal/core/dispatch.go, internal/core/outbox.go, internal/core/runtime.go). */
module OutboxModel {
  import opened Options

  datatype Status =
    | Draft | Ready | Sending | Accepted | RetryableFailed | DeliveryUnknown | Failed | Unknown | Stale | Cancelled

  /** `digest` is that of the reply's input; `attempts` lists how each attempt stands, in order. */
  datatype Row = Row(route: nat, digest: nat, channel: nat, task: Option<nat>, status: Status, attempts: seq<Status>)

  datatype State = State(rows: map<nat, Row>)

  predicate Waiting(r: Row) {
    r.status.Draft? || r.status.Ready?
  }

  /** Whether the route already has a reply to this input. */
  predicate Known(s: State, route: nat, digest: nat) {
    exists i :: i in s.rows && s.rows[i].route == route && s.rows[i].digest == digest
  }

  /** Draft for a person to read, or, for a task, a delivery that is ready. */
  function Prepare(s: State, id: nat, route: nat, digest: nat, channel: nat, task: Option<nat>): State {
    if id in s.rows || Known(s, route, digest) then s
    else s.(rows := s.rows[id := Row(route, digest, channel, task, if task.Some? then Ready else Draft, [])])
  }

  function HandOver(r: Row): Row {
    r.(status := Sending, attempts := r.attempts + [Sending])
  }

  /** `matches` says that the displayed digest was given, `sendable` that all checks but that
      on the state passed. */
  function Authorize(s: State, id: nat, matches: bool, sendable: bool): State {
    if id !in s.rows || !matches || !sendable || !Waiting(s.rows[id]) then s
    else s.(rows := s.rows[id := HandOver(s.rows[id])])
  }

  /** `current` says that task, trigger and address are still those of the preparation. */
  function Begin(s: State, id: nat, current: bool): State {
    if id !in s.rows || !current || !s.rows[id].status.Ready? then s
    else s.(rows := s.rows[id := HandOver(s.rows[id])])
  }

  function EndAttempt(r: Row, n: nat, to: Status): Row {
    if 1 <= n <= |r.attempts| && r.attempts[n - 1].Sending? then r.(attempts := r.attempts[n - 1 := to]) else r
  }

  predicate Final(to: Status) {
    to.Accepted? || to.Failed? || to.Unknown?
  }

  /** The attempt row is found by its number, the outbox row by its state alone. */
  function Finish(s: State, id: nat, n: nat, to: Status): State {
    if id !in s.rows || !Final(to) then s
    else
      var r := EndAttempt(s.rows[id], n, to);
      s.(rows := s.rows[id := if r.status.Sending? then r.(status := to) else r])
  }

  function EndSending(attempts: seq<Status>, to: Status): (r: seq<Status>)
    ensures |r| == |attempts| && forall i :: 0 <= i < |r| ==> r[i] == if attempts[i].Sending? then to else attempts[i]
  {
    if attempts == [] then [] else [if attempts[0].Sending? then to else attempts[0]] + EndSending(attempts[1..], to)
  }

  function EndRow(r: Row, to: Status): Row {
    r.(status := to, attempts := EndSending(r.attempts, to))
  }

  predicate Reported(to: Status) {
    to.Accepted? || to.RetryableFailed? || to.DeliveryUnknown? || to.Failed?
  }

  function Record(s: State, id: nat, to: Status, hasReceipt: bool): State {
    if id !in s.rows || !Reported(to) || !s.rows[id].status.Sending? || (to.Accepted? && !hasReceipt) then s
    else s.(rows := s.rows[id := EndRow(s.rows[id], to)])
  }

  function Cancel(s: State, id: nat, hasReason: bool): State {
    if id !in s.rows || !hasReason || !(Waiting(s.rows[id]) || s.rows[id].status.Stale?) then s
    else s.(rows := s.rows[id := s.rows[id].(status := Cancelled)])
  }

  /** Evidence about a delivery whose outcome the platform left open. */
  function Reconcile(s: State, id: nat, accepted: bool, hasReceipt: bool, hasEvidence: bool): State {
    if id !in s.rows || !s.rows[id].status.DeliveryUnknown? || !hasEvidence || (accepted && !hasReceipt) then s
    else
      var r, to := s.rows[id], if accepted then Accepted else RetryableFailed;
      s.(rows := s.rows[id := r.(status := to, attempts := if r.attempts == [] then [] else r.attempts[|r.attempts| - 1 := to])])
  }

  function Retired(r: Row): Row {
    if Waiting(r) then r.(status := Stale) else r
  }

  function Interrupted(r: Row): Row {
    EndRow(r, Unknown).(status := if r.status.Sending? then Unknown else r.status)
  }

  predicate IsOf(r: Row, tasks: set<nat>) {
    r.task.Some? && r.task.value in tasks
  }

  function PolicyChanged(s: State, route: nat): State {
    s.(rows := map i | i in s.rows :: if s.rows[i].route == route then Retired(s.rows[i]) else s.rows[i])
  }

  function ChannelChanged(s: State, channel: nat): State {
    s.(rows := map i | i in s.rows :: if s.rows[i].channel == channel then Retired(s.rows[i]) else s.rows[i])
  }

  /** `tasks` are those of the runtime that is reconfigured. */
  function Reconfigure(s: State, tasks: set<nat>): State {
    s.(rows := map i | i in s.rows :: if IsOf(s.rows[i], tasks) then Interrupted(Retired(s.rows[i])) else s.rows[i])
  }

  /** `tasks` are those of the runtime that restarts. */
  function Restart(s: State, tasks: set<nat>): State {
    s.(rows := map i | i in s.rows :: if IsOf(s.rows[i], tasks) then Interrupted(s.rows[i]) else s.rows[i])
  }

  datatype Op =
    | OpPrepare(id: nat, route: nat, digest: nat, channel: nat, task: Option<nat>)
    | OpAuthorize(id: nat, matches: bool, sendable: bool)
    | OpBegin(id: nat, current: bool)
    | OpFinish(id: nat, n: nat, to: Status)
    | OpRecord(id: nat, to: Status, hasReceipt: bool)
    | OpCancel(id: nat, hasReason: bool)
    | OpReconcile(id: nat, accepted: bool, hasReceipt: bool, hasEvidence: bool)
    | OpPolicy(route: nat)
    | OpChannel(channel: nat)
    | OpReconfigure(tasks: set<nat>)
    | OpRestart(tasks: set<nat>)

  function Step(s: State, op: Op): State {
    match op
    case OpPrepare(id, route, digest, channel, task) => Prepare(s, id, route, digest, channel, task)
    case OpAuthorize(id, matches, sendable) => Authorize(s, id, matches, sendable)
    case OpBegin(id, current) => Begin(s, id, current)
    case OpFinish(id, n, to) => Finish(s, id, n, to)
    case OpRecord(id, to, hasReceipt) => Record(s, id, to, hasReceipt)
    case OpCancel(id, hasReason) => Cancel(s, id, hasReason)
    case OpReconcile(id, accepted, hasReceipt, hasEvidence) => Reconcile(s, id, accepted, hasReceipt, hasEvidence)
    case OpPolicy(route) => PolicyChanged(s, route)
    case OpChannel(channel) => ChannelChanged(s, channel)
    case OpReconfigure(tasks) => Reconfigure(s, tasks)
    case OpRestart(tasks) => Restart(s, tasks)
  }

  function Run(s: State, ops: seq<Op>): State
    decreases |ops|
  {
    if ops == [] then s else Run(Step(s, ops[0]), ops[1..])
  }
}
