/** How the messages of a conversation reach the analysis of a runtime: the row that each
    runtime keeps per message, the batches, and the verified associations between two
    observations of one message (internal/core/runtime.go, internal/core/message_association.go).
    `MessageModel` has one function per transaction, `MessageDesk` updates the tables in place,
    and `MessageTheorems` says what every run keeps. */
module MessageModel {
  import opened Options

  datatype RowState =
    | Pending | WaitingReceipt | ContextOnly | Ignored | Recalled | Batched | Processed | LinkedDuplicate | AnalysisFailed

  datatype Key = Key(runtime: nat, message: nat)

  datatype Row = Row(route: nat, revision: nat, state: RowState, batch: Option<nat>, retry: nat)

  datatype Message = Message(channel: nat, revision: nat, available: bool)

  datatype BatchStatus = Analyzing | Completed | Failed

  /** `items` gives the revision at which each message was read. */
  datatype Batch = Batch(runtime: nat, status: BatchStatus, items: map<nat, nat>, attempt: nat)

  /** `since` counts the batches that existed when the association was verified. */
  datatype Link = Link(first: nat, second: nat, claim: Option<Key>, since: nat)

  /** `routes` gives the channel of each route; a batch is known by its place in creation order. */
  datatype State = State(
    routes: map<nat, nat>, messages: map<nat, Message>, rows: map<Key, Row>, batches: seq<Batch>, links: seq<Link>)

  ghost predicate Initial(s: State) {
    s.messages == map[] && s.rows == map[] && s.batches == [] && s.links == []
  }

  // ---- Messages ----

  function Arrive(s: State, m: nat, channel: nat): State {
    if m in s.messages then s else s.(messages := s.messages[m := Message(channel, 1, true)])
  }

  function Revise(s: State, m: nat): State {
    if m !in s.messages then s
    else s.(messages := s.messages[m := s.messages[m].(revision := s.messages[m].revision + 1)])
  }

  /** A recall, or the end of the retention period. */
  function SetAvailable(s: State, m: nat, available: bool): State {
    if m !in s.messages then s else s.(messages := s.messages[m := s.messages[m].(available := available)])
  }

  // ---- Synchronisation ----

  /** What is read of one message; `early` means sent before the runtime was set up. */
  datatype Sighting = Sighting(message: nat, waiting: bool, contextOnly: bool, early: bool, unaddressed: bool)

  function Sorted(g: Sighting): RowState {
    if g.contextOnly || g.early then ContextOnly
    else if g.unaddressed then Ignored
    else if g.waiting then WaitingReceipt
    else Pending
  }

  function NextState(g: Sighting, row: Row, m: Message): RowState {
    if !m.available then Recalled
    else if row.revision != m.revision || row.state.WaitingReceipt? || (g.contextOnly && row.state.Pending?) then Sorted(g)
    else row.state
  }

  function Synced(g: Sighting, row: Row, m: Message): Row {
    if NextState(g, row, m) == row.state && row.revision == m.revision then row
    else Row(row.route, m.revision, NextState(g, row, m), None, 0)
  }

  predicate Seen(s: State, route: nat, m: nat) {
    m in s.messages && route in s.routes && s.messages[m].channel == s.routes[route]
  }

  function SyncOne(s: State, runtime: nat, route: nat, g: Sighting): State {
    var k := Key(runtime, g.message);
    if !Seen(s, route, g.message) then s
    else
      var m := s.messages[g.message];
      var row := if k in s.rows then Synced(g, s.rows[k], m)
                 else Row(route, m.revision, if m.available then Sorted(g) else Recalled, None, 0);
      s.(rows := s.rows[k := row])
  }

  function Sync(s: State, runtime: nat, route: nat, gs: seq<Sighting>): State
    decreases |gs|
  {
    if gs == [] then s else Sync(SyncOne(s, runtime, route, gs[0]), runtime, route, gs[1..])
  }

  predicate Waits(s: State, k: Key, runtime: nat, route: nat) {
    k in s.rows && k.runtime == runtime && s.rows[k].route == route && s.rows[k].state.Pending?
  }

  /** The route is set to be ignored: its pending rows leave the queue. */
  function Ignore(s: State, runtime: nat, route: nat): State {
    s.(rows := map k | k in s.rows :: if Waits(s, k, runtime, route) then s.rows[k].(state := Ignored) else s.rows[k])
  }

  // ---- Claiming a batch ----

  predicate Touches(l: Link, m: nat) {
    l.first == m || l.second == m
  }

  predicate Linked(s: State, m: nat) {
    exists i :: 0 <= i < |s.links| && Touches(s.links[i], m)
  }

  predicate ClaimedElsewhere(s: State, k: Key) {
    exists i :: 0 <= i < |s.links| && Touches(s.links[i], k.message) && s.links[i].claim.Some? && s.links[i].claim.value != k
  }

  /** The other observation of an associated message leaves the queue; `deferred` are those
      that an active group Agent owns. */
  function DropDuplicates(s: State, runtime: nat, route: nat, deferred: set<nat>): State {
    s.(rows := map k | k in s.rows ::
      if Waits(s, k, runtime, route) && ((k.message in deferred && Linked(s, k.message)) || ClaimedElsewhere(s, k))
      then s.rows[k].(state := LinkedDuplicate) else s.rows[k])
  }

  function TakeLink(l: Link, k: Key): Link {
    if Touches(l, k.message) && l.claim.None? then l.(claim := Some(k)) else l
  }

  function TakeLinks(links: seq<Link>, runtime: nat, picks: seq<nat>): seq<Link>
    decreases |picks|
  {
    if picks == [] then links
    else TakeLinks(seq(|links|, i requires 0 <= i < |links| => TakeLink(links[i], Key(runtime, picks[0]))), runtime, picks[1..])
  }

  predicate Pickable(s: State, runtime: nat, route: nat, picks: seq<nat>) {
    && picks != []
    && (forall i, j :: 0 <= i < j < |picks| ==> picks[i] != picks[j])
    && forall i :: 0 <= i < |picks| ==> Waits(s, Key(runtime, picks[i]), runtime, route) && picks[i] in s.messages
  }

  /** The highest retry count among these rows. */
  ghost function MaxRetry(rows: map<Key, Row>, keys: set<Key>): (most: nat)
    requires keys <= rows.Keys
    ensures forall k :: k in keys ==> rows[k].retry <= most
    ensures most == 0 || exists k :: k in keys && rows[k].retry == most
  {
    if keys == {} then 0
    else
      var k :| k in keys;
      var rest := MaxRetry(rows, keys - {k});
      if rows[k].retry > rest then rows[k].retry else rest
  }

  function Waiting(s: State, runtime: nat, route: nat): set<Key> {
    set k | k in s.rows && Waits(s, k, runtime, route)
  }

  function TakeRow(messages: map<nat, Message>, k: Key, row: Row, runtime: nat, picks: seq<nat>, id: nat): Row {
    if k.runtime == runtime && k.message in picks && k.message in messages
      && row.revision == messages[k.message].revision && row.state.Pending?
    then row.(state := Batched, batch := Some(id)) else row
  }

  function TakeRows(messages: map<nat, Message>, rows: map<Key, Row>, runtime: nat, picks: seq<nat>, id: nat): map<Key, Row> {
    map k | k in rows :: TakeRow(messages, k, rows[k], runtime, picks, id)
  }

  function Items(s: State, picks: seq<nat>): map<nat, nat> {
    map m | m in picks && m in s.messages :: s.messages[m].revision
  }

  ghost function Take(s: State, runtime: nat, route: nat, picks: seq<nat>): State {
    var attempt := 1 + MaxRetry(s.rows, Waiting(s, runtime, route));
    s.(links := TakeLinks(s.links, runtime, picks),
       batches := s.batches + [Batch(runtime, Analyzing, Items(s, picks), attempt)],
       rows := TakeRows(s.messages, s.rows, runtime, picks, |s.batches|))
  }

  /** One eligible route: `due` when it reached its threshold or its waiting time, `picks` the
      messages read from the head of its queue. */
  datatype Sweep = Sweep(route: nat, deferred: set<nat>, due: bool, picks: seq<nat>)

  predicate Ready(s: State, runtime: nat, w: Sweep) {
    w.due && Pickable(s, runtime, w.route, w.picks)
  }

  /** Routes are swept in order; the first that is ready gives the batch. */
  ghost function Claim(s: State, runtime: nat, sweeps: seq<Sweep>): State
    decreases |sweeps|
  {
    if sweeps == [] then s
    else
      var w := sweeps[0];
      var t := DropDuplicates(s, runtime, w.route, w.deferred);
      if Ready(t, runtime, w) then Take(t, runtime, w.route, w.picks) else Claim(t, runtime, sweeps[1..])
  }

  // ---- Ending a batch ----

  predicate ItemsCurrent(s: State, items: map<nat, nat>) {
    forall m :: m in items ==> m in s.messages && s.messages[m].revision == items[m] && s.messages[m].available
  }

  function Finished(row: Row, runtime: nat, k: Key, b: nat): Row {
    if k.runtime == runtime && row.batch == Some(b) then row.(state := Processed) else row
  }

  function Complete(s: State, b: nat): State {
    if b >= |s.batches| || !s.batches[b].status.Analyzing? || !ItemsCurrent(s, s.batches[b].items) then s
    else s.(batches := s.batches[b := s.batches[b].(status := Completed)],
            rows := map k | k in s.rows :: Finished(s.rows[k], s.batches[b].runtime, k, b))
  }

  datatype Code = Unavailable | AnalysisTimeout | RuntimeRestarted | Conflict | Other

  predicate Retries(code: Code, attempt: nat) {
    code.Conflict? || ((code.Unavailable? || code.AnalysisTimeout? || code.RuntimeRestarted?) && attempt < 3)
  }

  /** `managed` says that a work lease exists for the batch. */
  function Released(row: Row, b: nat, managed: bool, again: bool): Row {
    if row.batch != Some(b) || !row.state.Batched? then row
    else if !managed then row.(state := Pending, batch := None)
    else row.(state := if again then Pending else AnalysisFailed, batch := None, retry := row.retry + 1)
  }

  function Fail(s: State, b: nat, code: Code, managed: bool): State {
    if b >= |s.batches| || !s.batches[b].status.Analyzing? then s
    else s.(batches := s.batches[b := s.batches[b].(status := Failed)],
            rows := map k | k in s.rows :: Released(s.rows[k], b, managed, Retries(code, s.batches[b].attempt)))
  }

  // ---- Confirmations and associations ----

  /** A message that answered a request for approval counts as processed. */
  function ConfirmBy(s: State, runtime: nat, route: nat, m: nat): State {
    var k := Key(runtime, m);
    if !Seen(s, route, m) || !s.messages[m].available then s
    else s.(rows := s.rows[k := if k in s.rows then s.rows[k].(state := Processed, revision := s.messages[m].revision)
                                else Row(route, s.messages[m].revision, Processed, None, 0)])
  }

  predicate Started(s: State, k: Key, first: nat, second: nat) {
    k in s.rows && (k.message == first || k.message == second) && (s.rows[k].state.Batched? || s.rows[k].state.Processed?)
  }

  /** `pick` is the started observation that the query found first. */
  predicate Associable(s: State, first: nat, second: nat, pick: Option<Key>) {
    && first < second && first in s.messages && second in s.messages
    && s.messages[first].channel != s.messages[second].channel
    && !Linked(s, first) && !Linked(s, second)
    && (pick.None? ==> forall k :: k in s.rows ==> !Started(s, k, first, second))
    && (pick.Some? ==> Started(s, pick.value, first, second))
  }

  function Associate(s: State, a: nat, b: nat, pick: Option<Key>): State {
    var (first, second) := if a > b then (b, a) else (a, b);
    if !Associable(s, first, second, pick) then s
    else s.(links := s.links + [Link(first, second, pick, |s.batches|)])
  }

  // ---- Runs ----

  datatype Op =
    | OpArrive(message: nat, channel: nat)
    | OpRevise(message: nat)
    | OpAvailable(message: nat, available: bool)
    | OpSync(runtime: nat, route: nat, sightings: seq<Sighting>)
    | OpIgnore(runtime: nat, route: nat)
    | OpClaim(runtime: nat, sweeps: seq<Sweep>)
    | OpComplete(batch: nat)
    | OpFail(batch: nat, code: Code, managed: bool)
    | OpConfirm(runtime: nat, route: nat, message: nat)
    | OpAssociate(a: nat, b: nat, pick: Option<Key>)

  ghost function Step(s: State, op: Op): State {
    match op
    case OpArrive(m, c) => Arrive(s, m, c)
    case OpRevise(m) => Revise(s, m)
    case OpAvailable(m, a) => SetAvailable(s, m, a)
    case OpSync(rt, r, gs) => Sync(s, rt, r, gs)
    case OpIgnore(rt, r) => Ignore(s, rt, r)
    case OpClaim(rt, ws) => Claim(s, rt, ws)
    case OpComplete(b) => Complete(s, b)
    case OpFail(b, code, managed) => Fail(s, b, code, managed)
    case OpConfirm(rt, r, m) => ConfirmBy(s, rt, r, m)
    case OpAssociate(a, b, pick) => Associate(s, a, b, pick)
  }

  ghost function Run(s: State, ops: seq<Op>): State
    decreases |ops|
  {
    if ops == [] then s else Run(Step(s, ops[0]), ops[1..])
  }
}
