/** Platform events become messages, revisions and evidence (internal/core/message.go).
    `IntakeModel` has one function per transaction, `IntakeDesk` writes the rows in place, and
    `IntakeTheorems` says what every order of events leads to. */
module IntakeModel {
  import opened Options

  datatype Kind = Post | Edit | Recall

  /** The identity of the channel that an event came through. */
  datatype Origin = Origin(provider: nat, namespace: nat, authority: nat)

  /** `key` names the message, `digest` its content, and `ignored` says that its conversation
      is set to be ignored. */
  datatype Event = Event(
    origin: Origin, kind: Kind, id: Option<nat>, key: nat, sender: nat, sentAt: nat, editedAt: nat, digest: nat,
    hasBody: bool, at: nat, ignored: bool)

  /** What makes a redelivered event recognisable: its own identifier, or else its content. */
  datatype Mark =
    | ById(origin: Origin, kind: Kind, id: nat)
    | ByContent(origin: Origin, kind: Kind, key: nat, sender: nat, sentAt: nat, editedAt: nat, digest: nat)

  datatype EntryStatus = Applied | PendingOriginal

  datatype Entry = Entry(kind: Kind, key: nat, status: EntryStatus)

  datatype Availability = Available | Recalled | Expired

  datatype Message = Message(revision: nat, availability: Availability)

  /** One revision of one message. */
  datatype Place = Place(key: nat, revision: nat)

  /** `changes` counts the changes of state. */
  datatype Source = Source(state: Availability, changes: nat)

  datatype State = State(
    events: map<Mark, Entry>, messages: map<nat, Message>, revisions: map<Place, nat>, recalls: map<nat, nat>,
    sources: map<Place, Source>)

  ghost predicate Initial(s: State) {
    s == State(map[], map[], map[], map[], map[])
  }

  function MarkOf(e: Event): Mark {
    match e.id
    case Some(id) => ById(e.origin, e.kind, id)
    case None => ByContent(e.origin, e.kind, e.key, e.sender, e.sentAt, e.editedAt, e.digest)
  }

  function Withdraw(sources: map<Place, Source>, keys: set<nat>, to: Availability): map<Place, Source> {
    map p | p in sources :: if p.key in keys then Source(to, sources[p].changes + 1) else sources[p]
  }

  /** markRecalled: the message and every source derived from it are withdrawn. */
  function MarkRecalled(s: State, key: nat): State
    requires key in s.messages
  {
    s.(messages := s.messages[key := s.messages[key].(availability := Recalled)], sources := Withdraw(s.sources, {key}, Recalled))
  }

  function Settle(s: State, key: nat): State
    requires key in s.messages
  {
    if key in s.recalls then MarkRecalled(s, key) else s
  }

  /** The revision that an event writes, if its content is not what the newest one holds. */
  function NewRevision(s: State, e: Event): Option<nat> {
    var newest := if e.key in s.messages then s.messages[e.key].revision else 1;
    if Place(e.key, newest) !in s.revisions then Some(newest)
    else if s.revisions[Place(e.key, newest)] == e.digest then None
    else Some(newest + 1)
  }

  function WriteRevision(s: State, e: Event, n: nat): State
    requires e.key in s.messages
  {
    var p := Place(e.key, n);
    s.(revisions := s.revisions[p := e.digest],
       messages := s.messages[e.key := s.messages[e.key].(revision := n)],
       sources := if e.hasBody && p !in s.sources then s.sources[p := Source(Available, 1)] else s.sources)
  }

  function ApplyMessage(s: State, e: Event): State {
    var t := if e.key in s.messages then s else s.(messages := s.messages[e.key := Message(1, Available)]);
    match NewRevision(s, e)
    case None => Settle(t, e.key)
    case Some(n) => Settle(WriteRevision(t, e, n), e.key)
  }

  function ApplyRecall(s: State, e: Event): State {
    var t := s.(recalls := s.recalls[e.key := e.at]);
    if e.key in s.messages then MarkRecalled(t, e.key) else t
  }

  function Intake(s: State, e: Event): State {
    if e.ignored || MarkOf(e) in s.events then s
    else
      var status := if e.kind.Recall? && e.key !in s.messages then PendingOriginal else Applied;
      var t := s.(events := s.events[MarkOf(e) := Entry(e.kind, e.key, status)]);
      if e.kind.Recall? then ApplyRecall(t, e) else ApplyMessage(t, e)
  }

  /** ApplyDataSourceRetention, for one message. */
  function ExpireOne(s: State, key: nat): State {
    if key !in s.messages || !s.messages[key].availability.Available? then s
    else s.(messages := s.messages[key := s.messages[key].(availability := Expired)], sources := Withdraw(s.sources, {key}, Expired))
  }

  function ExpireAll(s: State, keys: seq<nat>): State
    decreases |keys|
  {
    if keys == [] then s else ExpireAll(ExpireOne(s, keys[0]), keys[1..])
  }

  datatype Op = Take(event: Event) | Expire(keys: seq<nat>)

  function Step(s: State, op: Op): State {
    match op
    case Take(e) => Intake(s, e)
    case Expire(keys) => ExpireAll(s, keys)
  }

  function Run(s: State, ops: seq<Op>): State
    decreases |ops|
  {
    if ops == [] then s else Run(Step(s, ops[0]), ops[1..])
  }
}
