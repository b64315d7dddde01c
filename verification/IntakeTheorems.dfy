module IntakeTheorems {
  import opened Options
  import opened IntakeModel

  // ---- The invariant ----

  ghost predicate Withdrawn(s: State, key: nat) {
    && (key in s.messages ==> s.messages[key].availability.Recalled?)
    && (forall p :: p in s.sources && p.key == key ==> s.sources[p].state.Recalled?)
  }

  ghost predicate RecallsHold(s: State) {
    && (forall key :: key in s.recalls ==> Withdrawn(s, key))
    && (forall key :: key in s.messages && s.messages[key].availability.Recalled? ==> key in s.recalls)
  }

  ghost predicate Numbered(s: State, key: nat) {
    forall n: nat :: Place(key, n) in s.revisions <==> key in s.messages && 1 <= n <= s.messages[key].revision
  }

  ghost predicate Neighbours(s: State, p: Place) {
    p in s.revisions && Place(p.key, p.revision + 1) in s.revisions ==> s.revisions[p] != s.revisions[Place(p.key, p.revision + 1)]
  }

  ghost predicate RevisionsHold(s: State) {
    && (forall key :: key in s.messages ==> s.messages[key].revision >= 1)
    && (forall key :: Numbered(s, key))
    && (forall p :: Neighbours(s, p))
  }

  ghost predicate SourcesHold(s: State) {
    forall p :: p in s.sources ==> p in s.revisions
  }

  ghost predicate Told(s: State, recall: bool, key: nat) {
    exists m :: m in s.events && s.events[m].key == key && s.events[m].kind.Recall? == recall
  }

  /** Withdrawn and known messages are exactly those that recorded events speak of. */
  ghost predicate EventsTell(s: State) {
    && (forall key :: key in s.recalls <==> Told(s, true, key))
    && (forall key :: key in s.messages <==> Told(s, false, key))
  }

  ghost predicate Inv(s: State) {
    RecallsHold(s) && RevisionsHold(s) && SourcesHold(s) && EventsTell(s)
  }

  // ---- Events ----

  ghost predicate Fits(s: State) {
    RecallsHold(s) && RevisionsHold(s) && SourcesHold(s)
  }

  /** Everything but the withdrawal of the message that is being written. */
  ghost predicate Unsettled(s: State, key: nat) {
    && RevisionsHold(s) && SourcesHold(s) && key in s.messages
    && (forall k :: k in s.recalls && k != key ==> Withdrawn(s, k))
    && (forall k :: k in s.messages && s.messages[k].availability.Recalled? ==> k in s.recalls)
  }

  lemma SettleFits(s: State, key: nat)
    requires Unsettled(s, key)
    ensures Fits(Settle(s, key))
  {
    var t := Settle(s, key);
    forall k | k in t.recalls ensures Withdrawn(t, k) { assert k != key ==> Withdrawn(s, k); }
    forall k ensures Numbered(t, k) { assert Numbered(s, k); }
    forall p ensures Neighbours(t, p) { assert Neighbours(s, p); }
  }

  lemma WriteFits(s: State, e: Event, n: nat)
    requires Fits(s) && NewRevision(s, e) == Some(n)
    ensures var t := if e.key in s.messages then s else s.(messages := s.messages[e.key := Message(1, Available)]);
            Unsettled(WriteRevision(t, e, n), e.key)
  {
    var t := if e.key in s.messages then s else s.(messages := s.messages[e.key := Message(1, Available)]);
    var u := WriteRevision(t, e, n);
    assert Numbered(s, e.key);
    assert n == if e.key in s.messages then s.messages[e.key].revision + 1 else 1 by {
      assert e.key in s.messages ==> Place(e.key, s.messages[e.key].revision) in s.revisions;
    }
    forall k ensures Numbered(u, k) {
      assert Numbered(s, k);
      forall i: nat ensures Place(k, i) in u.revisions <==> k in u.messages && 1 <= i <= u.messages[k].revision {
        assert Place(k, i) in u.revisions <==> Place(k, i) in s.revisions || Place(k, i) == Place(e.key, n);
      }
    }
    forall p ensures Neighbours(u, p) {
      assert Neighbours(s, p);
      assert Numbered(s, p.key);
      assert Place(e.key, n + 1) !in u.revisions by { assert Numbered(u, e.key); }
      assert p == Place(e.key, n) ==> Place(p.key, p.revision + 1) !in u.revisions;
    }
    forall k | k in u.recalls && k != e.key ensures Withdrawn(u, k) { assert Withdrawn(s, k); }
  }

  lemma MessageFits(s: State, e: Event)
    requires Fits(s)
    ensures Fits(ApplyMessage(s, e))
  {
    var t := if e.key in s.messages then s else s.(messages := s.messages[e.key := Message(1, Available)]);
    match NewRevision(s, e)
    case None =>
      assert t == s by { assert Numbered(s, e.key); }
      SettleFits(s, e.key);
    case Some(n) =>
      WriteFits(s, e, n);
      SettleFits(WriteRevision(t, e, n), e.key);
  }

  lemma RecallFits(s: State, e: Event)
    requires Fits(s)
    ensures Fits(ApplyRecall(s, e))
  {
    var t := s.(recalls := s.recalls[e.key := e.at]);
    forall k ensures Numbered(t, k) { assert Numbered(s, k); }
    forall p ensures Neighbours(t, p) { assert Neighbours(s, p); }
    if e.key in s.messages {
      forall k | k in t.recalls && k != e.key ensures Withdrawn(t, k) { assert Withdrawn(s, k); }
      SettleFits(t, e.key);
    } else {
      forall k | k in t.recalls ensures Withdrawn(t, k) {
        assert k != e.key ==> Withdrawn(s, k);
        forall p ensures !(p in s.sources && p.key == e.key) {
          assert Numbered(s, e.key);
          assert p == Place(p.key, p.revision);
        }
      }
    }
  }

  lemma SettleSame(s: State, key: nat)
    requires key in s.messages
    ensures var t := Settle(s, key); t.events == s.events && t.recalls == s.recalls && forall k :: k in t.messages <==> k in s.messages
  {
  }

  lemma MessageSame(s: State, e: Event)
    ensures var t := ApplyMessage(s, e);
            && t.events == s.events && t.recalls == s.recalls
            && forall k :: k in t.messages <==> k in s.messages || k == e.key
  {
    var t := if e.key in s.messages then s else s.(messages := s.messages[e.key := Message(1, Available)]);
    match NewRevision(s, e)
    case None => SettleSame(t, e.key);
    case Some(n) => SettleSame(WriteRevision(t, e, n), e.key);
  }

  lemma RecallSame(s: State, e: Event)
    ensures var t := ApplyRecall(s, e);
            && t.events == s.events
            && (forall k :: k in t.recalls <==> k in s.recalls || k == e.key)
            && forall k :: k in t.messages <==> k in s.messages
  {
  }

  lemma IntakeKeeps(s: State, e: Event)
    requires Inv(s)
    ensures Inv(Intake(s, e))
  {
    if !e.ignored && MarkOf(e) !in s.events {
      var status := if e.kind.Recall? && e.key !in s.messages then PendingOriginal else Applied;
      var m := MarkOf(e);
      var t := s.(events := s.events[m := Entry(e.kind, e.key, status)]);
      forall k ensures Numbered(t, k) { assert Numbered(s, k); }
      forall p ensures Neighbours(t, p) { assert Neighbours(s, p); }
      forall k | k in t.recalls ensures Withdrawn(t, k) { assert Withdrawn(s, k); }
      if e.kind.Recall? { RecallFits(t, e); } else { MessageFits(t, e); }
      IntakeTells(s, e);
    }
  }

  lemma IntakeSame(s: State, e: Event)
    requires !e.ignored && MarkOf(e) !in s.events
    ensures var t, status := Intake(s, e), if e.kind.Recall? && e.key !in s.messages then PendingOriginal else Applied;
            && t.events == s.events[MarkOf(e) := Entry(e.kind, e.key, status)]
            && (forall k :: k in t.recalls <==> k in s.recalls || (e.kind.Recall? && k == e.key))
            && (forall k :: k in t.messages <==> k in s.messages || (!e.kind.Recall? && k == e.key))
  {
    var status := if e.kind.Recall? && e.key !in s.messages then PendingOriginal else Applied;
    var t := s.(events := s.events[MarkOf(e) := Entry(e.kind, e.key, status)]);
    if e.kind.Recall? { RecallSame(t, e); } else { MessageSame(t, e); }
  }

  lemma ToldAfter(s: State, t: State, m: Mark, e: Entry, recall: bool, key: nat)
    requires m !in s.events && t.events == s.events[m := e]
    ensures Told(t, recall, key) <==> Told(s, recall, key) || (recall == e.kind.Recall? && key == e.key)
  {
    if Told(s, recall, key) {
      var n :| n in s.events && s.events[n].key == key && s.events[n].kind.Recall? == recall;
      assert n in t.events && t.events[n] == s.events[n];
    }
    if recall == e.kind.Recall? && key == e.key { assert t.events[m].key == key; }
  }

  lemma IntakeTells(s: State, e: Event)
    requires EventsTell(s) && !e.ignored && MarkOf(e) !in s.events
    ensures EventsTell(Intake(s, e))
  {
    var t := Intake(s, e);
    IntakeSame(s, e);
    forall k ensures k in t.recalls <==> Told(t, true, k) { ToldAfter(s, t, MarkOf(e), t.events[MarkOf(e)], true, k); }
    forall k ensures k in t.messages <==> Told(t, false, k) { ToldAfter(s, t, MarkOf(e), t.events[MarkOf(e)], false, k); }
  }

  lemma {:induction false} ExpireKeeps(s: State, keys: seq<nat>)
    requires Inv(s)
    ensures Inv(ExpireAll(s, keys))
    decreases |keys|
  {
    if keys != [] {
      var t := ExpireOne(s, keys[0]);
      forall k ensures Numbered(t, k) { assert Numbered(s, k); }
      forall p ensures Neighbours(t, p) { assert Neighbours(s, p); }
      forall k | k in t.recalls ensures Withdrawn(t, k) { assert Withdrawn(s, k); }
      forall k, b ensures Told(t, b, k) <==> Told(s, b, k) { assert t.events == s.events; }
      ExpireKeeps(t, keys[1..]);
    }
  }

  lemma StepKeeps(s: State, op: Op)
    requires Inv(s)
    ensures Inv(Step(s, op))
  {
    match op
    case Take(e) => IntakeKeeps(s, e);
    case Expire(keys) => ExpireKeeps(s, keys);
  }

  lemma {:induction false} RunKeeps(s: State, ops: seq<Op>)
    requires Inv(s)
    ensures Inv(Run(s, ops))
    decreases |ops|
  {
    if ops != [] {
      StepKeeps(s, ops[0]);
      RunKeeps(Step(s, ops[0]), ops[1..]);
    }
  }

  // ---- Nothing recorded is forgotten ----

  ghost predicate Remembers(s: State, t: State) {
    && (forall m :: m in s.events ==> m in t.events && t.events[m] == s.events[m])
    && (forall k :: k in s.recalls ==> k in t.recalls)
    && (forall p :: p in s.revisions ==> p in t.revisions && t.revisions[p] == s.revisions[p])
    && (forall p :: p in s.sources ==> p in t.sources && Counted(s.sources[p], t.sources[p]))
  }

  ghost predicate Counted(before: Source, after: Source) {
    before.changes <= after.changes && (after.state != before.state ==> before.changes < after.changes)
  }

  lemma MessageRemembers(s: State, e: Event)
    requires RevisionsHold(s)
    ensures Remembers(s, ApplyMessage(s, e))
  {
    var t := if e.key in s.messages then s else s.(messages := s.messages[e.key := Message(1, Available)]);
    match NewRevision(s, e)
    case None => SettleRemembers(t, e.key);
    case Some(n) =>
      assert Place(e.key, n) !in s.revisions by { assert Numbered(s, e.key); }
      var u := WriteRevision(t, e, n);
      assert Remembers(s, u);
      SettleRemembers(u, e.key);
      RemembersOn(s, u, Settle(u, e.key));
  }

  lemma SettleRemembers(s: State, key: nat)
    requires key in s.messages
    ensures Remembers(s, Settle(s, key))
  {
  }

  lemma IntakeRemembers(s: State, e: Event)
    requires Inv(s)
    ensures Remembers(s, Intake(s, e)) && (e.ignored || MarkOf(e) in Intake(s, e).events)
  {
    if !e.ignored && MarkOf(e) !in s.events {
      var status := if e.kind.Recall? && e.key !in s.messages then PendingOriginal else Applied;
      var t := s.(events := s.events[MarkOf(e) := Entry(e.kind, e.key, status)]);
      assert Remembers(s, t);
      if e.kind.Recall? {
        RecallSame(t, e);
      } else {
        MessageSame(t, e);
        forall k ensures Numbered(t, k) { assert Numbered(s, k); }
        forall p ensures Neighbours(t, p) { assert Neighbours(s, p); }
        MessageRemembers(t, e);
      }
      RemembersOn(s, t, Intake(s, e));
    }
  }

  lemma {:induction false} ExpireRemembers(s: State, keys: seq<nat>)
    ensures Remembers(s, ExpireAll(s, keys))
    decreases |keys|
  {
    if keys != [] {
      var t := ExpireOne(s, keys[0]);
      assert Remembers(s, t);
      ExpireRemembers(t, keys[1..]);
      RemembersOn(s, t, ExpireAll(t, keys[1..]));
    }
  }

  lemma RemembersOn(s: State, t: State, u: State)
    requires Remembers(s, t) && Remembers(t, u)
    ensures Remembers(s, u)
  {
  }

  lemma {:induction false} RunRemembers(s: State, ops: seq<Op>)
    requires Inv(s)
    ensures Remembers(s, Run(s, ops))
    decreases |ops|
  {
    if ops != [] {
      var t := Step(s, ops[0]);
      match ops[0] { case Take(e) => IntakeRemembers(s, e); case Expire(keys) => ExpireRemembers(s, keys); }
      StepKeeps(s, ops[0]);
      RunRemembers(t, ops[1..]);
      RemembersOn(s, t, Run(s, ops));
    }
  }

  // ---- Main results ----

  lemma IntakeRecalls(s: State, e: Event)
    requires e.kind.Recall? && !e.ignored && MarkOf(e) !in s.events
    ensures e.key in Intake(s, e).recalls
  {
  }

  /** Once a recall is recorded, before or after its message, the message and all evidence
      drawn from any of its revisions are withdrawn whatever arrives or expires later. */
  lemma RecallIsForEver(s: State, before: seq<Op>, e: Event, later: seq<Op>)
    requires Initial(s) && e.kind.Recall? && !e.ignored && MarkOf(e) !in Run(s, before).events
    ensures Withdrawn(Run(Intake(Run(s, before), e), later), e.key)
  {
    RunKeeps(s, before);
    var t := Intake(Run(s, before), e);
    IntakeKeeps(Run(s, before), e);
    assert e.key in t.recalls by { IntakeRecalls(Run(s, before), e); }
    RunRemembers(t, later);
    RunKeeps(t, later);
  }

  /** The order of events does not decide what is withdrawn: a message is recalled exactly
      when some recorded event recalls it, and it exists exactly when some other event told. */
  lemma OrderDoesNotMatter(s: State, ops: seq<Op>, key: nat)
    requires Initial(s)
    ensures var t := Run(s, ops);
            && (key in t.messages <==> Told(t, false, key))
            && (key in t.messages ==> (t.messages[key].availability.Recalled? <==> Told(t, true, key)))
  {
    RunKeeps(s, ops);
  }

  /** An event that was recorded once is recognised for ever. */
  lemma ReplayChangesNothing(s: State, before: seq<Op>, e: Event, later: seq<Op>)
    requires Initial(s)
    ensures var t := Run(Intake(Run(s, before), e), later); Intake(t, e) == t
  {
    RunKeeps(s, before);
    var m := Intake(Run(s, before), e);
    IntakeKeeps(Run(s, before), e);
    IntakeRemembers(Run(s, before), e);
    RunRemembers(m, later);
  }

  /** Revisions are numbered from one without a gap, and no two neighbours hold the same content. */
  lemma RevisionsInOrder(s: State, ops: seq<Op>, key: nat, n: nat)
    requires Initial(s)
    ensures var t := Run(s, ops);
            && (Place(key, n) in t.revisions <==> key in t.messages && 1 <= n <= t.messages[key].revision)
            && Neighbours(t, Place(key, n))
  {
    RunKeeps(s, ops);
    assert Numbered(Run(s, ops), key) && Neighbours(Run(s, ops), Place(key, n));
  }

  /** The current revision of the message has this content. */
  ghost predicate Holds(s: State, key: nat, digest: nat) {
    key in s.messages && Place(key, s.messages[key].revision) in s.revisions && s.revisions[Place(key, s.messages[key].revision)] == digest
  }

  /** The newest revision holds the content of the latest event that was not a replay. */
  lemma LatestContentWins(s: State, ops: seq<Op>, e: Event)
    requires Initial(s) && !e.kind.Recall? && !e.ignored && MarkOf(e) !in Run(s, ops).events
    ensures Holds(Intake(Run(s, ops), e), e.key, e.digest)
  {
    RunKeeps(s, ops);
    ApplyKeepsContent(Run(s, ops), e);
  }

  lemma ApplyKeepsContent(s: State, e: Event)
    requires RevisionsHold(s) && !e.kind.Recall? && !e.ignored && MarkOf(e) !in s.events
    ensures Holds(Intake(s, e), e.key, e.digest)
  {
    assert Numbered(s, e.key);
  }

  /** A change of state of some evidence never goes unnoticed: its counter moves with it. */
  lemma ChangesAreCounted(s: State, before: seq<Op>, later: seq<Op>, p: Place)
    requires Initial(s) && p in Run(s, before).sources
    ensures var t, u := Run(s, before), Run(Run(s, before), later);
            p in u.sources && Counted(t.sources[p], u.sources[p])
  {
    RunKeeps(s, before);
    RunRemembers(Run(s, before), later);
  }

  ghost predicate IsTold(e: Event, key: nat) {
    !e.ignored && !e.kind.Recall? && e.key == key
  }

  /** A repetition of an event without identifier: the same origin, kind, key, sender, times and
      content. */
  ghost predicate Repeats(e: Event, c: Event) {
    && !e.ignored && e.id.None? && e.origin == c.origin && e.kind == c.kind && e.key == c.key
    && e.sender == c.sender && e.sentAt == c.sentAt && e.editedAt == c.editedAt && e.digest == c.digest
  }

  /** In every reachable state: an event without identifier that brings other content than the
      current one, say an edit back to an earlier text, is lost exactly if it repeats an event
      that was taken before; otherwise its content becomes the current one. */
  lemma EditBackIsLostExactlyWhen(s: State, ops: seq<Op>, c: Event)
    requires Initial(s) && IsTold(c, c.key) && c.id.None? && !Holds(Run(s, ops), c.key, c.digest)
    ensures var t, lost := Run(s, ops), exists i :: 0 <= i < |ops| && ops[i].Take? && Repeats(ops[i].event, c);
            && (Intake(t, c) == t <==> lost)
            && (lost || Holds(Intake(t, c), c.key, c.digest))
  {
    MarksOfRun(s, ops, MarkOf(c));
    EventsOf(Run(s, ops), c);
    if Recorded(ops, MarkOf(c)) {
      var i :| 0 <= i < |ops| && ops[i].Take? && !ops[i].event.ignored && MarkOf(ops[i].event) == MarkOf(c);
      assert Repeats(ops[i].event, c);
    } else {
      LatestContentWins(s, ops, c);
      forall i | 0 <= i < |ops| && ops[i].Take? ensures !Repeats(ops[i].event, c) {
        assert Repeats(ops[i].event, c) ==> MarkOf(ops[i].event) == MarkOf(c);
      }
    }
  }

  /** A text that comes back under the same times is lost: `b` replaced the text of `a`, and the
      text of `a` sent once more, at whatever later time it arrives, leaves `b` in place. */
  lemma EditBackIsLost(s: State, a: Event, b: Event, at: nat)
    requires Initial(s) && IsTold(a, a.key) && IsTold(b, a.key) && a.id.None? && b.digest != a.digest
    ensures var t := Run(s, [Take(a), Take(b)]); Holds(t, a.key, b.digest) && Intake(t, a.(at := at)) == t
  {
    var ops, c := [Take(a), Take(b)], a.(at := at);
    assert ops[1..] == [Take(b)] && [Take(b)][1..] == [] && [Take(a)][1..] == [];
    assert Run(s, [Take(a)]) == Run(Intake(s, a), []) == Intake(s, a);
    assert Run(s, ops) == Run(Intake(s, a), [Take(b)]) == Intake(Intake(s, a), b);
    assert MarkOf(a) != MarkOf(b) by { assert MarkOf(b).ByContent? ==> MarkOf(b).digest == b.digest; }
    MarksOfRun(s, [Take(a)], MarkOf(b));
    LatestContentWins(s, [Take(a)], b);
    assert ops[0].Take? && Repeats(ops[0].event, c);
    EditBackIsLostExactlyWhen(s, ops, c);
  }

  ghost predicate Recorded(ops: seq<Op>, m: Mark) {
    exists i :: 0 <= i < |ops| && ops[i].Take? && !ops[i].event.ignored && MarkOf(ops[i].event) == m
  }

  /** The recorded marks are those of the events that were taken. */
  lemma {:induction false} MarksOfRun(s: State, ops: seq<Op>, m: Mark)
    ensures m in Run(s, ops).events <==> m in s.events || Recorded(ops, m)
    decreases |ops|
  {
    if ops != [] {
      var t := Step(s, ops[0]);
      MarksOfRun(t, ops[1..], m);
      match ops[0] {
        case Take(e) => if !e.ignored && MarkOf(e) !in s.events { IntakeSame(s, e); }
        case Expire(keys) => ExpireSameEvents(s, keys);
      }
      if Recorded(ops[1..], m) {
        var i :| 0 <= i < |ops[1..]| && ops[1..][i].Take? && !ops[1..][i].event.ignored && MarkOf(ops[1..][i].event) == m;
        assert ops[i + 1] == ops[1..][i];
      }
      if Recorded(ops, m) {
        var i :| 0 <= i < |ops| && ops[i].Take? && !ops[i].event.ignored && MarkOf(ops[i].event) == m;
        assert i > 0 ==> ops[1..][i - 1] == ops[i];
      }
    }
  }

  lemma {:induction false} ExpireSameEvents(s: State, keys: seq<nat>)
    ensures ExpireAll(s, keys).events == s.events
    decreases |keys|
  {
    if keys != [] { ExpireSameEvents(ExpireOne(s, keys[0]), keys[1..]); }
  }

  lemma EventsOf(s: State, e: Event)
    requires IsTold(e, e.key)
    ensures Intake(s, e) == s <==> MarkOf(e) in s.events
  {
    if MarkOf(e) !in s.events { IntakeSame(s, e); }
  }
}
