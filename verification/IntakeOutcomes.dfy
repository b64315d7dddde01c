/** What one event and one expiry do, and which revisions have evidence. */
module IntakeOutcomes {
  import opened Options
  import opened IntakeModel
  import opened IntakeTheorems

  ghost predicate OtherMessagesSame(s: State, t: State, key: nat) {
    forall k :: k != key ==> (k in t.messages <==> k in s.messages) && (k in s.messages ==> t.messages[k] == s.messages[k])
  }

  ghost predicate OtherSourcesSame(s: State, t: State, key: nat) {
    forall p :: p in s.sources && p.key != key ==> p in t.sources && t.sources[p] == s.sources[p]
  }

  /** Where the content of `e` stands after it was taken. */
  function PlaceOf(s: State, e: Event): Place {
    if e.key !in s.messages then Place(e.key, 1)
    else Place(e.key, s.messages[e.key].revision + if Place(e.key, s.messages[e.key].revision) in s.revisions
                                                     && s.revisions[Place(e.key, s.messages[e.key].revision)] == e.digest then 0 else 1)
  }

  ghost predicate IsNews(s: State, e: Event) {
    IsTold(e, e.key) && MarkOf(e) !in s.events
  }

  lemma NewsIsApplied(s: State, e: Event)
    requires Inv(s) && IsNews(s, e)
    ensures var m := s.(events := s.events[MarkOf(e) := Entry(e.kind, e.key, Applied)]);
            Intake(s, e) == ApplyMessage(m, e)
    ensures NewRevision(s, e) == if Holds(s, e.key, e.digest) then None else Some(PlaceOf(s, e).revision)
    ensures e.key in s.messages ==> Place(e.key, s.messages[e.key].revision) in s.revisions
    ensures e.key !in s.messages ==> Place(e.key, 1) !in s.revisions
    ensures !Holds(s, e.key, e.digest) ==> PlaceOf(s, e) !in s.revisions
  {
    assert Numbered(s, e.key);
    assert e.key in s.messages ==> s.messages[e.key].revision >= 1;
  }

  /** News of a message: a first revision, a next one if the content differs from the current
      one, or none. Its availability stays, except that a recorded recall withdraws it. */
  lemma NewsOutcome(s: State, e: Event)
    requires Inv(s) && IsNews(s, e)
    ensures var t, p := Intake(s, e), PlaceOf(s, e);
            && t.revisions == s.revisions[p := e.digest] && t.recalls == s.recalls
            && t.events == s.events[MarkOf(e) := Entry(e.kind, e.key, Applied)]
            && OtherMessagesSame(s, t, e.key) && e.key in t.messages && t.messages[e.key].revision == p.revision
            && t.messages[e.key].availability == (if e.key in s.recalls then Recalled
                                                  else if e.key in s.messages then s.messages[e.key].availability else Available)
  {
    NewsIsApplied(s, e);
  }

  /** A new revision with a body gets its evidence, which an earlier recall withdraws at once;
      without a body, or without a new revision, there is none. */
  lemma EvidenceOutcome(s: State, e: Event)
    requires Inv(s) && IsNews(s, e)
    ensures var t, p := Intake(s, e), PlaceOf(s, e);
            var written := e.hasBody && !Holds(s, e.key, e.digest);
            && t.sources.Keys == s.sources.Keys + (if written then {p} else {})
            && (written ==> t.sources[p] == if e.key in s.recalls then Source(Recalled, 2) else Source(Available, 1))
            && OtherSourcesSame(s, t, e.key)
            && (forall q :: q in s.sources && q.key == e.key ==>
                  t.sources[q] == if e.key in s.recalls then Source(Recalled, s.sources[q].changes + 1) else s.sources[q])
  {
    NewsIsApplied(s, e);
    assert PlaceOf(s, e) in s.sources ==> PlaceOf(s, e) in s.revisions;
  }

  /** A recall is kept, with its time, and withdraws the message and all its evidence; the event
      waits for its message if that is not known yet. */
  lemma RecallOutcome(s: State, e: Event)
    requires e.kind == Recall && !e.ignored && MarkOf(e) !in s.events
    ensures var t, known := Intake(s, e), e.key in s.messages;
            && t.recalls == s.recalls[e.key := e.at] && t.revisions == s.revisions
            && t.events == s.events[MarkOf(e) := Entry(Recall, e.key, if known then Applied else PendingOriginal)]
            && t.messages == (if known then s.messages[e.key := Message(s.messages[e.key].revision, Recalled)] else s.messages)
            && t.sources.Keys == s.sources.Keys && OtherSourcesSame(s, t, e.key)
            && forall p :: p in s.sources && p.key == e.key ==>
                 t.sources[p] == if known then Source(Recalled, s.sources[p].changes + 1) else s.sources[p]
  {
  }

  /** Nothing of an ignored conversation is kept, and a replay changes nothing. */
  lemma SilentOutcome(s: State, e: Event)
    requires e.ignored || MarkOf(e) in s.events
    ensures Intake(s, e) == s
  {
  }

  ghost predicate OnlyAvailabilityDiffers(s: State, t: State) {
    && t.events == s.events && t.revisions == s.revisions && t.recalls == s.recalls
    && t.messages.Keys == s.messages.Keys && t.sources.Keys == s.sources.Keys
  }

  function Ended(m: Message, listed: bool): Message {
    if listed && m.availability == Available then Message(m.revision, Expired) else m
  }

  lemma ExpiryOfOne(s: State, key: nat)
    ensures var t := ExpireOne(s, key);
            && OnlyAvailabilityDiffers(s, t)
            && (forall k :: k in s.messages ==> t.messages[k] == Ended(s.messages[k], k == key))
            && forall p :: p in s.sources ==>
                 t.sources[p] == if p.key == key && key in s.messages && s.messages[key].availability == Available
                                 then Source(Expired, s.sources[p].changes + 1) else s.sources[p]
  {
  }

  /** Exactly the available messages of the list expire, each once, with all their evidence. */
  lemma {:induction false} ExpiryOutcome(s: State, keys: seq<nat>)
    ensures var t := ExpireAll(s, keys);
            && OnlyAvailabilityDiffers(s, t)
            && (forall k :: k in s.messages ==> t.messages[k] == Ended(s.messages[k], k in keys))
            && forall p :: p in s.sources ==>
                 t.sources[p] == if p.key in keys && p.key in s.messages && s.messages[p.key].availability == Available
                                 then Source(Expired, s.sources[p].changes + 1) else s.sources[p]
    decreases |keys|
  {
    if keys != [] {
      ExpiryOfOne(s, keys[0]);
      var m := ExpireOne(s, keys[0]);
      ExpiryOutcome(m, keys[1..]);
      forall k ensures k in keys <==> k == keys[0] || k in keys[1..] { }
    }
  }

  // ---- Which revisions have evidence ----

  /** This step of the run wrote the revision, from an event with a body. */
  ghost predicate WrittenWithBody(s: State, ops: seq<Op>, i: nat, p: Place) {
    && i < |ops| && ops[i].Take? && ops[i].event.hasBody
    && p !in Run(s, ops[..i]).revisions && p in Run(s, ops[..i + 1]).revisions
  }

  ghost predicate EverWrittenWithBody(s: State, ops: seq<Op>, p: Place) {
    exists i: nat :: WrittenWithBody(s, ops, i, p)
  }

  lemma StepEvidence(s: State, op: Op, p: Place)
    requires Inv(s)
    ensures var t := Step(s, op);
            p in t.sources <==> p in s.sources || (op.Take? && op.event.hasBody && p !in s.revisions && p in t.revisions)
  {
    match op
    case Expire(keys) => ExpiryOutcome(s, keys);
    case Take(e) =>
      if e.ignored || MarkOf(e) in s.events { SilentOutcome(s, e); }
      else if e.kind.Recall? { RecallOutcome(s, e); }
      else {
        NewsOutcome(s, e);
        EvidenceOutcome(s, e);
        NewsIsApplied(s, e);
      }
  }

  lemma {:induction false} RunConcat(s: State, a: seq<Op>, b: seq<Op>)
    ensures Run(s, a + b) == Run(Run(s, a), b)
    decreases |a|
  {
    if a == [] {
      assert a + b == b;
    } else {
      assert (a + b)[0] == a[0] && (a + b)[1..] == a[1..] + b;
      var t := Step(s, a[0]);
      RunConcat(t, a[1..], b);
    }
  }

  lemma RunOne(s: State, op: Op)
    ensures Run(s, [op]) == Step(s, op)
  {
    assert [op][1..] == [];
    var t := Step(s, op);
    assert Run(t, []) == t;
  }

  lemma RunEnd(s: State, ops: seq<Op>)
    requires ops != []
    ensures Run(s, ops) == Step(Run(s, ops[..|ops| - 1]), ops[|ops| - 1])
  {
    assert ops == ops[..|ops| - 1] + [ops[|ops| - 1]];
    RunConcat(s, ops[..|ops| - 1], [ops[|ops| - 1]]);
    RunOne(Run(s, ops[..|ops| - 1]), ops[|ops| - 1]);
  }

  /** Over any run: a revision has evidence exactly if the event that wrote it had a body. */
  lemma {:induction false} EvidenceExactlyWithBody(s: State, ops: seq<Op>, p: Place)
    requires Initial(s)
    ensures p in Run(s, ops).sources <==> EverWrittenWithBody(s, ops, p)
    decreases |ops|
  {
    if ops != [] {
      var n := |ops| - 1;
      var before := ops[..n];
      RunKeeps(s, before);
      RunEnd(s, ops);
      EvidenceExactlyWithBody(s, before, p);
      StepEvidence(Run(s, before), ops[n], p);
      assert ops[..n + 1] == ops;
      forall i: nat | i < n ensures WrittenWithBody(s, ops, i, p) <==> WrittenWithBody(s, before, i, p) {
        assert before[..i] == ops[..i] && before[..i + 1] == ops[..i + 1] && before[i] == ops[i];
      }
      assert WrittenWithBody(s, ops, n, p) <==> ops[n].Take? && ops[n].event.hasBody && p !in Run(s, before).revisions && p in Run(s, ops).revisions;
      if EverWrittenWithBody(s, ops, p) {
        var i: nat :| WrittenWithBody(s, ops, i, p);
        assert i < n ==> WrittenWithBody(s, before, i, p);
      }
      if EverWrittenWithBody(s, before, p) {
        var i: nat :| WrittenWithBody(s, before, i, p);
        assert WrittenWithBody(s, ops, i, p);
      }
    }
  }
}
