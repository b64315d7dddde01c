module IntakeDesk {
  import opened Options
  import opened IntakeModel
  import opened IntakeTheorems
  import opened IntakeOutcomes

  /** What Intake reports of one event. */
  datatype Report = Report(duplicate: bool, status: Option<EntryStatus>, revision: nat, novel: bool, availability: Availability)

  class Desk {
    var events: map<Mark, Entry>
    var messages: map<nat, Message>
    var revisions: map<Place, nat>
    var recalls: map<nat, nat>
    var sources: map<Place, Source>

    ghost function Tables(): State
      reads this
    {
      State(events, messages, revisions, recalls, sources)
    }

    constructor ()
      ensures Tables() == State(map[], map[], map[], map[], map[])
    {
      events, messages, revisions, recalls, sources := map[], map[], map[], map[], map[];
    }

    method Intake(e: Event) returns (out: Report)
      modifies this
      ensures Tables() == IntakeModel.Intake(old(Tables()), e)
      ensures out.duplicate <==> !e.ignored && MarkOf(e) in old(events)
      ensures e.ignored ==> out == Report(false, None, 0, false, Available)
      ensures out.duplicate ==> out == Report(true, Some(old(events)[MarkOf(e)].status), 0, false, Available)
      ensures !e.ignored && !out.duplicate && e.kind.Recall? ==>
                out == Report(false, Some(if e.key in old(messages) then Applied else PendingOriginal), 0, false, Recalled)
      ensures !e.ignored && !out.duplicate && !e.kind.Recall? ==>
                && e.key in messages && out.status == Some(Applied) && out.revision == messages[e.key].revision
                && out.availability == (if e.key in recalls then Recalled else Available)
                && (Inv(old(Tables())) ==> (out.novel <==> !Holds(old(Tables()), e.key, e.digest)))
    {
      out := Report(false, None, 0, false, Available);
      if e.ignored { return; }
      ghost var s := Tables();
      var mark := if e.id.Some? then ById(e.origin, e.kind, e.id.value)
                  else ByContent(e.origin, e.kind, e.key, e.sender, e.sentAt, e.editedAt, e.digest);
      if mark in events {
        return out.(duplicate := true, status := Some(events[mark].status));
      }
      assert mark == MarkOf(e);
      var status := if e.kind == Recall && e.key !in messages then PendingOriginal else Applied;
      events := events[mark := Entry(e.kind, e.key, status)];
      if e.kind == Recall {
        ApplyRecall(e);
        out := Report(false, Some(status), 0, false, Recalled);
      } else {
        out := ApplyMessage(e);
        out := out.(status := Some(status));
        if Inv(s) { NewsIsApplied(s, e); }
      }
    }

    method ApplyRecall(e: Event)
      modifies this`messages, this`sources, this`recalls
      ensures Tables() == IntakeModel.ApplyRecall(old(Tables()), e)
    {
      recalls := recalls[e.key := e.at];
      if e.key in messages { MarkRecalled(e.key); }
    }

    method MarkRecalled(key: nat)
      requires key in messages
      modifies this`messages, this`sources
      ensures Tables() == IntakeModel.MarkRecalled(old(Tables()), key)
    {
      messages := messages[key := messages[key].(availability := Recalled)];
      WithdrawSources(key, Recalled);
    }

    /** One row of evidence after the other. */
    method WithdrawSources(key: nat, to: Availability)
      modifies this`sources
      ensures sources == Withdraw(old(sources), {key}, to)
    {
      var todo := set p | p in sources && p.key == key;
      ghost var all := todo;
      while todo != {}
        invariant todo <= all && sources.Keys == old(sources).Keys
        invariant all == set p | p in old(sources) && p.key == key
        invariant forall p :: p in sources ==>
          sources[p] == if p in all && p !in todo then Source(to, old(sources)[p].changes + 1) else old(sources)[p]
        decreases |todo|
      {
        var p :| p in todo;
        sources := sources[p := Source(to, sources[p].changes + 1)];
        todo := todo - {p};
      }
    }

    method ApplyMessage(e: Event) returns (out: Report)
      modifies this`messages, this`revisions, this`sources
      ensures Tables() == IntakeModel.ApplyMessage(old(Tables()), e)
      ensures !out.duplicate && (out.novel <==> NewRevision(old(Tables()), e).Some?)
      ensures e.key in messages && out.revision == messages[e.key].revision
      ensures out.availability == if e.key in recalls then Recalled else Available
    {
      var revision := 1;
      if e.key in messages {
        revision := messages[e.key].revision;
      } else {
        messages := messages[e.key := Message(1, Available)];
      }
      var missing := Place(e.key, revision) !in revisions;
      var novel := missing || revisions[Place(e.key, revision)] != e.digest;
      if novel && !missing { revision := revision + 1; }
      WriteIfFresh(e, revision, novel);
      var availability := SettleAvailability(e.key);
      out := Report(false, None, revision, novel, availability);
    }

    method WriteIfFresh(e: Event, revision: nat, novel: bool)
      requires e.key in messages
      modifies this`messages, this`revisions, this`sources
      ensures Tables() == if novel then WriteRevision(old(Tables()), e, revision) else old(Tables())
    {
      if novel {
        revisions := revisions[Place(e.key, revision) := e.digest];
        messages := messages[e.key := messages[e.key].(revision := revision)];
        if e.hasBody && Place(e.key, revision) !in sources {
          sources := sources[Place(e.key, revision) := Source(Available, 1)];
        }
      }
    }

    method SettleAvailability(key: nat) returns (availability: Availability)
      requires key in messages
      modifies this`messages, this`sources
      ensures Tables() == Settle(old(Tables()), key)
      ensures availability == if key in recalls then Recalled else Available
    {
      if key !in recalls { return Available; }
      MarkRecalled(key);
      return Recalled;
    }

    /** ApplyDataSourceRetention, over the messages that passed their term. */
    method ExpireMessages(keys: seq<nat>)
      modifies this`messages, this`sources
      ensures Tables() == ExpireAll(old(Tables()), keys)
    {
      for i := 0 to |keys|
        invariant ExpireAll(Tables(), keys[i..]) == ExpireAll(old(Tables()), keys)
      {
        assert keys[i..][0] == keys[i] && keys[i..][1..] == keys[i + 1..];
        if keys[i] in messages && messages[keys[i]].availability == Available {
          messages := messages[keys[i] := messages[keys[i]].(availability := Expired)];
          WithdrawSources(keys[i], Expired);
        }
      }
    }

    /** Either of the two transactions, as an operation of a run. */
    method Transact(op: Op)
      requires Inv(Tables())
      modifies this
      ensures Tables() == Step(old(Tables()), op) && Inv(Tables())
    {
      StepKeeps(Tables(), op);
      match op {
        case Take(e) => var _ := Intake(e);
        case Expire(keys) => ExpireMessages(keys);
      }
    }
  }
}
