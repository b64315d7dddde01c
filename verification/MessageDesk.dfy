module MessageDesk {
  import opened Options
  import opened MessageModel
  import opened MessageTheorems

  /** The tables behind the analysis of messages, updated in place. */
  class Desk {
    var routes: map<nat, nat>
    var messages: map<nat, Message>
    var rows: map<Key, Row>
    var batches: seq<Batch>
    var links: seq<Link>

    ghost function Tables(): State
      reads this
    {
      State(routes, messages, rows, batches, links)
    }

    constructor (routes: map<nat, nat>)
      ensures Tables() == State(routes, map[], map[], [], [])
    {
      this.routes := routes;
      messages, rows, batches, links := map[], map[], [], [];
    }

    /** One page of messages of a route whose row is missing or may have to change. */
    method SyncRuntimeMessages(runtime: nat, route: nat, sightings: seq<Sighting>)
      modifies this`rows
      ensures Tables() == Sync(old(Tables()), runtime, route, sightings)
    {
      for i := 0 to |sightings|
        invariant Sync(Tables(), runtime, route, sightings[i..]) == Sync(old(Tables()), runtime, route, sightings)
      {
        ghost var before := Tables();
        var g := sightings[i];
        assert sightings[i..][0] == g && sightings[i..][1..] == sightings[i + 1..];
        var k := Key(runtime, g.message);
        if g.message in messages && route in routes && messages[g.message].channel == routes[route] {
          var m := messages[g.message];
          if k !in rows {
            var state := Pending;
            if g.waiting { state := WaitingReceipt; }
            if g.unaddressed { state := Ignored; }
            if g.contextOnly || g.early { state := ContextOnly; }
            if !m.available { state := Recalled; }
            rows := rows[k := Row(route, m.revision, state, None, 0)];
          } else {
            var prior := rows[k];
            var next, changed := prior.state, prior.revision != m.revision;
            if !m.available {
              next := Recalled;
            } else if changed || prior.state == WaitingReceipt || (g.contextOnly && prior.state == Pending) {
              next := Pending;
              if g.waiting { next := WaitingReceipt; }
              if g.unaddressed { next := Ignored; }
              if g.contextOnly || g.early { next := ContextOnly; }
            }
            if next != prior.state || changed {
              rows := rows[k := Row(prior.route, m.revision, next, None, 0)];
            } else {
              assert rows == rows[k := prior];
            }
          }
        }
        assert Tables() == SyncOne(before, runtime, route, g);
      }
    }

    method IgnoreRoute(runtime: nat, route: nat)
      modifies this`rows
      ensures Tables() == Ignore(old(Tables()), runtime, route)
    {
      rows := map k | k in rows ::
        if k.runtime == runtime && rows[k].route == route && rows[k].state == Pending then rows[k].(state := Ignored) else rows[k];
    }

    /** The attempt number of a new batch. */
    method NextAttempt(runtime: nat, route: nat) returns (attempt: nat)
      ensures var s := Tables(); attempt == 1 + MaxRetry(s.rows, Waiting(s, runtime, route))
    {
      var waiting := set k | k in rows && k.runtime == runtime && rows[k].route == route && rows[k].state == Pending;
      assert waiting == Waiting(Tables(), runtime, route);
      attempt := 0;
      var todo := waiting;
      while todo != {}
        invariant todo <= waiting
        invariant forall k :: k in waiting - todo ==> rows[k].retry <= attempt
        invariant attempt == 0 || exists k :: k in waiting && rows[k].retry == attempt
        decreases |todo|
      {
        var k :| k in todo;
        if rows[k].retry > attempt { attempt := rows[k].retry; }
        todo := todo - {k};
      }
      attempt := attempt + 1;
    }

    method ClaimAssociations(runtime: nat, picks: seq<nat>)
      modifies this`links
      ensures links == TakeLinks(old(links), runtime, picks)
    {
      for i := 0 to |picks|
        invariant TakeLinks(links, runtime, picks[i..]) == TakeLinks(old(links), runtime, picks)
      {
        assert picks[i..][0] == picks[i] && picks[i..][1..] == picks[i + 1..];
        var before, k := links, Key(runtime, picks[i]);
        links := seq(|before|, j requires 0 <= j < |before| =>
          if (before[j].first == k.message || before[j].second == k.message) && before[j].claim == None
          then before[j].(claim := Some(k)) else before[j]);
        assert links == seq(|before|, j requires 0 <= j < |before| => TakeLink(before[j], k));
      }
    }

    ghost predicate MayLeave(keys: set<Key>, k: Key, runtime: nat, route: nat)
      reads this
    {
      k in keys && Waits(Tables(), k, runtime, route)
    }

    method LeaveQueue(runtime: nat, route: nat, keys: set<Key>)
      modifies this`rows
      ensures rows.Keys == old(rows).Keys
      ensures forall k :: k in rows ==> rows[k] == if old(MayLeave(keys, k, runtime, route)) then old(rows)[k].(state := LinkedDuplicate) else old(rows)[k]
    {
      rows := map k | k in rows ::
        if k in keys && k.runtime == runtime && rows[k].route == route && rows[k].state == Pending
        then rows[k].(state := LinkedDuplicate) else rows[k];
    }

    method MarkDuplicates(runtime: nat, route: nat, deferred: set<nat>)
      modifies this`rows
      ensures Tables() == DropDuplicates(old(Tables()), runtime, route, deferred)
    {
      ghost var s := Tables();
      var owned := set k | k in rows && k.message in deferred
        && exists j :: 0 <= j < |links| && (links[j].first == k.message || links[j].second == k.message);
      assert forall k :: k in owned <==> k in rows && k.message in deferred && Linked(s, k.message);
      LeaveQueue(runtime, route, owned);
      var claimed := set k | k in rows
        && exists j :: 0 <= j < |links| && (links[j].first == k.message || links[j].second == k.message)
                       && links[j].claim.Some? && links[j].claim.value != k;
      assert forall k :: k in claimed <==> k in rows && ClaimedElsewhere(s, k);
      LeaveQueue(runtime, route, claimed);
      forall k | k in rows ensures rows[k] == DropDuplicates(s, runtime, route, deferred).rows[k] {
        assert Waits(s, k, runtime, route) ==> k in rows;
      }
    }

    method ClaimRuntimeBatch(runtime: nat, sweeps: seq<Sweep>) returns (claimed: bool)
      modifies this
      ensures Tables() == Claim(old(Tables()), runtime, sweeps)
      ensures claimed <==> |batches| > |old(batches)|
    {
      var i := 0;
      while i < |sweeps|
        invariant i <= |sweeps| && batches == old(batches)
        invariant Claim(Tables(), runtime, sweeps[i..]) == Claim(old(Tables()), runtime, sweeps)
      {
        var w := sweeps[i];
        assert sweeps[i..][0] == w && sweeps[i..][1..] == sweeps[i + 1..];
        ghost var before := Tables();
        MarkDuplicates(runtime, w.route, w.deferred);
        var ready := Ready(State(routes, messages, rows, batches, links), runtime, w);
        if ready {
          StartBatch(runtime, w.route, w.picks);
          return true;
        }
        i := i + 1;
      }
      return false;
    }

    method StartBatch(runtime: nat, route: nat, picks: seq<nat>)
      requires Pickable(Tables(), runtime, route, picks)
      modifies this
      ensures Tables() == Take(old(Tables()), runtime, route, picks)
    {
      var id := |batches|;
      ClaimAssociations(runtime, picks);
      var attempt := NextAttempt(runtime, route);
      assert Waiting(Tables(), runtime, route) == Waiting(old(Tables()), runtime, route);
      var items := map m | m in picks && m in messages :: messages[m].revision;
      assert items == Items(old(Tables()), picks);
      batches := batches + [Batch(runtime, Analyzing, items, attempt)];
      forall i | 0 <= i < |picks| ensures Key(runtime, picks[i]) in rows && picks[i] in messages {
        assert Waits(old(Tables()), Key(runtime, picks[i]), runtime, route);
      }
      MarkBatched(runtime, picks, id);
    }

    method MarkBatched(runtime: nat, picks: seq<nat>, id: nat)
      requires forall i :: 0 <= i < |picks| ==> Key(runtime, picks[i]) in rows && picks[i] in messages
      modifies this`rows
      ensures rows == TakeRows(messages, old(rows), runtime, picks, id)
    {
      for i := 0 to |picks|
        invariant rows.Keys == old(rows).Keys
        invariant forall k :: k in rows ==> rows[k] == TakeRow(messages, k, old(rows)[k], runtime, picks[..i], id)
      {
        var k := Key(runtime, picks[i]);
        if rows[k].revision == messages[picks[i]].revision && rows[k].state == Pending {
          rows := rows[k := rows[k].(state := Batched, batch := Some(id))];
        }
        assert forall m :: m in picks[..i + 1] <==> m in picks[..i] || m == picks[i];
      }
      assert picks[..|picks|] == picks;
    }

    method CompleteRuntimeBatch(b: nat) returns (ok: bool)
      modifies this
      ensures Tables() == Complete(old(Tables()), b)
      ensures ok <==> b < |batches| && old(batches)[b].status == Analyzing && batches[b].status == Completed
    {
      if b >= |batches| || batches[b].status != Analyzing { return false; }
      var batch := batches[b];
      var todo := batch.items.Keys;
      while todo != {}
        invariant todo <= batch.items.Keys && Tables() == old(Tables())
        invariant forall m :: m in batch.items && m !in todo ==>
          m in messages && messages[m].revision == batch.items[m] && messages[m].available
        decreases |todo|
      {
        var m :| m in todo;
        if m !in messages || messages[m].revision != batch.items[m] || !messages[m].available { return false; }
        todo := todo - {m};
      }
      batches := batches[b := batch.(status := Completed)];
      rows := map k | k in rows ::
        if k.runtime == batch.runtime && rows[k].batch == Some(b) then rows[k].(state := Processed) else rows[k];
      return true;
    }

    method ReleaseRows(b: nat, state: RowState, counted: bool)
      modifies this`rows
      ensures rows == map k | k in old(rows) ::
        if old(rows)[k].batch == Some(b) && old(rows)[k].state.Batched?
        then old(rows)[k].(state := state, batch := None, retry := old(rows)[k].retry + if counted then 1 else 0) else old(rows)[k]
    {
      rows := map k | k in rows ::
        if rows[k].batch == Some(b) && rows[k].state == Batched
        then rows[k].(state := state, batch := None, retry := if counted then rows[k].retry + 1 else rows[k].retry) else rows[k];
    }

    method FailRuntimeBatch(b: nat, code: Code, managed: bool)
      modifies this
      ensures Tables() == Fail(old(Tables()), b, code, managed)
    {
      if b >= |batches| || batches[b].status != Analyzing { return; }
      ghost var s := Tables();
      var attempt := batches[b].attempt;
      batches := batches[b := batches[b].(status := Failed)];
      if managed {
        var retry := code in {Unavailable, AnalysisTimeout, RuntimeRestarted};
        var state := AnalysisFailed;
        if code == Conflict { state := Pending; }
        else if retry && attempt < 3 { state := Pending; }
        assert state == if Retries(code, attempt) then Pending else AnalysisFailed;
        ReleaseRows(b, state, true);
      } else {
        ReleaseRows(b, Pending, false);
      }
      forall k | k in rows ensures rows[k] == Released(s.rows[k], b, managed, Retries(code, attempt)) { }
    }

    method ConfirmedByMessage(runtime: nat, route: nat, m: nat)
      modifies this`rows
      ensures Tables() == ConfirmBy(old(Tables()), runtime, route, m)
    {
      if m !in messages || route !in routes || messages[m].channel != routes[route] || !messages[m].available { return; }
      var k, revision := Key(runtime, m), messages[m].revision;
      if k in rows {
        rows := rows[k := rows[k].(state := Processed, revision := revision)];
      } else {
        rows := rows[k := Row(route, revision, Processed, None, 0)];
      }
    }

    method AssociateVerifiedMessages(a: nat, b: nat, pick: Option<Key>)
      modifies this`links
      ensures Tables() == Associate(old(Tables()), a, b, pick)
    {
      if a == b { return; }
      var first, second := a, b;
      if first > second { first, second := second, first; }
      if first !in messages || second !in messages || messages[first].channel == messages[second].channel { return; }
      if exists i :: 0 <= i < |links| && (links[i].first == first || links[i].second == first) { return; }
      if exists i :: 0 <= i < |links| && (links[i].first == second || links[i].second == second) { return; }
      if pick.Some? {
        var k := pick.value;
        if k !in rows || k.message !in {first, second} || rows[k].state !in {Batched, Processed} { return; }
      } else {
        if exists k :: k in rows && k.message in {first, second} && rows[k].state in {Batched, Processed} { return; }
      }
      assert !Linked(old(Tables()), first) && !Linked(old(Tables()), second);
      assert pick.Some? ==> Started(old(Tables()), pick.value, first, second);
      assert pick.None? ==> forall k :: k in rows ==> !Started(old(Tables()), k, first, second);
      links := links + [Link(first, second, pick, |batches|)];
    }

    /** Any of these transactions, as an operation of a run; the messages themselves are written
        by the intake. */
    method Transact(op: Op)
      requires RowsFit(Tables()) && !op.OpArrive? && !op.OpRevise? && !op.OpAvailable?
      modifies this
      ensures Tables() == Step(old(Tables()), op) && RowsFit(Tables())
    {
      StepFits(Tables(), op);
      match op {
        case OpSync(runtime, route, sightings) => SyncRuntimeMessages(runtime, route, sightings);
        case OpIgnore(runtime, route) => IgnoreRoute(runtime, route);
        case OpClaim(runtime, sweeps) => var _ := ClaimRuntimeBatch(runtime, sweeps);
        case OpComplete(b) => var _ := CompleteRuntimeBatch(b);
        case OpFail(b, code, managed) => FailRuntimeBatch(b, code, managed);
        case OpConfirm(runtime, route, m) => ConfirmedByMessage(runtime, route, m);
        case OpAssociate(a, b, pick) => AssociateVerifiedMessages(a, b, pick);
        case _ => assert false;
      }
    }
  }
}
