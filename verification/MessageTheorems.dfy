module MessageTheorems {
  import opened Options
  import opened MessageModel

  // ---- Rows and the batches that hold them ----

  ghost predicate Holds(b: Batch, k: Key, row: Row) {
    b.status.Analyzing? && b.runtime == k.runtime && k.message in b.items && b.items[k.message] == row.revision && row.retry < b.attempt
  }

  ghost predicate Held(s: State, k: Key, row: Row) {
    row.batch.Some? && row.batch.value < |s.batches| && Holds(s.batches[row.batch.value], k, row)
  }

  ghost predicate RowShape(row: Row) {
    (row.batch.Some? ==> row.state.Batched? || row.state.Processed?) && (row.state.WaitingReceipt? ==> row.retry == 0)
  }

  ghost predicate Placed(s: State, k: Key, row: Row) {
    && k.message in s.messages && row.revision <= s.messages[k.message].revision
    && row.route in s.routes && s.routes[row.route] == s.messages[k.message].channel
  }

  ghost predicate RowFits(s: State, k: Key, row: Row) {
    Placed(s, k, row) && RowShape(row) && (row.state.Batched? ==> Held(s, k, row))
  }

  ghost predicate RowsFit(s: State) {
    forall k :: k in s.rows ==> RowFits(s, k, s.rows[k])
  }

  lemma SyncOneFits(s: State, runtime: nat, route: nat, g: Sighting)
    requires RowsFit(s)
    ensures RowsFit(SyncOne(s, runtime, route, g))
  {
  }

  lemma {:induction false} SyncFits(s: State, runtime: nat, route: nat, gs: seq<Sighting>)
    requires RowsFit(s)
    ensures RowsFit(Sync(s, runtime, route, gs))
    decreases |gs|
  {
    if gs != [] {
      SyncOneFits(s, runtime, route, gs[0]);
      SyncFits(SyncOne(s, runtime, route, gs[0]), runtime, route, gs[1..]);
    }
  }

  lemma DropFits(s: State, runtime: nat, route: nat, deferred: set<nat>)
    requires RowsFit(s)
    ensures RowsFit(DropDuplicates(s, runtime, route, deferred))
  {
  }

  lemma IgnoreFits(s: State, runtime: nat, route: nat)
    requires RowsFit(s)
    ensures RowsFit(Ignore(s, runtime, route))
  {
  }

  lemma TakeFits(s: State, runtime: nat, route: nat, picks: seq<nat>)
    requires RowsFit(s) && Pickable(s, runtime, route, picks)
    ensures RowsFit(Take(s, runtime, route, picks))
  {
  }

  lemma {:induction false} ClaimFits(s: State, runtime: nat, sweeps: seq<Sweep>)
    requires RowsFit(s)
    ensures RowsFit(Claim(s, runtime, sweeps))
    decreases |sweeps|
  {
    if sweeps != [] {
      var w := sweeps[0];
      var t := DropDuplicates(s, runtime, w.route, w.deferred);
      DropFits(s, runtime, w.route, w.deferred);
      if Ready(t, runtime, w) { TakeFits(t, runtime, w.route, w.picks); }
      else { ClaimFits(t, runtime, sweeps[1..]); }
    }
  }

  lemma CompleteFits(s: State, b: nat)
    requires RowsFit(s)
    ensures RowsFit(Complete(s, b))
  {
  }

  lemma FailFits(s: State, b: nat, code: Code, managed: bool)
    requires RowsFit(s)
    ensures RowsFit(Fail(s, b, code, managed))
  {
  }

  lemma ConfirmFits(s: State, runtime: nat, route: nat, m: nat)
    requires RowsFit(s)
    ensures RowsFit(ConfirmBy(s, runtime, route, m))
  {
  }

  lemma MessageFits(s: State, op: Op)
    requires RowsFit(s) && (op.OpArrive? || op.OpRevise? || op.OpAvailable? || op.OpAssociate?)
    ensures RowsFit(Step(s, op))
  {
  }

  lemma StepFits(s: State, op: Op)
    requires RowsFit(s)
    ensures RowsFit(Step(s, op))
  {
    match op
    case OpSync(rt, r, gs) => SyncFits(s, rt, r, gs);
    case OpIgnore(rt, r) => IgnoreFits(s, rt, r);
    case OpClaim(rt, ws) => ClaimFits(s, rt, ws);
    case OpComplete(b) => CompleteFits(s, b);
    case OpFail(b, code, managed) => FailFits(s, b, code, managed);
    case OpConfirm(rt, r, m) => ConfirmFits(s, rt, r, m);
    case _ => MessageFits(s, op);
  }

  lemma {:induction false} RunFits(s: State, ops: seq<Op>)
    requires RowsFit(s)
    ensures RowsFit(Run(s, ops))
    decreases |ops|
  {
    if ops != [] {
      StepFits(s, ops[0]);
      RunFits(Step(s, ops[0]), ops[1..]);
    }
  }

  /** In every reachable state a batched row names a batch of its own runtime that is still
      being analysed and holds the message at the very revision of the row. */
  lemma BatchedIsHeld(s: State, ops: seq<Op>, k: Key)
    requires Initial(s) && k in Run(s, ops).rows && Run(s, ops).rows[k].state.Batched?
    ensures Held(Run(s, ops), k, Run(s, ops).rows[k])
  {
    RunFits(s, ops);
    assert RowFits(Run(s, ops), k, Run(s, ops).rows[k]);
  }

  // ---- Each revision of a message is analysed once ----

  /** The row of a message that batch `b` holds, or once held: it has moved on to a later
      revision, or it can never again be claimed at this one. */
  ghost predicate Spent(row: Row, b: nat, revision: nat) {
    row.revision > revision
    || (row.revision == revision && ((row.state.Batched? && row.batch == Some(b)) || row.state.Processed? || row.state.Recalled?))
  }

  ghost predicate ItemFits(s: State, b: nat, m: nat)
    requires b < |s.batches| && m in s.batches[b].items
  {
    var k := Key(s.batches[b].runtime, m);
    k in s.rows && Spent(s.rows[k], b, s.batches[b].items[m])
  }

  ghost predicate ItemsFit(s: State) {
    forall b, m :: 0 <= b < |s.batches| && !s.batches[b].status.Failed? && m in s.batches[b].items ==> ItemFits(s, b, m)
  }

  ghost predicate Repeats(b: Batch, c: Batch, m: nat) {
    !b.status.Failed? && !c.status.Failed? && b.runtime == c.runtime && m in b.items && m in c.items && b.items[m] == c.items[m]
  }

  /** No two batches that were not given up hold one message at one revision. */
  ghost predicate Once(s: State) {
    forall b, c, m :: 0 <= b < c < |s.batches| ==> !Repeats(s.batches[b], s.batches[c], m)
  }

  ghost predicate Tracked(s: State) {
    ItemsFit(s) && Once(s)
  }

  /** How rows may change as far as `ItemsFit` is concerned, with the same batches or fewer. */
  ghost predicate RowMoves(before: Row, after: Row) {
    || after == before
    || before.revision < after.revision
    || (before.revision == after.revision && (after.state.Processed? || after.state.Recalled?))
    || (before.revision == after.revision && !before.state.Batched? && !before.state.Processed? && !before.state.Recalled?)
  }

  ghost predicate RowsMove(s: State, t: State) {
    forall k :: k in s.rows ==> k in t.rows && RowMoves(s.rows[k], t.rows[k])
  }

  ghost predicate BatchesMove(s: State, t: State) {
    |t.batches| == |s.batches| && forall b :: 0 <= b < |s.batches| ==>
      && t.batches[b].runtime == s.batches[b].runtime && t.batches[b].items == s.batches[b].items
      && (s.batches[b].status.Failed? ==> t.batches[b].status.Failed?)
  }

  lemma MovesKeepItems(s: State, t: State)
    requires ItemsFit(s) && RowsMove(s, t) && BatchesMove(s, t)
    ensures ItemsFit(t)
  {
  }

  lemma MovesKeepOnce(s: State, t: State)
    requires Once(s) && BatchesMove(s, t)
    ensures Once(t)
  {
    forall b, c, m | 0 <= b < c < |t.batches| ensures !Repeats(t.batches[b], t.batches[c], m) {
      assert !Repeats(s.batches[b], s.batches[c], m);
    }
  }

  lemma SyncOneMoves(s: State, runtime: nat, route: nat, g: Sighting)
    requires RowsFit(s)
    ensures RowsMove(s, SyncOne(s, runtime, route, g)) && BatchesMove(s, SyncOne(s, runtime, route, g))
  {
  }

  lemma {:induction false} SyncTracks(s: State, runtime: nat, route: nat, gs: seq<Sighting>)
    requires RowsFit(s) && Tracked(s)
    ensures Tracked(Sync(s, runtime, route, gs))
    decreases |gs|
  {
    if gs != [] {
      var t := SyncOne(s, runtime, route, gs[0]);
      SyncOneMoves(s, runtime, route, gs[0]);
      MovesKeepItems(s, t);
      MovesKeepOnce(s, t);
      SyncOneFits(s, runtime, route, gs[0]);
      SyncTracks(t, runtime, route, gs[1..]);
    }
  }

  lemma CompleteMoves(s: State, b: nat)
    ensures RowsMove(s, Complete(s, b)) && BatchesMove(s, Complete(s, b))
  {
  }

  lemma FailTracks(s: State, b: nat, code: Code, managed: bool)
    requires Tracked(s)
    ensures Tracked(Fail(s, b, code, managed))
  {
  }

  lemma ConfirmMoves(s: State, runtime: nat, route: nat, m: nat)
    requires RowsFit(s)
    ensures RowsMove(s, ConfirmBy(s, runtime, route, m)) && BatchesMove(s, ConfirmBy(s, runtime, route, m))
  {
  }

  /** Whether each row that the claim would pick is at its message's current revision. */
  predicate FreshClaim(s: State, runtime: nat, sweeps: seq<Sweep>)
    decreases |sweeps|
  {
    sweeps == []
    || (var t := DropDuplicates(s, runtime, sweeps[0].route, sweeps[0].deferred);
        if Ready(t, runtime, sweeps[0]) then PicksFresh(s, runtime, sweeps[0].picks)
        else FreshClaim(t, runtime, sweeps[1..]))
  }

  predicate PicksFresh(s: State, runtime: nat, picks: seq<nat>) {
    forall i :: 0 <= i < |picks| ==> IsFresh(s, Key(runtime, picks[i]))
  }

  predicate IsFresh(s: State, k: Key) {
    k in s.rows && k.message in s.messages && s.rows[k].revision == s.messages[k.message].revision
  }

  lemma DropTracks(s: State, runtime: nat, route: nat, deferred: set<nat>)
    requires Tracked(s)
    ensures Tracked(DropDuplicates(s, runtime, route, deferred))
  {
  }

  lemma TakeKeepsItems(s: State, runtime: nat, route: nat, picks: seq<nat>)
    requires ItemsFit(s) && Pickable(s, runtime, route, picks) && PicksFresh(s, runtime, picks)
    ensures ItemsFit(Take(s, runtime, route, picks))
  {
  }

  lemma TakeKeepsOnce(s: State, runtime: nat, route: nat, picks: seq<nat>)
    requires ItemsFit(s) && Once(s) && Pickable(s, runtime, route, picks) && PicksFresh(s, runtime, picks)
    ensures Once(Take(s, runtime, route, picks))
  {
  }

  lemma StaleTakeLosesTrack(s: State, runtime: nat, route: nat, picks: seq<nat>)
    requires RowsFit(s) && Pickable(s, runtime, route, picks) && !PicksFresh(s, runtime, picks)
    ensures !ItemsFit(Take(s, runtime, route, picks))
  {
    var t := Take(s, runtime, route, picks);
    var i :| 0 <= i < |picks| && !IsFresh(s, Key(runtime, picks[i]));
    var k := Key(runtime, picks[i]);
    assert Waits(s, k, runtime, route) && RowFits(s, k, s.rows[k]);
    assert picks[i] in t.batches[|s.batches|].items && t.rows[k] == s.rows[k];
    assert !ItemFits(t, |s.batches|, picks[i]);
  }

  /** The claim reads the message's current revision but marks the row only at the revision
      that the row has: the books stay right exactly when every picked row was synchronised. */
  lemma {:induction false} ClaimTracksExactlyWhenFresh(s: State, runtime: nat, sweeps: seq<Sweep>)
    requires RowsFit(s) && Tracked(s)
    ensures Tracked(Claim(s, runtime, sweeps)) <==> FreshClaim(s, runtime, sweeps)
    decreases |sweeps|
  {
    if sweeps != [] {
      var w := sweeps[0];
      var t := DropDuplicates(s, runtime, w.route, w.deferred);
      DropFits(s, runtime, w.route, w.deferred);
      DropTracks(s, runtime, w.route, w.deferred);
      if !Ready(t, runtime, w) {
        ClaimTracksExactlyWhenFresh(t, runtime, sweeps[1..]);
      } else {
        assert PicksFresh(t, runtime, w.picks) <==> PicksFresh(s, runtime, w.picks) by { FreshAfterDrop(s, runtime, w); }
        if PicksFresh(t, runtime, w.picks) {
          TakeKeepsItems(t, runtime, w.route, w.picks);
          TakeKeepsOnce(t, runtime, w.route, w.picks);
        } else {
          StaleTakeLosesTrack(t, runtime, w.route, w.picks);
        }
      }
    }
  }

  lemma FreshAfterDrop(s: State, runtime: nat, w: Sweep)
    ensures PicksFresh(DropDuplicates(s, runtime, w.route, w.deferred), runtime, w.picks) <==> PicksFresh(s, runtime, w.picks)
  {
  }

  /** Every claim of the run finds its picks synchronised. */
  ghost predicate FreshRun(s: State, ops: seq<Op>)
    decreases |ops|
  {
    ops == [] || ((ops[0].OpClaim? ==> FreshClaim(s, ops[0].runtime, ops[0].sweeps)) && FreshRun(Step(s, ops[0]), ops[1..]))
  }

  lemma StepTracks(s: State, op: Op)
    requires RowsFit(s) && Tracked(s) && (op.OpClaim? ==> FreshClaim(s, op.runtime, op.sweeps))
    ensures Tracked(Step(s, op))
  {
    var t := Step(s, op);
    match op
    case OpSync(rt, r, gs) => SyncTracks(s, rt, r, gs);
    case OpClaim(rt, ws) => ClaimTracksExactlyWhenFresh(s, rt, ws);
    case OpFail(b, code, managed) => FailTracks(s, b, code, managed);
    case OpComplete(b) => CompleteMoves(s, b); MovesKeepItems(s, t); MovesKeepOnce(s, t);
    case OpConfirm(rt, r, m) => ConfirmMoves(s, rt, r, m); MovesKeepItems(s, t); MovesKeepOnce(s, t);
    case _ => MovesKeepItems(s, t); MovesKeepOnce(s, t);
  }

  lemma {:induction false} RunTracks(s: State, ops: seq<Op>)
    requires RowsFit(s) && Tracked(s) && FreshRun(s, ops)
    ensures Tracked(Run(s, ops))
    decreases |ops|
  {
    if ops != [] {
      StepFits(s, ops[0]);
      StepTracks(s, ops[0]);
      RunTracks(Step(s, ops[0]), ops[1..]);
    }
  }

  /** Whatever fails, restarts, is revised or recalled on the way: a runtime never has two
      batches, completed or still open, for one revision of one message. */
  lemma EachRevisionInOneBatch(s: State, ops: seq<Op>, b: nat, c: nat, m: nat)
    requires Initial(s) && FreshRun(s, ops) && b < c < |Run(s, ops).batches|
    ensures !Repeats(Run(s, ops).batches[b], Run(s, ops).batches[c], m)
  {
    RunTracks(s, ops);
  }

  /** Synchronising first is enough: a sighting brings its row to the current revision ... */
  lemma {:induction false} SyncRefreshes(s: State, runtime: nat, route: nat, gs: seq<Sighting>, i: nat)
    requires i < |gs| && Seen(s, route, gs[i].message)
    ensures IsFresh(Sync(s, runtime, route, gs), Key(runtime, gs[i].message))
    decreases |gs|
  {
    var t := SyncOne(s, runtime, route, gs[0]);
    if i == 0 { SyncKeepsFresh(t, runtime, route, gs[1..], Key(runtime, gs[0].message)); }
    else { SyncRefreshes(t, runtime, route, gs[1..], i - 1); }
  }

  lemma {:induction false} SyncKeepsFresh(s: State, runtime: nat, route: nat, gs: seq<Sighting>, k: Key)
    requires IsFresh(s, k)
    ensures IsFresh(Sync(s, runtime, route, gs), k)
    decreases |gs|
  {
    if gs != [] { SyncKeepsFresh(SyncOne(s, runtime, route, gs[0]), runtime, route, gs[1..], k); }
  }

  /** ... and a claim over a queue of current rows is a fresh one. */
  lemma {:induction false} FreshQueueFreshClaim(s: State, runtime: nat, sweeps: seq<Sweep>)
    requires forall k :: k in s.rows && k.runtime == runtime && s.rows[k].state.Pending? ==> IsFresh(s, k)
    ensures FreshClaim(s, runtime, sweeps)
    decreases |sweeps|
  {
    if sweeps != [] {
      var w := sweeps[0];
      var t := DropDuplicates(s, runtime, w.route, w.deferred);
      if Ready(t, runtime, w) {
        forall i | 0 <= i < |w.picks| ensures IsFresh(s, Key(runtime, w.picks[i])) {
          assert Waits(t, Key(runtime, w.picks[i]), runtime, w.route);
        }
      } else {
        forall k | k in t.rows && k.runtime == runtime && t.rows[k].state.Pending? ensures IsFresh(t, k) { assert IsFresh(s, k); }
        FreshQueueFreshClaim(t, runtime, sweeps[1..]);
      }
    }
  }

  /** What one synchronisation reads of one route; it goes over the routes of the runtime. */
  datatype Page = Page(route: nat, sightings: seq<Sighting>)

  /** The messages that one synchronisation reads at most, over all routes. */
  const PAGE_LIMIT: nat := 100

  function SyncPages(s: State, runtime: nat, pages: seq<Page>): State
    decreases |pages|
  {
    if pages == [] then s else SyncPages(Sync(s, runtime, pages[0].route, pages[0].sightings), runtime, pages[1..])
  }

  predicate OnPage(s: State, p: Page, m: nat) {
    Seen(s, p.route, m) && exists j :: 0 <= j < |p.sightings| && p.sightings[j].message == m
  }

  predicate Sighted(s: State, pages: seq<Page>, m: nat) {
    exists i :: 0 <= i < |pages| && OnPage(s, pages[i], m)
  }

  predicate IsStale(s: State, runtime: nat, k: Key) {
    k in s.rows && k.runtime == runtime && s.rows[k].state.Pending? && !IsFresh(s, k)
  }

  predicate SameRow(s: State, t: State, k: Key) {
    (k in t.rows <==> k in s.rows) && (k in s.rows ==> t.rows[k] == s.rows[k])
  }

  lemma {:induction false} SyncSkips(s: State, runtime: nat, route: nat, gs: seq<Sighting>, k: Key)
    requires forall j :: 0 <= j < |gs| ==> gs[j].message != k.message || !Seen(s, route, k.message)
    ensures SameRow(s, Sync(s, runtime, route, gs), k)
    decreases |gs|
  {
    if gs != [] { SyncSkips(SyncOne(s, runtime, route, gs[0]), runtime, route, gs[1..], k); }
  }

  lemma {:induction false} SyncKeepsMessages(s: State, runtime: nat, route: nat, gs: seq<Sighting>)
    ensures var t := Sync(s, runtime, route, gs); t.messages == s.messages && t.routes == s.routes
    decreases |gs|
  {
    if gs != [] { SyncKeepsMessages(SyncOne(s, runtime, route, gs[0]), runtime, route, gs[1..]); }
  }

  lemma {:induction false} PagesRefresh(s: State, runtime: nat, pages: seq<Page>, k: Key)
    requires k.runtime == runtime
    ensures var t := SyncPages(s, runtime, pages);
            t.messages == s.messages && if Sighted(s, pages, k.message) then IsFresh(t, k) else SameRow(s, t, k)
    decreases |pages|
  {
    if pages != [] {
      var p := pages[0];
      var t := Sync(s, runtime, p.route, p.sightings);
      SyncKeepsMessages(s, runtime, p.route, p.sightings);
      PagesRefresh(t, runtime, pages[1..], k);
      if OnPage(s, p, k.message) {
        var j :| 0 <= j < |p.sightings| && p.sightings[j].message == k.message;
        SyncRefreshes(s, runtime, p.route, p.sightings, j);
      } else {
        SyncSkips(s, runtime, p.route, p.sightings, k);
      }
      SightedLater(s, t, pages, k.message);
    }
  }

  lemma SightedLater(s: State, t: State, pages: seq<Page>, m: nat)
    requires pages != [] && t.messages == s.messages && t.routes == s.routes
    ensures Sighted(s, pages, m) <==> OnPage(s, pages[0], m) || Sighted(t, pages[1..], m)
  {
    if Sighted(s, pages, m) {
      var i :| 0 <= i < |pages| && OnPage(s, pages[i], m);
      assert i > 0 ==> OnPage(t, pages[1..][i - 1], m);
    }
    if Sighted(t, pages[1..], m) {
      var i :| 0 <= i < |pages[1..]| && OnPage(t, pages[1..][i], m);
      assert OnPage(s, pages[i + 1], m);
    }
  }

  ghost predicate NoneStale(s: State, runtime: nat) {
    forall k :: !IsStale(s, runtime, k)
  }

  ghost predicate AllSighted(s: State, runtime: nat, pages: seq<Page>) {
    forall k :: IsStale(s, runtime, k) ==> Sighted(s, pages, k.message)
  }

  /** A synchronisation leaves no stale row in the queue exactly if it sights them all ... */
  lemma NoneStaleExactlyWhenSighted(s: State, runtime: nat, pages: seq<Page>)
    ensures NoneStale(SyncPages(s, runtime, pages), runtime) <==> AllSighted(s, runtime, pages)
  {
    var t := SyncPages(s, runtime, pages);
    if NoneStale(t, runtime) {
      forall k | IsStale(s, runtime, k) ensures Sighted(s, pages, k.message) {
        assert !IsStale(t, runtime, k);
        PagesRefresh(s, runtime, pages, k);
      }
    }
    if AllSighted(s, runtime, pages) {
      forall k ensures !IsStale(t, runtime, k) {
        if k.runtime == runtime { PagesRefresh(s, runtime, pages, k); }
        assert IsStale(s, runtime, k) ==> Sighted(s, pages, k.message);
      }
    }
  }

  /** ... and a claim right after such a synchronisation is a fresh one, whatever it sweeps. */
  lemma SyncedClaimIsFresh(s: State, runtime: nat, pages: seq<Page>, sweeps: seq<Sweep>)
    requires AllSighted(s, runtime, pages)
    ensures FreshClaim(SyncPages(s, runtime, pages), runtime, sweeps)
  {
    var t := SyncPages(s, runtime, pages);
    NoneStaleExactlyWhenSighted(s, runtime, pages);
    forall k | k in t.rows && k.runtime == runtime && t.rows[k].state.Pending? ensures IsFresh(t, k) {
      assert !IsStale(t, runtime, k);
    }
    FreshQueueFreshClaim(t, runtime, sweeps);
  }

  function Total(pages: seq<Page>): nat
    decreases |pages|
  {
    if pages == [] then 0 else |pages[0].sightings| + Total(pages[1..])
  }

  function Names(gs: seq<Sighting>): (names: set<nat>)
    ensures |names| <= |gs|
    ensures forall j :: 0 <= j < |gs| ==> gs[j].message in names
    decreases |gs|
  {
    if gs == [] then {} else {gs[0].message} + Names(gs[1..])
  }

  function AllNames(pages: seq<Page>): (names: set<nat>)
    ensures |names| <= Total(pages)
    ensures forall i, j :: 0 <= i < |pages| && 0 <= j < |pages[i].sightings| ==> pages[i].sightings[j].message in names
    decreases |pages|
  {
    if pages == [] then {} else Names(pages[0].sightings) + AllNames(pages[1..])
  }

  lemma {:induction false} OneKeyPerName(runtime: nat, keys: set<Key>, names: set<nat>)
    requires forall k :: k in keys ==> k.runtime == runtime && k.message in names
    ensures |keys| <= |names|
    decreases keys
  {
    if keys != {} {
      var k :| k in keys;
      OneKeyPerName(runtime, keys - {k}, names - {k.message});
    }
  }

  /** The limit of one synchronisation is where this fails: of more stale rows than it reads
      messages, one stays in the queue as it was. */
  lemma FullPageLeavesStale(s: State, runtime: nat, pages: seq<Page>, stale: set<Key>) returns (k: Key)
    requires Total(pages) <= PAGE_LIMIT < |stale| && forall k :: k in stale ==> IsStale(s, runtime, k)
    ensures k in stale && SameRow(s, SyncPages(s, runtime, pages), k) && IsStale(SyncPages(s, runtime, pages), runtime, k)
  {
    if forall k :: k in stale ==> k.message in AllNames(pages) { OneKeyPerName(runtime, stale, AllNames(pages)); }
    k :| k in stale && k.message !in AllNames(pages);
    PagesRefresh(s, runtime, pages, k);
  }

  /** A message arrives, is synchronised, and is revised ... */
  function Revised(s: State): State {
    Revise(Sync(Arrive(s, 0, 0), 0, 0, [Sighting(0, false, false, false, false)]), 0)
  }

  /** ... claimed before it is synchronised again, and completed. */
  ghost function Hasty(s: State): State {
    Complete(Claim(s, 0, [Sweep(0, {}, true, [0])]), |s.batches|)
  }

  lemma OneClaim(s: State, runtime: nat, w: Sweep)
    requires Ready(DropDuplicates(s, runtime, w.route, w.deferred), runtime, w)
    ensures Claim(s, runtime, [w]) == Take(DropDuplicates(s, runtime, w.route, w.deferred), runtime, w.route, w.picks)
  {
  }

  ghost predicate LeftBehind(s: State) {
    s.links == [] && s.messages == map[0 := Message(0, 2, true)] && s.rows == map[Key(0, 0) := Row(0, 1, Pending, None, 0)]
  }

  lemma RevisedLeavesBehind(s: State)
    requires Initial(s) && s.routes == map[0 := 0]
    ensures LeftBehind(Revised(s)) && Revised(s).batches == []
  {
  }

  lemma HastyClaim(s: State)
    requires LeftBehind(s)
    ensures var t := Claim(s, 0, [Sweep(0, {}, true, [0])]);
            LeftBehind(t) && |t.batches| == |s.batches| + 1 && t.batches[..|s.batches|] == s.batches
            && t.batches[|s.batches|].items == map[0 := 2] && t.batches[|s.batches|].runtime == 0 && t.batches[|s.batches|].status.Analyzing?
  {
    var d := DropDuplicates(s, 0, 0, {});
    assert d.rows == s.rows && Waits(d, Key(0, 0), 0, 0);
    OneClaim(s, 0, Sweep(0, {}, true, [0]));
    var t := Take(d, 0, 0, [0]);
    assert t.rows == s.rows && TakeLinks([], 0, [0]) == [];
    assert t.batches[|s.batches|].items == map[0 := 2];
  }

  lemma HastyAddsBatch(s: State)
    requires LeftBehind(s)
    ensures LeftBehind(Hasty(s)) && |Hasty(s).batches| == |s.batches| + 1 && Hasty(s).batches[..|s.batches|] == s.batches
    ensures var b := Hasty(s).batches[|s.batches|]; b.items == map[0 := 2] && b.runtime == 0 && b.status.Completed?
  {
    HastyClaim(s);
    assert Hasty(s).rows == s.rows;
  }

  /** Without that second synchronisation one revision is completed twice. */
  lemma UnsyncedClaimRepeats(s: State)
    requires Initial(s) && s.routes == map[0 := 0]
    ensures var t := Hasty(Hasty(Revised(s)));
            |t.batches| == 2 && t.batches[0].status.Completed? && t.batches[1].status.Completed? && Repeats(t.batches[0], t.batches[1], 0)
  {
    RevisedLeavesBehind(s);
    HastyAddsBatch(Revised(s));
    var h := Hasty(Revised(s));
    HastyAddsBatch(h);
    assert Hasty(h).batches[0] == Hasty(h).batches[..1][0] == h.batches[0];
  }

  // ---- Associated observations ----

  /** Every batch since the association holds, of its two messages, only the claimed one, and
      in the claiming runtime. */
  ghost predicate LinkFits(s: State, l: Link) {
    && l.first in s.messages && l.second in s.messages
    && s.messages[l.first].channel != s.messages[l.second].channel
    && forall b, m :: l.since <= b < |s.batches| && m in s.batches[b].items && Touches(l, m)
         ==> l.claim == Some(Key(s.batches[b].runtime, m))
  }

  ghost predicate LinksFit(s: State) {
    forall i :: 0 <= i < |s.links| ==> LinkFits(s, s.links[i]) && s.links[i].since <= |s.batches|
  }

  /** The first pick that an unclaimed association concerns. */
  ghost predicate TakenBy(before: Link, after: Link, runtime: nat, picks: seq<nat>) {
    && after.first == before.first && after.second == before.second && after.since == before.since
    && (before.claim.Some? ==> after == before)
    && (before.claim.None? && after.claim.Some? ==>
          after.claim.value.runtime == runtime && after.claim.value.message in picks && Touches(before, after.claim.value.message))
    && (after.claim.None? ==> forall m :: m in picks ==> !Touches(before, m))
  }

  lemma {:induction false} TakeLinksTakes(links: seq<Link>, runtime: nat, picks: seq<nat>, i: nat)
    requires i < |links|
    ensures |TakeLinks(links, runtime, picks)| == |links| && TakenBy(links[i], TakeLinks(links, runtime, picks)[i], runtime, picks)
    decreases |picks|
  {
    if picks != [] {
      var next := seq(|links|, j requires 0 <= j < |links| => TakeLink(links[j], Key(runtime, picks[0])));
      TakeLinksTakes(next, runtime, picks[1..], i);
      assert forall m :: m in picks <==> m == picks[0] || m in picks[1..];
    }
  }

  lemma {:induction false} TakeLinksLength(links: seq<Link>, runtime: nat, picks: seq<nat>)
    ensures |TakeLinks(links, runtime, picks)| == |links|
    decreases |picks|
  {
    if picks != [] {
      TakeLinksLength(seq(|links|, j requires 0 <= j < |links| => TakeLink(links[j], Key(runtime, picks[0]))), runtime, picks[1..]);
    }
  }

  /** One route is one channel, and the two observations are on different channels. */
  lemma OneOfPair(s: State, l: Link, runtime: nat, route: nat, picks: seq<nat>, m: nat, n: nat)
    requires RowsFit(s) && LinkFits(s, l) && Pickable(s, runtime, route, picks)
    requires m in picks && n in picks && Touches(l, m) && Touches(l, n)
    ensures m == n
  {
  }

  /** No pick is already claimed as another observation. */
  ghost predicate Undisputed(s: State, runtime: nat, picks: seq<nat>) {
    forall m :: m in picks ==> !ClaimedElsewhere(s, Key(runtime, m))
  }

  lemma TakeClaims(s: State, runtime: nat, route: nat, picks: seq<nat>, i: nat, m: nat)
    requires RowsFit(s) && i < |s.links| && LinkFits(s, s.links[i]) && Pickable(s, runtime, route, picks) && Undisputed(s, runtime, picks)
    requires m in picks && Touches(s.links[i], m)
    ensures |TakeLinks(s.links, runtime, picks)| == |s.links| && TakeLinks(s.links, runtime, picks)[i].claim == Some(Key(runtime, m))
  {
    TakeLinksTakes(s.links, runtime, picks, i);
    var l, after := s.links[i], TakeLinks(s.links, runtime, picks)[i];
    if l.claim.Some? {
      assert !ClaimedElsewhere(s, Key(runtime, m));
    } else {
      assert after.claim.Some?;
      OneOfPair(s, l, runtime, route, picks, m, after.claim.value.message);
    }
  }

  lemma TakeLinksFit(s: State, runtime: nat, route: nat, picks: seq<nat>)
    requires RowsFit(s) && LinksFit(s) && Pickable(s, runtime, route, picks) && Undisputed(s, runtime, picks)
    ensures LinksFit(Take(s, runtime, route, picks))
  {
    var t := Take(s, runtime, route, picks);
    TakeLinksLength(s.links, runtime, picks);
    forall i | 0 <= i < |t.links| ensures LinkFits(t, t.links[i]) && t.links[i].since <= |t.batches| {
      var l := s.links[i];
      assert LinkFits(s, l);
      TakeLinksTakes(s.links, runtime, picks, i);
      forall b, m | t.links[i].since <= b < |t.batches| && m in t.batches[b].items && Touches(t.links[i], m)
        ensures t.links[i].claim == Some(Key(t.batches[b].runtime, m)) {
        if b < |s.batches| {
          assert Touches(l, m) && m in s.batches[b].items;
        } else {
          TakeClaims(s, runtime, route, picks, i, m);
        }
      }
    }
  }

  lemma DropLinksFit(s: State, runtime: nat, route: nat, deferred: set<nat>)
    requires LinksFit(s)
    ensures LinksFit(DropDuplicates(s, runtime, route, deferred))
  {
  }

  lemma DropLeavesUndisputed(s: State, runtime: nat, w: Sweep)
    requires Pickable(DropDuplicates(s, runtime, w.route, w.deferred), runtime, w.route, w.picks)
    ensures Undisputed(DropDuplicates(s, runtime, w.route, w.deferred), runtime, w.picks)
  {
  }

  lemma {:induction false} ClaimLinksFit(s: State, runtime: nat, sweeps: seq<Sweep>)
    requires RowsFit(s) && LinksFit(s)
    ensures LinksFit(Claim(s, runtime, sweeps))
    decreases |sweeps|
  {
    if sweeps != [] {
      var w := sweeps[0];
      var t := DropDuplicates(s, runtime, w.route, w.deferred);
      DropFits(s, runtime, w.route, w.deferred);
      DropLinksFit(s, runtime, w.route, w.deferred);
      if Ready(t, runtime, w) {
        DropLeavesUndisputed(s, runtime, w);
        TakeLinksFit(t, runtime, w.route, w.picks);
      } else {
        ClaimLinksFit(t, runtime, sweeps[1..]);
      }
    }
  }

  /** What the other transactions leave alone, as far as associations are concerned. */
  ghost predicate SamePairs(s: State, t: State) {
    && t.links == s.links && BatchesMove(s, t)
    && forall m :: m in s.messages ==> m in t.messages && t.messages[m].channel == s.messages[m].channel
  }

  lemma SamePairsFit(s: State, t: State)
    requires LinksFit(s) && SamePairs(s, t)
    ensures LinksFit(t)
  {
  }

  lemma {:induction false} SyncSamePairs(s: State, runtime: nat, route: nat, gs: seq<Sighting>)
    ensures Sync(s, runtime, route, gs) == s.(rows := Sync(s, runtime, route, gs).rows)
    decreases |gs|
  {
    if gs != [] { SyncSamePairs(SyncOne(s, runtime, route, gs[0]), runtime, route, gs[1..]); }
  }

  lemma AssociateFits(s: State, a: nat, b: nat, pick: Option<Key>)
    requires LinksFit(s)
    ensures LinksFit(Associate(s, a, b, pick))
  {
  }

  lemma StepLinksFit(s: State, op: Op)
    requires RowsFit(s) && LinksFit(s)
    ensures LinksFit(Step(s, op))
  {
    match op
    case OpClaim(rt, ws) => ClaimLinksFit(s, rt, ws);
    case OpAssociate(a, b, pick) => AssociateFits(s, a, b, pick);
    case OpSync(rt, r, gs) => SyncSamePairs(s, rt, r, gs); SamePairsFit(s, Step(s, op));
    case _ => SamePairsFit(s, Step(s, op));
  }

  lemma {:induction false} RunLinksFit(s: State, ops: seq<Op>)
    requires RowsFit(s) && LinksFit(s)
    ensures LinksFit(Run(s, ops))
    decreases |ops|
  {
    if ops != [] {
      StepFits(s, ops[0]);
      StepLinksFit(s, ops[0]);
      RunLinksFit(Step(s, ops[0]), ops[1..]);
    }
  }

  /** Over any run: two batches claimed after an association was verified, of whatever
      runtimes and outcomes, can only hold one and the same observation of its pair. */
  lemma OneObservationPerPair(s: State, ops: seq<Op>, i: nat, b: nat, c: nat, m: nat, n: nat)
    requires Initial(s)
    requires var t := Run(s, ops);
             && i < |t.links| && t.links[i].since <= b < |t.batches| && t.links[i].since <= c < |t.batches|
             && m in t.batches[b].items && n in t.batches[c].items && Touches(t.links[i], m) && Touches(t.links[i], n)
    ensures m == n && Run(s, ops).batches[b].runtime == Run(s, ops).batches[c].runtime
    ensures Run(s, ops).links[i].claim == Some(Key(Run(s, ops).batches[b].runtime, m))
  {
    RunLinksFit(s, ops);
    assert LinkFits(Run(s, ops), Run(s, ops).links[i]);
  }

  // ---- Retries ----

  /** How often a row may still be put back in the queue at this revision. */
  ghost function Credit(s: State, k: Key, revision: nat): nat {
    if k !in s.rows || s.rows[k].revision < revision then 2
    else if s.rows[k].revision > revision then 0
    else if s.rows[k].state.WaitingReceipt? then 2
    else if (s.rows[k].state.Pending? || s.rows[k].state.Batched?) && s.rows[k].retry < 2 then 2 - s.rows[k].retry
    else 0
  }

  ghost predicate PutBack(s: State, op: Op, k: Key, revision: nat) {
    && op.OpFail? && op.managed && !op.code.Conflict?
    && k in s.rows && s.rows[k].revision == revision && s.rows[k].state.Batched?
    && k in Step(s, op).rows && Step(s, op).rows[k].state.Pending?
  }

  ghost function PutBacks(s: State, ops: seq<Op>, k: Key, revision: nat): nat
    decreases |ops|
  {
    if ops == [] then 0
    else (if PutBack(s, ops[0], k, revision) then 1 else 0) + PutBacks(Step(s, ops[0]), ops[1..], k, revision)
  }

  lemma {:induction false} SyncSpends(s: State, runtime: nat, route: nat, gs: seq<Sighting>, k: Key, revision: nat)
    requires RowsFit(s)
    ensures Credit(Sync(s, runtime, route, gs), k, revision) <= Credit(s, k, revision)
    decreases |gs|
  {
    if gs != [] {
      var t := SyncOne(s, runtime, route, gs[0]);
      assert k in s.rows ==> RowFits(s, k, s.rows[k]);
      SyncOneFits(s, runtime, route, gs[0]);
      SyncSpends(t, runtime, route, gs[1..], k, revision);
    }
  }

  lemma {:induction false} ClaimSpends(s: State, runtime: nat, sweeps: seq<Sweep>, k: Key, revision: nat)
    ensures Credit(Claim(s, runtime, sweeps), k, revision) <= Credit(s, k, revision)
    decreases |sweeps|
  {
    if sweeps != [] {
      var t := DropDuplicates(s, runtime, sweeps[0].route, sweeps[0].deferred);
      assert Credit(t, k, revision) <= Credit(s, k, revision);
      if Ready(t, runtime, sweeps[0]) {
        assert Credit(Take(t, runtime, sweeps[0].route, sweeps[0].picks), k, revision) <= Credit(t, k, revision);
      } else {
        ClaimSpends(t, runtime, sweeps[1..], k, revision);
      }
    }
  }

  lemma StepSpends(s: State, op: Op, k: Key, revision: nat)
    requires RowsFit(s)
    ensures Credit(Step(s, op), k, revision) + (if PutBack(s, op, k, revision) then 1 else 0) <= Credit(s, k, revision)
  {
    assert k in s.rows ==> RowFits(s, k, s.rows[k]);
    match op
    case OpSync(rt, r, gs) => SyncSpends(s, rt, r, gs, k, revision);
    case OpClaim(rt, ws) => ClaimSpends(s, rt, ws, k, revision);
    case _ =>
  }

  lemma {:induction false} RunSpends(s: State, ops: seq<Op>, k: Key, revision: nat)
    requires RowsFit(s)
    ensures PutBacks(s, ops, k, revision) <= Credit(s, k, revision)
    decreases |ops|
  {
    if ops != [] {
      StepFits(s, ops[0]);
      StepSpends(s, ops[0], k, revision);
      RunSpends(Step(s, ops[0]), ops[1..], k, revision);
    }
  }

  /** Under a work lease a failure other than a conflict puts one revision of a message back
      in a runtime's queue at most twice, over any run. */
  lemma PutBackAtMostTwice(s: State, ops: seq<Op>, k: Key, revision: nat)
    requires Initial(s)
    ensures PutBacks(s, ops, k, revision) <= 2
  {
    RunSpends(s, ops, k, revision);
  }
}
