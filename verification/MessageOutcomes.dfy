/** What each transaction on messages, rows, batches and associations does, and how often a
    revision whose analysis fails is tried. */
module MessageOutcomes {
  import opened Options
  import opened MessageModel
  import opened MessageTheorems

  // ---- Rows that stay ----

  ghost predicate OnlyRowsDiffer(s: State, t: State) {
    && t.routes == s.routes && t.messages == s.messages && t.batches == s.batches && t.links == s.links
  }

  ghost predicate OtherRowsSame(s: State, t: State, k: Key) {
    forall j :: j != k ==> SameRow(s, t, j)
  }

  // ---- Messages ----

  lemma MessageOutcome(s: State, m: nat, channel: nat, available: bool)
    ensures Arrive(s, m, channel) == if m in s.messages then s else s.(messages := s.messages[m := Message(channel, 1, true)])
    ensures m !in s.messages ==> Revise(s, m) == s && SetAvailable(s, m, available) == s
    ensures m in s.messages ==>
              var was := s.messages[m];
              && Revise(s, m) == s.(messages := s.messages[m := Message(was.channel, was.revision + 1, was.available)])
              && SetAvailable(s, m, available) == s.(messages := s.messages[m := Message(was.channel, was.revision, available)])
  {
  }

  // ---- Synchronisation ----

  predicate IsRead(s: State, route: nat, m: nat) {
    m in s.messages && route in s.routes && s.messages[m].channel == s.routes[route]
  }

  /** A known row is left alone unless its message was revised or withdrawn, its receipt is
      awaited, or it waits in the queue and turns out to be context. */
  predicate IsSettled(g: Sighting, row: Row, m: Message) {
    && row.revision == m.revision
    && if m.available then !row.state.WaitingReceipt? && !(g.contextOnly && row.state.Pending?) else row.state.Recalled?
  }

  /** Where a message belongs that is read anew. */
  predicate SortedAs(state: RowState, g: Sighting, available: bool) {
    && (state == Recalled <==> !available)
    && (state == ContextOnly <==> available && (g.contextOnly || g.early))
    && (state == Ignored <==> available && !g.contextOnly && !g.early && g.unaddressed)
    && (state == WaitingReceipt <==> available && !g.contextOnly && !g.early && !g.unaddressed && g.waiting)
    && state in {Recalled, ContextOnly, Ignored, WaitingReceipt, Pending}
  }

  lemma SightingOutcome(s: State, runtime: nat, route: nat, g: Sighting)
    ensures var t, k := SyncOne(s, runtime, route, g), Key(runtime, g.message);
            if !IsRead(s, route, g.message) then t == s
            else
              var m := s.messages[g.message];
              && OnlyRowsDiffer(s, t) && OtherRowsSame(s, t, k) && k in t.rows && t.rows[k].revision == m.revision
              && (if k in s.rows && IsSettled(g, s.rows[k], m) then t.rows[k] == s.rows[k]
                  else SortedAs(t.rows[k].state, g, m.available)
                       && t.rows[k].route == (if k in s.rows then s.rows[k].route else route)
                       && (t.rows[k] == Row(t.rows[k].route, m.revision, t.rows[k].state, None, 0)
                           || (k in s.rows && t.rows[k] == s.rows[k])))
  {
  }

  lemma IgnoringOutcome(s: State, runtime: nat, route: nat)
    ensures var t := Ignore(s, runtime, route);
            OnlyRowsDiffer(s, t) && t.rows.Keys == s.rows.Keys && forall k :: k in s.rows ==>
              var was := s.rows[k];
              t.rows[k] == if k.runtime == runtime && was.route == route && was.state == Pending
                           then Row(route, was.revision, Ignored, was.batch, was.retry) else was
  {
  }

  // ---- Claiming ----

  predicate Concerns(l: Link, m: nat) {
    l.first == m || l.second == m
  }

  /** Some association of the message is claimed for another observation or another runtime,
      or the message is deferred and associated at all. */
  ghost predicate IsDuplicate(s: State, k: Key, deferred: set<nat>) {
    exists i :: 0 <= i < |s.links| && Concerns(s.links[i], k.message) &&
      ((s.links[i].claim.Some? && s.links[i].claim.value != k) || k.message in deferred)
  }

  lemma DuplicatesOutcome(s: State, runtime: nat, route: nat, deferred: set<nat>)
    ensures var t := DropDuplicates(s, runtime, route, deferred);
            OnlyRowsDiffer(s, t) && t.rows.Keys == s.rows.Keys && forall k :: k in s.rows ==>
              var was := s.rows[k];
              t.rows[k] == if k.runtime == runtime && was.route == route && was.state == Pending && IsDuplicate(s, k, deferred)
                           then Row(route, was.revision, LinkedDuplicate, was.batch, was.retry) else was
  {
    forall k | k in s.rows ensures IsDuplicate(s, k, deferred) <==> (k.message in deferred && Linked(s, k.message)) || ClaimedElsewhere(s, k) {
      if k.message in deferred && Linked(s, k.message) {
        var i :| 0 <= i < |s.links| && Touches(s.links[i], k.message);
        assert Concerns(s.links[i], k.message);
      }
      if ClaimedElsewhere(s, k) {
        var i :| 0 <= i < |s.links| && Touches(s.links[i], k.message) && s.links[i].claim.Some? && s.links[i].claim.value != k;
        assert Concerns(s.links[i], k.message);
      }
      if IsDuplicate(s, k, deferred) {
        var i :| 0 <= i < |s.links| && Concerns(s.links[i], k.message) &&
                 ((s.links[i].claim.Some? && s.links[i].claim.value != k) || k.message in deferred);
        assert Touches(s.links[i], k.message);
      }
    }
  }

  predicate IsQueued(s: State, k: Key, route: nat) {
    k in s.rows && s.rows[k].route == route && s.rows[k].state == Pending
  }

  /** A due route whose picks are different messages that all wait in its queue. */
  ghost predicate GivesBatch(s: State, runtime: nat, w: Sweep) {
    && w.due && |w.picks| > 0
    && (forall i, j :: 0 <= i < j < |w.picks| ==> w.picks[i] != w.picks[j])
    && forall i :: 0 <= i < |w.picks| ==> IsQueued(s, Key(runtime, w.picks[i]), w.route) && w.picks[i] in s.messages
  }

  /** The duplicates of these routes have left the queue. */
  function Swept(s: State, runtime: nat, sweeps: seq<Sweep>): State
    decreases |sweeps|
  {
    if sweeps == [] then s else Swept(DropDuplicates(s, runtime, sweeps[0].route, sweeps[0].deferred), runtime, sweeps[1..])
  }

  ghost predicate NoneGives(s: State, runtime: nat, sweeps: seq<Sweep>)
    decreases |sweeps|
  {
    sweeps == [] ||
    var t := DropDuplicates(s, runtime, sweeps[0].route, sweeps[0].deferred);
    !GivesBatch(t, runtime, sweeps[0]) && NoneGives(t, runtime, sweeps[1..])
  }

  lemma ReadyMeansGives(s: State, runtime: nat, w: Sweep)
    ensures Ready(s, runtime, w) <==> GivesBatch(s, runtime, w)
  {
    forall m: nat ensures Waits(s, Key(runtime, m), runtime, w.route) <==> IsQueued(s, Key(runtime, m), w.route) { }
  }

  /** The first route in order that is ready gives the batch; after it nothing is swept. */
  lemma {:induction false} FirstRouteIsTaken(s: State, runtime: nat, before: seq<Sweep>, w: Sweep, later: seq<Sweep>)
    requires NoneGives(s, runtime, before)
    ensures var t := DropDuplicates(Swept(s, runtime, before), runtime, w.route, w.deferred);
            Claim(s, runtime, before + [w] + later) ==
            if GivesBatch(t, runtime, w) then Take(t, runtime, w.route, w.picks) else Claim(t, runtime, later)
    decreases |before|
  {
    var all := before + [w] + later;
    if before == [] {
      assert all[0] == w && all[1..] == later;
      ReadyMeansGives(DropDuplicates(s, runtime, w.route, w.deferred), runtime, w);
    } else {
      var t := DropDuplicates(s, runtime, before[0].route, before[0].deferred);
      assert all[0] == before[0] && all[1..] == before[1..] + [w] + later;
      ReadyMeansGives(t, runtime, before[0]);
      FirstRouteIsTaken(t, runtime, before[1..], w, later);
    }
  }

  lemma {:induction false} NoRouteNoBatch(s: State, runtime: nat, sweeps: seq<Sweep>)
    requires NoneGives(s, runtime, sweeps)
    ensures Claim(s, runtime, sweeps) == Swept(s, runtime, sweeps)
    decreases |sweeps|
  {
    if sweeps != [] {
      var t := DropDuplicates(s, runtime, sweeps[0].route, sweeps[0].deferred);
      ReadyMeansGives(t, runtime, sweeps[0]);
      NoRouteNoBatch(t, runtime, sweeps[1..]);
    }
  }

  /** The batch holds exactly the picks, at the revisions that their messages have. */
  lemma BatchOutcome(s: State, runtime: nat, w: Sweep)
    requires GivesBatch(s, runtime, w)
    ensures var t, id := Take(s, runtime, w.route, w.picks), |s.batches|;
            && |t.batches| == id + 1 && t.batches[..id] == s.batches && t.messages == s.messages && t.routes == s.routes
            && t.batches[id].runtime == runtime && t.batches[id].status == Analyzing
            && (forall m :: m in t.batches[id].items <==> m in w.picks)
            && (forall m :: m in t.batches[id].items ==> t.batches[id].items[m] == s.messages[m].revision)
  {
    var t, id := Take(s, runtime, w.route, w.picks), |s.batches|;
    forall m ensures m in t.batches[id].items <==> m in w.picks { }
  }

  /** Its attempt is one more than the highest retry count in the queue of the route. */
  lemma AttemptOutcome(s: State, runtime: nat, w: Sweep)
    requires GivesBatch(s, runtime, w)
    ensures var attempt := Take(s, runtime, w.route, w.picks).batches[|s.batches|].attempt;
            && (forall k: Key :: k.runtime == runtime && IsQueued(s, k, w.route) ==> s.rows[k].retry < attempt)
            && (exists k: Key :: k.runtime == runtime && IsQueued(s, k, w.route) && s.rows[k].retry == attempt - 1)
  {
    var keys := Waiting(s, runtime, w.route);
    forall k: Key ensures k in keys <==> k.runtime == runtime && IsQueued(s, k, w.route) { }
    var most := MaxRetry(s.rows, keys);
    var first := Key(runtime, w.picks[0]);
    assert first in keys;
    if most == 0 { assert s.rows[first].retry == 0; }
  }

  /** The rows of the picks are marked with it at their own revision; no other row changes. */
  lemma MarkingOutcome(s: State, runtime: nat, w: Sweep)
    requires GivesBatch(s, runtime, w)
    ensures var t := Take(s, runtime, w.route, w.picks);
            t.rows.Keys == s.rows.Keys && forall k :: k in s.rows ==>
              var was := s.rows[k];
              t.rows[k] == if k.runtime == runtime && k.message in w.picks && was.revision == s.messages[k.message].revision
                           then Row(was.route, was.revision, Batched, Some(|s.batches|), was.retry) else was
  {
    forall k | k in s.rows && k.runtime == runtime && k.message in w.picks ensures s.rows[k].state == Pending && k.message in s.messages {
      var i :| 0 <= i < |w.picks| && w.picks[i] == k.message;
      assert IsQueued(s, Key(runtime, w.picks[i]), w.route);
    }
  }

  // ---- Ending a batch ----

  /** Every message of the batch is still there as it was read. */
  ghost predicate StillAsRead(s: State, b: nat)
    requires b < |s.batches|
  {
    forall m :: m in s.batches[b].items ==>
      m in s.messages && s.messages[m].available && s.messages[m].revision == s.batches[b].items[m]
  }

  lemma CompletionOutcome(s: State, b: nat)
    ensures var t := Complete(s, b);
            if b < |s.batches| && s.batches[b].status == Analyzing && StillAsRead(s, b) then
              && t.routes == s.routes && t.messages == s.messages && t.links == s.links
              && t.batches == s.batches[b := Batch(s.batches[b].runtime, Completed, s.batches[b].items, s.batches[b].attempt)]
              && t.rows.Keys == s.rows.Keys && forall k :: k in s.rows ==>
                   var was := s.rows[k];
                   t.rows[k] == if k.runtime == s.batches[b].runtime && was.batch == Some(b)
                                then Row(was.route, was.revision, Processed, Some(b), was.retry) else was
            else t == s
  {
    if b < |s.batches| { assert StillAsRead(s, b) <==> ItemsCurrent(s, s.batches[b].items); }
  }

  /** The store was busy, the analysis took too long, or the runtime went down. */
  predicate IsTransient(code: Code) {
    code == Unavailable || code == AnalysisTimeout || code == RuntimeRestarted
  }

  /** Under a work lease a conflict always puts the rows of the batch back, a transient failure
      of the first or second attempt does, and any other failure is for good; each counts.
      Without a lease they go back uncounted. The rows of other batches stay, and a batch that
      has ended fails no more. */
  lemma FailureOutcome(s: State, b: nat, code: Code, managed: bool)
    ensures var t := Fail(s, b, code, managed);
            if b < |s.batches| && s.batches[b].status == Analyzing then
              var attempt := s.batches[b].attempt;
              && t.routes == s.routes && t.messages == s.messages && t.links == s.links
              && t.batches == s.batches[b := Batch(s.batches[b].runtime, Failed, s.batches[b].items, attempt)]
              && t.rows.Keys == s.rows.Keys && forall k :: k in s.rows ==>
                   if s.rows[k].batch == Some(b) && s.rows[k].state == Batched then
                     && t.rows[k].route == s.rows[k].route && t.rows[k].revision == s.rows[k].revision && t.rows[k].batch == None
                     && t.rows[k].retry == s.rows[k].retry + (if managed then 1 else 0)
                     && (t.rows[k].state == Pending <==> !managed || code == Conflict || (IsTransient(code) && attempt <= 2))
                     && t.rows[k].state in {Pending, AnalysisFailed}
                   else t.rows[k] == s.rows[k]
            else t == s
  {
  }

  // ---- Three attempts ----

  /** The route is due, its picks are up to date and have failed `n` times, like no other row of
      its queue; nothing is associated. */
  ghost predicate TriedBefore(s: State, runtime: nat, w: Sweep, n: nat) {
    && s.links == [] && GivesBatch(s, runtime, w) && w.deferred == {}
    && (forall i :: 0 <= i < |w.picks| ==> IsFresh(s, Key(runtime, w.picks[i])) && s.rows[Key(runtime, w.picks[i])].retry == n)
    && (forall k: Key :: k.runtime == runtime && IsQueued(s, k, w.route) ==> s.rows[k].retry <= n)
  }

  /** One more attempt at the picks that fails for a reason that may pass. */
  ghost function TryAgain(s: State, runtime: nat, w: Sweep, code: Code): State {
    Fail(Claim(s, runtime, [w]), |s.batches|, code, true)
  }

  lemma ClaimedForTry(s: State, runtime: nat, w: Sweep, n: nat) returns (t: State)
    requires TriedBefore(s, runtime, w, n)
    ensures t == Claim(s, runtime, [w]) && t.links == [] && t.messages == s.messages
    ensures |t.batches| == |s.batches| + 1 && t.batches[|s.batches|].status == Analyzing && t.batches[|s.batches|].attempt == n + 1
    ensures t.rows.Keys == s.rows.Keys && forall k :: k in s.rows ==>
              t.rows[k] == if k.runtime == runtime && k.message in w.picks
                           then Row(w.route, s.rows[k].revision, Batched, Some(|s.batches|), n) else s.rows[k]
  {
    t := Claim(s, runtime, [w]);
    var d := DropDuplicates(s, runtime, w.route, w.deferred);
    DuplicatesOutcome(s, runtime, w.route, w.deferred);
    assert d.rows == s.rows by { forall k | k in s.rows ensures !IsDuplicate(s, k, {}) { } }
    assert d == s;
    FirstRouteIsTaken(s, runtime, [], w, []);
    assert [] + [w] + [] == [w];
    BatchOutcome(s, runtime, w);
    AttemptOutcome(s, runtime, w);
    MarkingOutcome(s, runtime, w);
    assert TakeLinks([], runtime, w.picks) == [] by { TakeLinksLength([], runtime, w.picks); }
    var first := Key(runtime, w.picks[0]);
    assert IsQueued(s, first, w.route) && s.rows[first].retry == n;
    forall k | k in s.rows && k.runtime == runtime && k.message in w.picks
      ensures s.rows[k].revision == s.messages[k.message].revision && s.rows[k].route == w.route && s.rows[k].retry == n
    {
      var i :| 0 <= i < |w.picks| && w.picks[i] == k.message;
      assert IsFresh(s, Key(runtime, w.picks[i])) && IsQueued(s, Key(runtime, w.picks[i]), w.route);
    }
  }

  lemma TryFits(s: State, runtime: nat, w: Sweep, code: Code)
    requires RowsFit(s)
    ensures RowsFit(TryAgain(s, runtime, w, code))
    ensures forall k :: k in s.rows && s.rows[k].state.Batched? ==> s.rows[k].batch != Some(|s.batches|)
  {
    ClaimFits(s, runtime, [w]);
    StepFits(Claim(s, runtime, [w]), OpFail(|s.batches|, code, true));
    forall k | k in s.rows && s.rows[k].state.Batched? ensures s.rows[k].batch != Some(|s.batches|) { assert RowFits(s, k, s.rows[k]); }
  }

  lemma TriedRows(s: State, runtime: nat, w: Sweep, n: nat, code: Code) returns (t: State)
    requires TriedBefore(s, runtime, w, n) && IsTransient(code)
    requires forall k :: k in s.rows && s.rows[k].state.Batched? ==> s.rows[k].batch != Some(|s.batches|)
    ensures t == TryAgain(s, runtime, w, code) && t.links == [] && t.messages == s.messages
    ensures t.rows.Keys == s.rows.Keys && forall k :: k in s.rows ==>
              t.rows[k] == if k.runtime == runtime && k.message in w.picks
                           then Row(w.route, s.rows[k].revision, if n < 2 then Pending else AnalysisFailed, None, n + 1) else s.rows[k]
  {
    var m := ClaimedForTry(s, runtime, w, n);
    FailureOutcome(m, |s.batches|, code, true);
    t := Fail(m, |s.batches|, code, true);
  }

  lemma TryOutcome(s: State, runtime: nat, w: Sweep, n: nat, code: Code)
    requires RowsFit(s) && TriedBefore(s, runtime, w, n) && IsTransient(code)
    ensures var t := TryAgain(s, runtime, w, code);
            RowsFit(t) && if n < 2 then TriedBefore(t, runtime, w, n + 1) else GivenUp(t, runtime, w.picks)
  {
    TryFits(s, runtime, w, code);
    var t := TriedRows(s, runtime, w, n, code);
    forall i | 0 <= i < |w.picks| ensures var k := Key(runtime, w.picks[i]);
      && k in t.rows && t.rows[k].state == (if n < 2 then Pending else AnalysisFailed) && t.rows[k].route == w.route
      && IsFresh(t, k) && t.rows[k].retry == n + 1 && w.picks[i] in t.messages
    {
      assert IsQueued(s, Key(runtime, w.picks[i]), w.route) && IsFresh(s, Key(runtime, w.picks[i]));
    }
    forall k: Key | k.runtime == runtime && IsQueued(t, k, w.route) ensures t.rows[k].retry <= n + 1 {
      assert k.message !in w.picks ==> IsQueued(s, k, w.route);
    }
  }

  ghost predicate GivenUp(s: State, runtime: nat, picks: seq<nat>) {
    forall i :: 0 <= i < |picks| ==> Key(runtime, picks[i]) in s.rows && s.rows[Key(runtime, picks[i])].state == AnalysisFailed
  }

  ghost predicate Queued(s: State, runtime: nat, w: Sweep) {
    forall i :: 0 <= i < |w.picks| ==> IsQueued(s, Key(runtime, w.picks[i]), w.route)
  }

  /** A revision whose analysis keeps failing for reasons that may pass gets three attempts: the
      first two failures put it back in the queue, the third gives it up. */
  lemma ThreeAttempts(s: State, before: seq<Op>, runtime: nat, w: Sweep, a: Code, b: Code, c: Code)
    requires Initial(s) && TriedBefore(Run(s, before), runtime, w, 0) && IsTransient(a) && IsTransient(b) && IsTransient(c)
    ensures var t1 := TryAgain(Run(s, before), runtime, w, a);
            var t2 := TryAgain(t1, runtime, w, b);
            Queued(t1, runtime, w) && Queued(t2, runtime, w) && GivenUp(TryAgain(t2, runtime, w, c), runtime, w.picks)
  {
    RunFits(s, before);
    var u := Run(s, before);
    TryOutcome(u, runtime, w, 0, a);
    TryOutcome(TryAgain(u, runtime, w, a), runtime, w, 1, b);
    TryOutcome(TryAgain(TryAgain(u, runtime, w, a), runtime, w, b), runtime, w, 2, c);
  }

  // ---- Approvals and associations ----

  lemma ApprovalOutcome(s: State, runtime: nat, route: nat, m: nat)
    ensures var t, k := ConfirmBy(s, runtime, route, m), Key(runtime, m);
            if IsRead(s, route, m) && s.messages[m].available then
              && OnlyRowsDiffer(s, t) && OtherRowsSame(s, t, k) && k in t.rows
              && t.rows[k] == if k in s.rows then Row(s.rows[k].route, s.messages[m].revision, Processed, s.rows[k].batch, s.rows[k].retry)
                              else Row(route, s.messages[m].revision, Processed, None, 0)
            else t == s
  {
  }

  ghost predicate IsFree(s: State, m: nat) {
    forall i :: 0 <= i < |s.links| ==> !Concerns(s.links[i], m)
  }

  predicate HasStarted(s: State, k: Key, a: nat, b: nat) {
    k in s.rows && k.message in {a, b} && s.rows[k].state in {Batched, Processed}
  }

  /** Two messages of different channels that no association concerns are associated, in
      ascending order; one whose analysis has started, if there is one, holds the claim. */
  lemma AssociationOutcome(s: State, a: nat, b: nat, pick: Option<Key>)
    ensures var t, first, second := Associate(s, a, b, pick), if a > b then b else a, if a > b then a else b;
            if a != b && a in s.messages && b in s.messages && s.messages[a].channel != s.messages[b].channel && IsFree(s, a) && IsFree(s, b)
               && (pick.None? <==> forall k :: !HasStarted(s, k, a, b)) && (pick.Some? ==> HasStarted(s, pick.value, a, b))
            then t == State(s.routes, s.messages, s.rows, s.batches, s.links + [Link(first, second, pick, |s.batches|)])
            else t == s
  {
    var first, second := if a > b then b else a, if a > b then a else b;
    forall m ensures IsFree(s, m) <==> !Linked(s, m) {
      if Linked(s, m) { var i :| 0 <= i < |s.links| && Touches(s.links[i], m); assert Concerns(s.links[i], m); }
      if !IsFree(s, m) { var i :| 0 <= i < |s.links| && Concerns(s.links[i], m); assert Touches(s.links[i], m); }
    }
    forall k ensures HasStarted(s, k, a, b) <==> Started(s, k, first, second) { }
  }
}
