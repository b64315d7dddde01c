/** What each transaction on an import does, how its counters come about, and that no import
    is ever stuck. */
module HistoryOutcomes {
  import opened Options
  import opened HistoryModel
  import opened HistoryTheorems
  import opened Arithmetic

  ghost predicate Becomes(s: State, t: State, id: nat, h: Import) {
    t.imports == s.imports[id := h] && t.clock == s.clock && t.issued == s.issued
  }

  /** A range of at most thirty days that no import of the source and route has is queued at once. */
  lemma CreationOutcome(s: State, id: nat, source: nat, route: nat, start: int, end: int)
    requires id !in s.imports
    ensures var t := Create(s, id, source, route, start, end);
            if start < end <= start + 30 * 24 * 60 * 60
              && forall i :: i in s.imports ==> (s.imports[i].source, s.imports[i].route, s.imports[i].start, s.imports[i].end) != (source, route, start, end)
            then Becomes(s, t, id, Import(source, route, start, end, 0, Queued, 0, 0, 0, 0, 0, None, s.clock, s.clock))
            else t == s
  {
  }

  /** A cancelled import gives up its claim; a retried one starts afresh at once, without its
      failures, from the place that is found for it. */
  lemma OwnerOutcome(s: State, id: nat, cursor: nat)
    requires id in s.imports
    ensures var t, h := Cancel(s, id), s.imports[id];
            if h.status != Completed then Becomes(s, t, id, h.(status := Cancelled, token := None)) else t == s
    ensures var t, h := Retry(s, id, cursor), s.imports[id];
            if h.status == Failed || h.status == Cancelled
            then Becomes(s, t, id, h.(status := Queued, cursor := cursor, failures := 0, next := s.clock, token := None)) else t == s
  {
  }

  /** The import is due, or its claim has run out. */
  predicate IsDue(s: State, h: Import) {
    (h.status == Queued && h.next <= s.clock) || (h.status == Running && h.until <= s.clock)
  }

  ghost predicate NoneLive(s: State, source: nat) {
    forall i :: i in s.imports && s.imports[i].source == source ==> !(s.imports[i].status == Running && s.imports[i].until > s.clock)
  }

  /** A due import is claimed for two minutes, unless another one of its source is. */
  lemma ClaimOutcome(s: State, source: nat, pick: nat, token: nat)
    requires token !in s.issued
    ensures var t := Claim(s, source, pick, token);
            if pick in s.imports && s.imports[pick].source == source && IsDue(s, s.imports[pick]) && NoneLive(s, source) then
              var h := s.imports[pick];
              && t.imports == s.imports[pick := h.(status := Running, attempts := h.attempts + 1, token := Some(token), until := s.clock + 120)]
              && t.clock == s.clock && t.issued == s.issued + {token}
            else t == s
  {
    if SourceBusy(s, source) {
      var i :| i in s.imports && s.imports[i].source == source && Busy(s, s.imports[i]);
      assert !NoneLive(s, source);
    } else {
      forall i | i in s.imports && s.imports[i].source == source ensures !Busy(s, s.imports[i]) { }
    }
  }

  ghost predicate IsLive(s: State, id: nat, token: nat) {
    id in s.imports && s.imports[id].status == Running && s.imports[id].token == Some(token) && s.clock < s.imports[id].until
  }

  lemma {:induction false} CountIsMultiplicity(known: seq<bool>, which: bool)
    ensures Count(known, which) == multiset(known)[which]
    decreases |known|
  {
    if known != [] {
      CountIsMultiplicity(known[1..], which);
      assert known == [known[0]] + known[1..];
    }
  }

  /** The place to go on: after the last page none, after a page that brought no new place the
      old one. */
  predicate GoesOn(h: Import, p: Page) {
    !p.complete && p.cursor != 0 && p.cursor != h.cursor
  }

  /** A page under a live claim adds its events, the new ones to the applied and the known ones
      to the duplicates. The last page completes the import, a page with a new place queues it
      again at once, and one that brings no new place stops it. */
  lemma CommitOutcome(s: State, id: nat, token: nat, admitted: bool, p: Page)
    ensures var t := Finish(s, id, token, admitted, p);
            if admitted && IsLive(s, id, token) && |p.known| <= 200 && !p.misplaced && (p.complete ==> p.cursor == 0) then
              var h := s.imports[id];
              id in t.imports && Becomes(s, t, id, t.imports[id]) &&
              t.imports[id] == h.(
                events := h.events + |p.known|,
                applied := h.applied + multiset(p.known)[false], duplicates := h.duplicates + multiset(p.known)[true],
                status := if p.complete then Completed else if GoesOn(h, p) then Queued else Failed,
                cursor := if GoesOn(h, p) || p.complete then p.cursor else h.cursor,
                failures := 0, token := None, next := s.clock)
            else t == s
  {
    CountIsMultiplicity(p.known, false);
    CountIsMultiplicity(p.known, true);
  }

  /** Seconds of rest after so many failures in a row. */
  function Rest(failures: nat): nat {
    if failures == 0 then 30 else if failures == 1 then 60 else if failures == 2 then 120 else if failures == 3 then 240 else 480
  }

  lemma FailureOutcome(s: State, id: nat, token: nat, admitted: bool, final: bool)
    ensures var t := Fail(s, id, token, admitted, final);
            if admitted && IsLive(s, id, token) then
              var h := s.imports[id];
              Becomes(s, t, id, h.(status := if final || h.failures >= 4 then Failed else Queued, failures := h.failures + 1,
                                   token := None, next := s.clock + Rest(h.failures)))
            else t == s
  {
    assert Pow2(0) == 1 && Pow2(1) == 2 && Pow2(2) == 4 && Pow2(3) == 8 && Pow2(4) == 16;
  }

  // ---- The counters over a run ----

  /** How many new or known events the pages brought that were committed for the import. */
  ghost function Gathered(s: State, events: seq<Event>, id: nat, which: bool): nat
    decreases |events|
  {
    if events == [] then 0
    else
      (match events[0].op
       case OpFinish(i, token, admitted, p) =>
         if i == id && admitted && IsLive(Wait(s, events[0].wait), id, token) && |p.known| <= 200 && !p.misplaced && (p.complete ==> p.cursor == 0)
         then multiset(p.known)[which] else 0
       case _ => 0) + Gathered(Step(s, events[0]), events[1..], id, which)
  }

  /** Nothing else moves the counters: applied counts exactly the new events of the committed
      pages, and duplicates the known ones. */
  lemma {:induction false} CountersAddUp(s: State, events: seq<Event>, id: nat)
    requires id in s.imports
    ensures var h, u := s.imports[id], Run(s, events);
            && id in u.imports
            && u.imports[id].applied == h.applied + Gathered(s, events, id, false)
            && u.imports[id].duplicates == h.duplicates + Gathered(s, events, id, true)
    decreases |events|
  {
    if events != [] {
      var w, op := Wait(s, events[0].wait), events[0].op;
      if op.OpFinish? { CommitOutcome(w, op.id, op.token, op.admitted, op.page); }
      CountersAddUp(Step(s, events[0]), events[1..], id);
    }
  }

  // ---- No import is stuck ----

  lemma {:induction false} LongEnough(s: State, ids: set<nat>) returns (wait: nat)
    requires ids <= s.imports.Keys
    ensures forall i :: i in ids ==> s.imports[i].until <= s.clock + wait
    decreases |ids|
  {
    wait := 0;
    if ids != {} {
      var i :| i in ids;
      wait := LongEnough(s, ids - {i});
      if s.imports[i].until > s.clock + wait { wait := s.imports[i].until - s.clock; }
      assert forall j :: j in ids ==> j == i || j in ids - {i};
    }
  }

  lemma {:induction false} Unused(tokens: set<nat>) returns (token: nat)
    ensures token !in tokens && forall t :: t in tokens ==> t < token
    decreases |tokens|
  {
    token := 0;
    if tokens != {} {
      var t :| t in tokens;
      token := Unused(tokens - {t});
      if token <= t { token := t + 1; }
      assert forall j :: j in tokens ==> j == t || j in tokens - {t};
    }
  }

  lemma {:induction false} RunConcat(s: State, a: seq<Event>, b: seq<Event>)
    ensures Run(s, a + b) == Run(Run(s, a), b)
    decreases |a|
  {
    if a == [] {
      assert a + b == b;
    } else {
      assert (a + b)[0] == a[0] && (a + b)[1..] == a[1..] + b;
      RunConcat(Step(s, a[0]), a[1..], b);
    }
  }

  lemma RunTwo(s: State, a: Event, b: Event)
    ensures Run(s, [a, b]) == Step(Step(s, a), b)
  {
    assert [a, b][1..] == [b] && [b][1..] == [];
    assert Run(Step(s, a), [b]) == Step(Step(s, a), b);
  }

  /** Once every claim has run out, a queued import is taken up and read to its end. */
  lemma QueuedCanComplete(s: State, id: nat) returns (later: seq<Event>)
    requires id in s.imports && s.imports[id].status == Queued && s.imports[id].next <= s.clock
    ensures id in Run(s, later).imports && Run(s, later).imports[id].status == Completed
  {
    var wait := LongEnough(s, s.imports.Keys);
    var token := Unused(s.issued);
    var w := Wait(s, wait);
    ClaimOutcome(w, s.imports[id].source, id, token);
    var m := Claim(w, s.imports[id].source, id, token);
    assert IsLive(m, id, token);
    CommitOutcome(m, id, token, true, Page([], false, true, 0));
    var claim, finish := Event(wait, OpClaim(s.imports[id].source, id, token)), Event(0, OpFinish(id, token, true, Page([], false, true, 0)));
    assert Step(s, claim) == m && Wait(m, 0) == m;
    RunTwo(s, claim, finish);
    later := [claim, finish];
  }

  /** After any run, whatever failed, was cancelled or was left claimed: some course completes
      the import. */
  lemma NoImportIsStuck(s: State, before: seq<Event>, id: nat) returns (later: seq<Event>)
    requires Initial(s) && id in Run(s, before).imports
    ensures id in Run(s, before + later).imports && Run(s, before + later).imports[id].status == Completed
  {
    var u := Run(s, before);
    if u.imports[id].status == Completed {
      later := [];
      assert before + later == before;
    } else {
      var cancel, retry := Event(0, OpCancel(id)), Event(0, OpRetry(id, 0));
      OwnerOutcome(u, id, 0);
      assert Step(u, cancel) == Cancel(u, id);
      OwnerOutcome(Cancel(u, id), id, 0);
      var m := Retry(Cancel(u, id), id, 0);
      assert Step(Cancel(u, id), retry) == m;
      RunTwo(u, cancel, retry);
      var rest := QueuedCanComplete(m, id);
      RunConcat(u, [cancel, retry], rest);
      later := [cancel, retry] + rest;
      RunConcat(s, before, later);
    }
  }
}
