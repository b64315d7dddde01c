module CoverageTheorems {
  import opened Options
  import opened CoverageModel
  import opened Arithmetic

  ghost predicate Read(ws: seq<Window>, t: int) {
    exists i :: 0 <= i < |ws| && ws[i].complete && ws[i].start <= t < ws[i].end
  }

  /** Every instant from the first complete window up to the covered mark was read. */
  ghost predicate AllRead(s: State) {
    && (s.covered.Some? <==> s.origin.Some?)
    && (s.covered.Some? ==> forall t :: s.origin.value <= t < s.covered.value ==> Read(s.windows, t))
  }

  ghost predicate InsideComplete(ws: seq<Window>, w: Window) {
    exists i :: 0 <= i < |ws| && ws[i].complete && Inside(w, ws[i].start, ws[i].end)
  }

  ghost predicate ResolvedRightly(s: State) {
    forall i :: 0 <= i < |s.windows| && s.windows[i].resolved ==> InsideComplete(s.windows, s.windows[i])
  }

  ghost predicate Flagged(s: State) {
    AnyOpen(s.windows) ==> s.flag
  }

  ghost predicate Inv(s: State) {
    AllRead(s) && ResolvedRightly(s) && Flagged(s)
  }

  /** Windows only come, and stay complete. */
  ghost predicate Extends(ws: seq<Window>, vs: seq<Window>) {
    |ws| <= |vs| && forall i :: 0 <= i < |ws| ==> vs[i].start == ws[i].start && vs[i].end == ws[i].end && (ws[i].complete ==> vs[i].complete)
  }

  lemma ExtendsRead(ws: seq<Window>, vs: seq<Window>, t: int)
    requires Extends(ws, vs) && Read(ws, t)
    ensures Read(vs, t)
  {
  }

  lemma ExtendsInside(ws: seq<Window>, vs: seq<Window>, w: Window)
    requires Extends(ws, vs) && InsideComplete(ws, w)
    ensures InsideComplete(vs, w)
  {
  }

  lemma RecordAllRead(s: State, a: Attempt)
    requires AllRead(s) && Valid(a)
    ensures AllRead(Record(s, a))
  {
    var t := Record(s, a);
    assert Extends(s.windows, t.windows);
    assert t.windows[|s.windows|] == Window(a.start, a.end, a.complete, false);
    if t.covered.Some? {
      forall x | t.origin.value <= x < t.covered.value ensures Read(t.windows, x) {
        if s.covered.Some? && x < s.covered.value { ExtendsRead(s.windows, t.windows, x); }
      }
    }
  }

  lemma RecordResolves(s: State, a: Attempt)
    requires ResolvedRightly(s) && Valid(a)
    ensures ResolvedRightly(Record(s, a))
  {
    var t := Record(s, a);
    assert Extends(s.windows, t.windows);
    var added := t.windows[|s.windows|];
    assert added == Window(a.start, a.end, a.complete, false);
    forall i | 0 <= i < |t.windows| && t.windows[i].resolved ensures InsideComplete(t.windows, t.windows[i]) {
      if s.windows[i].resolved {
        ExtendsInside(s.windows, t.windows, s.windows[i]);
      } else {
        assert Inside(t.windows[i], added.start, added.end) && added.complete;
      }
    }
  }

  /** After every recorded attempt the flag says exactly whether a gap is open, even if it was
      wrong before. */
  lemma RecordSettlesFlag(s: State, a: Attempt)
    requires Valid(a)
    ensures Record(s, a).flag <==> AnyOpen(Record(s, a).windows)
  {
    var t := Record(s, a);
    assert t.windows[|s.windows|] == Resolve(Window(a.start, a.end, a.complete, false), a);
    if !a.complete { assert Open(t.windows[|s.windows|]); }
  }

  lemma AdoptKeeps(s: State, a: Attempt)
    requires Inv(s) && Valid(a) && a.complete
    ensures Inv(RecordImport(s, a))
  {
    RecordAllRead(s, a);
    RecordResolves(s, a);
    var m, t := Record(s, a), RecordImport(s, a);
    assert Extends(m.windows, t.windows);
    if t.covered.Some? {
      forall x | t.origin.value <= x < t.covered.value ensures Read(t.windows, x) { ExtendsRead(m.windows, t.windows, x); }
    }
    forall i | 0 <= i < |t.windows| && t.windows[i].resolved ensures InsideComplete(t.windows, t.windows[i]) {
      ExtendsInside(m.windows, t.windows, m.windows[i]);
      assert Inside(t.windows[i], m.windows[i].start, m.windows[i].end);
    }
  }

  lemma StepKeeps(s: State, op: Op)
    requires Inv(s)
    ensures Inv(Step(s, op))
  {
    match op
    case Seen(at) =>
    case Pull(a) => if Valid(a) { RecordAllRead(s, a); RecordResolves(s, a); RecordSettlesFlag(s, a); }
    case Import(a) =>
      if Valid(a) {
        if a.complete { AdoptKeeps(s, a); } else { RecordAllRead(s, a); RecordResolves(s, a); RecordSettlesFlag(s, a); }
      }
  }

  lemma {:induction false} RunKeeps(s: State, ops: seq<Op>)
    requires Inv(s)
    ensures Inv(Run(s, ops))
    decreases |ops|
  {
    if ops != [] {
      StepKeeps(s, ops[0]);
      RunKeeps(Step(s, ops[0]), ops[1..]);
    }
  }

  /** Over any mix of pulls and imports: no instant up to the covered mark was skipped, a gap
      counts as resolved only inside one complete window, and an open gap keeps the flag up. */
  lemma CoverageIsHonest(ops: seq<Op>, t: int, i: nat)
    ensures var s := Run(EMPTY, ops);
            && (s.covered.Some? && s.origin.Some? && s.origin.value <= t < s.covered.value ==> Read(s.windows, t))
            && (s.covered.Some? <==> s.origin.Some?)
            && (i < |s.windows| && s.windows[i].resolved ==> InsideComplete(s.windows, s.windows[i]))
            && (i < |s.windows| && Open(s.windows[i]) ==> s.flag)
  {
    RunKeeps(EMPTY, ops);
  }

  ghost predicate Advances(s: State, t: State) {
    s.covered.Some? ==> t.covered.Some? && s.covered.value <= t.covered.value && t.origin == s.origin
  }

  /** The covered mark never moves back, and its origin never moves. */
  lemma {:induction false} CoveredNeverRecedes(s: State, ops: seq<Op>)
    ensures Advances(s, Run(s, ops))
    decreases |ops|
  {
    if ops != [] { CoveredNeverRecedes(Step(s, ops[0]), ops[1..]); }
  }

  predicate NoImport(ops: seq<Op>) {
    forall i :: 0 <= i < |ops| ==> !ops[i].Import?
  }

  function Max(a: int, b: int): int {
    if a > b then a else b
  }

  /** What one recorded attempt does to the rows: its own window is added, a complete one resolves
      the open gaps inside its range, and one that starts beyond the covered mark leaves a gap. */
  lemma RecordedWindows(s: State, a: Attempt)
    ensures var t, n := Record(s, a), |s.windows|;
            if a.start < a.end && (a.complete || a.hasReason) then
              var leaps := a.complete && s.covered.Some? && s.covered.value < a.start;
              && |t.windows| == n + (if leaps then 2 else 1) && t.windows[n] == Window(a.start, a.end, a.complete, false)
              && (leaps ==> t.windows[n + 1] == Window(s.covered.value, a.start, false, false))
              && forall i :: 0 <= i < n ==>
                   var w := s.windows[i];
                   t.windows[i] == if a.complete && !w.complete && a.start <= w.start && w.end <= a.end then Window(w.start, w.end, false, true) else w
            else t == s
  {
  }

  /** ... and to the marks: only a complete window that starts at or before the covered mark, or
      the first one, moves it, and never back; the observed mark follows it. */
  lemma RecordedMarks(s: State, a: Attempt)
    requires a.start < a.end && (a.complete || a.hasReason)
    ensures var t := Record(s, a);
            && t.covered == (if a.complete && s.covered == None then Some(a.end)
                             else if a.complete && a.start <= s.covered.value then Some(Max(s.covered.value, a.end)) else s.covered)
            && t.origin == (if a.complete && s.covered == None then Some(a.start) else s.origin)
            && t.observed == (if t.covered == None then s.observed
                              else if s.observed == None then t.covered else Some(Max(s.observed.value, t.covered.value)))
  {
  }

  lemma ObservedMark(s: State, at: Option<int>)
    ensures Observe(s, at) == if at == None then s else s.(observed := if s.observed == None then at else Some(Max(s.observed.value, at.value)))
  {
  }

  /** A finished import also takes back each earlier attempt at exactly its range; a partial one
      is recorded like a pull. */
  lemma ImportedWindows(s: State, a: Attempt)
    ensures var t, r := RecordImport(s, a), Record(s, a);
            if a.complete && a.start < a.end then
              && |t.windows| == |r.windows| && t.covered == r.covered && t.observed == r.observed && t.origin == r.origin
              && forall i :: 0 <= i < |t.windows| ==>
                   var w := r.windows[i];
                   t.windows[i] == if w.start == a.start && w.end == a.end then Window(w.start, w.end, true, w.resolved) else w
            else t == r
  {
  }

  /** With pulls alone the flag is exact. */
  lemma {:induction false} FlagIsExactWithoutImports(s: State, ops: seq<Op>)
    requires NoImport(ops) && (s.flag <==> AnyOpen(s.windows))
    ensures Run(s, ops).flag <==> AnyOpen(Run(s, ops).windows)
    decreases |ops|
  {
    if ops != [] {
      if ops[0].Pull? && Valid(ops[0].attempt) { RecordSettlesFlag(s, ops[0].attempt); }
      FlagIsExactWithoutImports(Step(s, ops[0]), ops[1..]);
    }
  }

  predicate InRange(w: Window, a: Attempt) {
    w.start == a.start && w.end == a.end
  }

  /** A gap that is open and reaches out of the range. */
  predicate OpenOutside(ws: seq<Window>, a: Attempt) {
    exists i :: 0 <= i < |ws| && Open(ws[i]) && !Inside(ws[i], a.start, a.end)
  }

  /** A gap of another range that is resolved, or that this range resolves. */
  predicate PassedOver(ws: seq<Window>, a: Attempt) {
    exists i :: 0 <= i < |ws| && !ws[i].complete && (ws[i].resolved || Inside(ws[i], a.start, a.end)) && !InRange(ws[i], a)
  }

  /** Row by row: each window after the import, and the gap that a leap leaves. */
  lemma ImportRows(s: State, a: Attempt)
    requires Valid(a) && a.complete
    ensures var ws, n := RecordImport(s, a).windows, |s.windows|;
            && |ws| == n + 1 + (if Leaps(s, a) then 1 else 0) && ws[n].complete
            && (forall i :: 0 <= i < n ==> ws[i] == Adopt(Resolve(s.windows[i], a), a.start, a.end))
            && (Leaps(s, a) ==> Open(ws[n + 1]))
  {
  }

  lemma ImportLeavesOpen(s: State, a: Attempt)
    requires Valid(a) && a.complete
    ensures AnyOpen(RecordImport(s, a).windows) <==> Leaps(s, a) || OpenOutside(s.windows, a)
  {
    var ws, n := RecordImport(s, a).windows, |s.windows|;
    ImportRows(s, a);
    forall i | 0 <= i < n ensures Open(ws[i]) <==> Open(s.windows[i]) && !Inside(s.windows[i], a.start, a.end) { }
    if OpenOutside(s.windows, a) {
      var i :| 0 <= i < n && Open(s.windows[i]) && !Inside(s.windows[i], a.start, a.end);
      assert Open(ws[i]);
    }
  }

  lemma ImportLeavesIncomplete(s: State, a: Attempt)
    requires Valid(a) && a.complete
    ensures AnyIncomplete(RecordImport(s, a).windows) <==> Leaps(s, a) || OpenOutside(s.windows, a) || PassedOver(s.windows, a)
  {
    var ws, n := RecordImport(s, a).windows, |s.windows|;
    ImportRows(s, a);
    forall i | 0 <= i < n ensures !ws[i].complete <==> !s.windows[i].complete && !InRange(s.windows[i], a) { }
    if OpenOutside(s.windows, a) {
      var i :| 0 <= i < n && Open(s.windows[i]) && !Inside(s.windows[i], a.start, a.end);
      assert !ws[i].complete;
    }
    if PassedOver(s.windows, a) {
      var i :| 0 <= i < n && !s.windows[i].complete && (s.windows[i].resolved || Inside(s.windows[i], a.start, a.end)) && !InRange(s.windows[i], a);
      assert !ws[i].complete;
    }
    if AnyIncomplete(ws) {
      var i :| 0 <= i < |ws| && !ws[i].complete;
      assert i < n ==> Open(s.windows[i]) || s.windows[i].resolved;
    }
  }

  /** A finished import leaves the flag exact unless it passes over some gap of another range
      that is resolved, or that it resolves, while no gap stays open: the flag counts incomplete
      windows without asking whether they were resolved. */
  lemma ImportFlagExactlyWhen(s: State, a: Attempt)
    requires Valid(a) && a.complete
    ensures (RecordImport(s, a).flag <==> AnyOpen(RecordImport(s, a).windows)) <==>
            Leaps(s, a) || OpenOutside(s.windows, a) || !PassedOver(s.windows, a)
  {
    ImportLeavesOpen(s, a);
    ImportLeavesIncomplete(s, a);
  }

  /** Such a state can be reached: a gap, a pull over it, and an import of another range. */
  lemma ImportRaisesFlagWrongly()
    ensures var s := Run(EMPTY, [Pull(Attempt(10, 20, false, true)), Pull(Attempt(10, 30, true, false)), Import(Attempt(20, 30, true, false))]);
            s.flag && !AnyOpen(s.windows)
  {
  }

  // ---- Catching up ----

  function Earlier(a: int, b: int): int {
    if a < b then a else b
  }

  /** A pull moves the mark by the span less the overlap, but not beyond the present. */
  lemma PullAdvances(s: State, now: int, span: int, overlap: int)
    requires s.covered.Some? && s.covered.value <= now && 0 <= overlap < span && now - s.covered.value + overlap > 0
    ensures var t := PullNext(s, now, span, overlap);
            && t.covered == Some(Earlier(now, s.covered.value + (span - overlap)))
            && t.windows[..|s.windows|] == ResolveAll(s.windows, Attempt(NextWindow(s, now, span, overlap).start, NextWindow(s, now, span, overlap).end, true, false))
            && |t.windows| == |s.windows| + 1 && t.windows[|s.windows|].complete
  {
  }

  /** No pull of the proposed window leaves a gap behind. */
  lemma ProposedWindowOpensNoGap(s: State, now: int, span: int, overlap: int)
    ensures var t := PullNext(s, now, span, overlap);
            |t.windows| == |s.windows| + 1 && t.windows[|s.windows|].complete
            && forall i :: 0 <= i < |s.windows| && Open(t.windows[i]) ==> Open(s.windows[i])
  {
  }

  /** With a fixed clock and complete pulls the mark moves in equal strides up to the present. */
  lemma {:induction false} CatchUpInStrides(s: State, now: int, span: int, overlap: int, k: nat)
    requires s.covered.Some? && s.covered.value < now && 0 <= overlap < span
    requires k * (span - overlap) < now - s.covered.value + (span - overlap)
    ensures Pulls(s, now, span, overlap, k).covered == Some(Earlier(now, s.covered.value + k * (span - overlap)))
  {
    if k > 0 {
      var stride := span - overlap;
      assert k * stride == (k - 1) * stride + stride;
      CatchUpInStrides(s, now, span, overlap, k - 1);
      PullAdvances(Pulls(s, now, span, overlap, k - 1), now, span, overlap);
    }
  }

  /** The present is reached in exactly the distance divided by the stride, rounded up. */
  lemma CatchUpBound(s: State, now: int, span: int, overlap: int)
    requires s.covered.Some? && s.covered.value < now && 0 <= overlap < span
    ensures var k := CeilDiv(now - s.covered.value, span - overlap);
            Pulls(s, now, span, overlap, k).covered == Some(now)
    ensures forall j: nat :: j < CeilDiv(now - s.covered.value, span - overlap) ==>
              Pulls(s, now, span, overlap, j).covered.Some? && Pulls(s, now, span, overlap, j).covered.value < now
  {
    var stride, k := span - overlap, CeilDiv(now - s.covered.value, span - overlap);
    StridesOrder(k - 1, k, stride);
    CatchUpInStrides(s, now, span, overlap, k);
    forall j: nat | j < k ensures Pulls(s, now, span, overlap, j).covered.Some? && Pulls(s, now, span, overlap, j).covered.value < now {
      StridesOrder(j, k - 1, stride);
      CatchUpInStrides(s, now, span, overlap, j);
    }
  }

  lemma StridesOrder(j: int, k: int, stride: nat)
    requires j <= k
    ensures j * stride <= k * stride && (k - j) * stride == k * stride - j * stride
  {
  }

  /** The first window ends now. Later ones start the overlap before the covered mark and are one
      span long, or end now if that is nearer; without a span it is an hour, and a negative
      overlap is none. */
  lemma ProposedWindow(s: State, now: int, span: int, overlap: int)
    ensures var r, long, back := NextWindow(s, now, span, overlap), if span > 0 then span else 60 * 60, if overlap > 0 then overlap else 0;
            if s.covered == None then r.end == now && r.start == now - long
            else r.start == s.covered.value - back && r.start < r.end <= r.start + long
                 && (r.end == now || r.end == r.start + long) && (r.end < r.start + long ==> r.end == now)
                 && (r.start < now <= r.start + long ==> r.end == now)
  {
  }

  /** The proposal reaches beyond the present exactly when the mark is ahead of the clock by the
      overlap or more. */
  lemma ProposesTheFutureExactlyWhen(s: State, now: int, span: int, overlap: int)
    ensures NextWindow(s, now, span, overlap).end > now <==> s.covered.Some? && now <= s.covered.value - Overlap(overlap)
  {
  }

  /** One complete pull at each of these times. */
  function PullsAt(s: State, nows: seq<int>, span: int, overlap: int): State
    decreases |nows|
  {
    if nows == [] then s else PullsAt(PullNext(s, nows[0], span, overlap), nows[1..], span, overlap)
  }

  ghost predicate Ascending(nows: seq<int>) {
    forall i, j :: 0 <= i < j < |nows| ==> nows[i] <= nows[j]
  }

  ghost predicate NotAhead(s: State, now: int) {
    s.covered.Some? ==> s.covered.value <= now
  }

  /** However often and at whatever intervals windows are pulled: the covered mark never passes
      the present, as long as windows overlap at all, and no gap is opened on the way. */
  lemma {:induction false} PullsStayInThePast(s: State, nows: seq<int>, span: int, overlap: int)
    requires overlap > 0 && nows != [] && Ascending(nows) && NotAhead(s, nows[0])
    ensures NotAhead(PullsAt(s, nows, span, overlap), nows[|nows| - 1])
    ensures AnyOpen(PullsAt(s, nows, span, overlap).windows) ==> AnyOpen(s.windows)
    decreases |nows|
  {
    var t := PullNext(s, nows[0], span, overlap);
    ProposesTheFutureExactlyWhen(s, nows[0], span, overlap);
    ProposedWindowOpensNoGap(s, nows[0], span, overlap);
    assert AnyOpen(t.windows) ==> AnyOpen(s.windows);
    assert NotAhead(t, nows[0]);
    if |nows| > 1 {
      PullsStayInThePast(t, nows[1..], span, overlap);
    } else {
      assert PullsAt(t, nows[1..], span, overlap) == t;
    }
  }

  /** Without an overlap the second pull of one instant already covers the future. */
  lemma SecondPullCoversTheFuture(now: int, span: int)
    requires span > 0
    ensures PullsAt(EMPTY, [now, now], span, 0).covered == Some(now + span)
  {
    assert [now, now][1..] == [now] && [now][1..] == [];
    var t := PullNext(EMPTY, now, span, 0);
    assert PullsAt(t, [now], span, 0) == PullNext(t, now, span, 0);
  }
}
