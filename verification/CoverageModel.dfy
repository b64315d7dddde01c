/** Which part of a conversation's history was read completely: windows, the covered mark and
    the gap flag (internal/core/coverage.go, internal/core/history_import.go). Times are whole
    seconds; the rows are those of one conversation on one channel. */
module CoverageModel {
  import opened Options

  /** The range [start, end); `resolved` is set once a complete window has covered a gap. */
  datatype Window = Window(start: int, end: int, complete: bool, resolved: bool)

  /** `origin` is the start of the window that first set `covered`. */
  datatype State = State(windows: seq<Window>, observed: Option<int>, covered: Option<int>, flag: bool, origin: Option<int>)

  const EMPTY := State([], None, None, false, None)

  function Later(a: Option<int>, b: Option<int>): Option<int> {
    if a.None? then b else if b.None? || b.value <= a.value then a else b
  }

  function Observe(s: State, at: Option<int>): State {
    if at.None? then s else s.(observed := Later(s.observed, at))
  }

  // ---- RecordCoverage ----

  datatype Attempt = Attempt(start: int, end: int, complete: bool, hasReason: bool)

  predicate Valid(a: Attempt) {
    a.start < a.end && (a.complete || a.hasReason)
  }

  predicate Inside(w: Window, start: int, end: int) {
    start <= w.start && w.end <= end
  }

  function Resolve(w: Window, a: Attempt): Window {
    if a.complete && !w.complete && !w.resolved && Inside(w, a.start, a.end) then w.(resolved := true) else w
  }

  function ResolveAll(ws: seq<Window>, a: Attempt): (r: seq<Window>)
    ensures |r| == |ws| && forall i :: 0 <= i < |ws| ==> r[i] == Resolve(ws[i], a)
  {
    if ws == [] then [] else [Resolve(ws[0], a)] + ResolveAll(ws[1..], a)
  }

  predicate Leaps(s: State, a: Attempt) {
    a.complete && s.covered.Some? && a.start > s.covered.value
  }

  predicate Open(w: Window) {
    !w.complete && !w.resolved
  }

  predicate AnyOpen(ws: seq<Window>) {
    exists i :: 0 <= i < |ws| && Open(ws[i])
  }

  function Covered(s: State, a: Attempt): Option<int> {
    if !a.complete || Leaps(s, a) then s.covered else Later(s.covered, Some(a.end))
  }

  function WindowsAfter(s: State, a: Attempt): seq<Window> {
    ResolveAll(s.windows + [Window(a.start, a.end, a.complete, false)], a)
    + if Leaps(s, a) then [Window(s.covered.value, a.start, false, false)] else []
  }

  function Record(s: State, a: Attempt): State {
    if !Valid(a) then s
    else
      var windows := WindowsAfter(s, a);
      State(windows, Later(s.observed, Covered(s, a)), Covered(s, a), !a.complete || AnyOpen(windows),
            if a.complete && s.covered.None? then Some(a.start) else s.origin)
  }

  // ---- FinishHistoryImport ----

  function Adopt(w: Window, start: int, end: int): Window {
    if w.start == start && w.end == end then w.(complete := true) else w
  }

  function AdoptAll(ws: seq<Window>, start: int, end: int): (r: seq<Window>)
    ensures |r| == |ws| && forall i :: 0 <= i < |ws| ==> r[i] == Adopt(ws[i], start, end)
  {
    if ws == [] then [] else [Adopt(ws[0], start, end)] + AdoptAll(ws[1..], start, end)
  }

  predicate AnyIncomplete(ws: seq<Window>) {
    exists i :: 0 <= i < |ws| && !ws[i].complete
  }

  /** A finished import also takes back the earlier partial attempts at its own range. */
  function RecordImport(s: State, a: Attempt): State {
    var t := Record(s, a);
    if !Valid(a) || !a.complete then t
    else
      var windows := AdoptAll(t.windows, a.start, a.end);
      t.(windows := windows, flag := AnyIncomplete(windows))
  }

  datatype Op = Seen(at: Option<int>) | Pull(attempt: Attempt) | Import(attempt: Attempt)

  function Step(s: State, op: Op): State {
    match op
    case Seen(at) => Observe(s, at)
    case Pull(a) => Record(s, a)
    case Import(a) => RecordImport(s, a)
  }

  function Run(s: State, ops: seq<Op>): State
    decreases |ops|
  {
    if ops == [] then s else Run(Step(s, ops[0]), ops[1..])
  }

  // ---- NextWindow ----

  datatype Range = Range(start: int, end: int)

  function Span(span: int): int {
    if span <= 0 then 3600 else span
  }

  function Overlap(overlap: int): int {
    if overlap < 0 then 0 else overlap
  }

  function NextWindow(s: State, now: int, span: int, overlap: int): Range {
    if s.covered.None? then Range(now - Span(span), now)
    else
      var start := s.covered.value - Overlap(overlap);
      if now - start > Span(span) then Range(start, start + Span(span))
      else if now <= start then Range(start, start + Span(span))
      else Range(start, now)
  }

  /** One pull that reads its whole window. */
  function PullNext(s: State, now: int, span: int, overlap: int): State {
    var r := NextWindow(s, now, span, overlap);
    Record(s, Attempt(r.start, r.end, true, false))
  }

  function Pulls(s: State, now: int, span: int, overlap: int, k: nat): State {
    if k == 0 then s else PullNext(Pulls(s, now, span, overlap, k - 1), now, span, overlap)
  }
}
