/** Imports of a fixed range of history, done in claimed steps (internal/core/history_import.go).
    A step is claimed for two minutes under a fresh token, and commits or fails under it. Times
    are whole seconds; each transaction happens some seconds after the one before. */
module HistoryModel {
  import opened Options
  import opened Arithmetic

  datatype Status = Queued | Running | Completed | Cancelled | Failed

  datatype Import = Import(
    source: nat, route: nat, start: int, end: int, cursor: nat, status: Status, attempts: nat, failures: nat,
    events: nat, applied: nat, duplicates: nat, token: Option<nat>, until: int, next: int)

  /** `issued` are the tokens of all claims so far; 0 is the empty cursor. */
  datatype State = State(imports: map<nat, Import>, clock: int, issued: set<nat>)

  ghost predicate Initial(s: State) {
    s.imports == map[] && s.issued == {}
  }

  const MAX_RANGE: int := 30 * 24 * 3600
  const CLAIM_SECONDS: int := 120
  const MAX_EVENTS: nat := 200

  function Create(s: State, id: nat, source: nat, route: nat, start: int, end: int): State {
    if id in s.imports || end <= start || end - start > MAX_RANGE
      || exists i :: i in s.imports && s.imports[i].source == source && s.imports[i].route == route
                     && s.imports[i].start == start && s.imports[i].end == end then s
    else s.(imports := s.imports[id := Import(source, route, start, end, 0, Queued, 0, 0, 0, 0, 0, None, s.clock, s.clock)])
  }

  function Cancel(s: State, id: nat): State {
    if id !in s.imports || s.imports[id].status.Completed? then s
    else s.(imports := s.imports[id := s.imports[id].(status := Cancelled, token := None)])
  }

  /** `cursor` is what recoverLegacyHistoryCursor finds. */
  function Retry(s: State, id: nat, cursor: nat): State {
    if id !in s.imports || !(s.imports[id].status.Failed? || s.imports[id].status.Cancelled?) then s
    else s.(imports := s.imports[id :=
      s.imports[id].(status := Queued, cursor := cursor, failures := 0, next := s.clock, token := None)])
  }

  predicate Busy(s: State, i: Import) {
    i.status.Running? && i.until > s.clock
  }

  predicate SourceBusy(s: State, source: nat) {
    exists i :: i in s.imports && s.imports[i].source == source && Busy(s, s.imports[i])
  }

  predicate Claimable(s: State, i: Import) {
    (i.status.Queued? && i.next <= s.clock) || (i.status.Running? && i.until <= s.clock)
  }

  /** `pick` is the import that the query found first, on a route that is still admitted. */
  function Claim(s: State, source: nat, pick: nat, token: nat): State {
    if SourceBusy(s, source) || pick !in s.imports || s.imports[pick].source != source || !Claimable(s, s.imports[pick])
      || token in s.issued then s
    else
      var i := s.imports[pick];
      s.(imports := s.imports[pick := i.(status := Running, attempts := i.attempts + 1, token := Some(token), until := s.clock + CLAIM_SECONDS)],
         issued := s.issued + {token})
  }

  /** `admitted` says that the source still runs and the route is still its own. */
  predicate ClaimHolds(s: State, id: nat, token: nat, admitted: bool) {
    && id in s.imports && s.imports[id].status.Running? && s.imports[id].token == Some(token)
    && s.imports[id].until > s.clock && admitted
  }

  /** What a step brings: for each event whether it was known before, whether one of them is
      out of range, and where to go on. */
  datatype Page = Page(known: seq<bool>, misplaced: bool, complete: bool, cursor: nat)

  predicate Acceptable(p: Page) {
    |p.known| <= MAX_EVENTS && !p.misplaced && !(p.complete && p.cursor != 0)
  }

  function Count(known: seq<bool>, which: bool): (n: nat)
    ensures n <= |known|
  {
    if known == [] then 0 else (if known[0] == which then 1 else 0) + Count(known[1..], which)
  }

  predicate Stalled(i: Import, p: Page) {
    !p.complete && (p.cursor == 0 || p.cursor == i.cursor)
  }

  function Commit(i: Import, p: Page): Import {
    i.(status := if p.complete then Completed else if Stalled(i, p) then Failed else Queued,
       cursor := if Stalled(i, p) then i.cursor else p.cursor,
       events := i.events + |p.known|, applied := i.applied + Count(p.known, false), duplicates := i.duplicates + Count(p.known, true),
       failures := 0, token := None)
  }

  function Finish(s: State, id: nat, token: nat, admitted: bool, p: Page): State {
    if !ClaimHolds(s, id, token, admitted) || !Acceptable(p) then s
    else s.(imports := s.imports[id := Commit(s.imports[id], p).(next := s.clock)])
  }

  /** `final` are the codes after which a step is not tried again. */
  function Fail(s: State, id: nat, token: nat, admitted: bool, final: bool): State {
    if !ClaimHolds(s, id, token, admitted) then s
    else
      var i := s.imports[id];
      s.(imports := s.imports[id := i.(status := if i.failures >= 4 || final then Failed else Queued, failures := i.failures + 1,
                                       token := None, next := s.clock + 30 * Pow2(Min(i.failures, 4)))])
  }

  datatype Op =
    | OpCreate(id: nat, source: nat, route: nat, start: int, end: int)
    | OpCancel(id: nat)
    | OpRetry(id: nat, cursor: nat)
    | OpClaim(source: nat, id: nat, token: nat)
    | OpFinish(id: nat, token: nat, admitted: bool, page: Page)
    | OpFail(id: nat, token: nat, admitted: bool, final: bool)

  /** `wait` is the time since the transaction before. */
  datatype Event = Event(wait: nat, op: Op)

  function Apply(s: State, op: Op): State {
    match op
    case OpCreate(id, source, route, start, end) => Create(s, id, source, route, start, end)
    case OpCancel(id) => Cancel(s, id)
    case OpRetry(id, cursor) => Retry(s, id, cursor)
    case OpClaim(source, id, token) => Claim(s, source, id, token)
    case OpFinish(id, token, admitted, p) => Finish(s, id, token, admitted, p)
    case OpFail(id, token, admitted, final) => Fail(s, id, token, admitted, final)
  }

  function Wait(s: State, wait: nat): State {
    s.(clock := s.clock + wait)
  }

  function Step(s: State, e: Event): State {
    Apply(Wait(s, e.wait), e.op)
  }

  function Run(s: State, events: seq<Event>): State
    decreases |events|
  {
    if events == [] then s else Run(Step(s, events[0]), events[1..])
  }
}
