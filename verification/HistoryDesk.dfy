module HistoryDesk {
  import opened Options
  import opened HistoryModel
  import opened HistoryTheorems
  import opened Arithmetic

  class Desk {
    var imports: map<nat, Import>
    var clock: int
    ghost var issued: set<nat>

    ghost function Tables(): State
      reads this
    {
      State(imports, clock, issued)
    }

    constructor (clock: int)
      ensures Tables() == State(map[], clock, {})
    {
      imports, issued := map[], {};
      this.clock := clock;
    }

    method CreateHistoryImport(id: nat, source: nat, route: nat, start: int, end: int)
      modifies this
      ensures Tables() == Create(old(Tables()), id, source, route, start, end)
    {
      if end <= start || end - start > MAX_RANGE || id in imports { return; }
      if exists i :: i in imports && imports[i].source == source && imports[i].route == route
                     && imports[i].start == start && imports[i].end == end { return; }
      imports := imports[id := Import(source, route, start, end, 0, Queued, 0, 0, 0, 0, 0, None, clock, clock)];
    }

    method CancelHistoryImport(id: nat) returns (ok: bool)
      modifies this
      ensures Tables() == Cancel(old(Tables()), id)
      ensures ok <==> id in old(imports) && !old(imports)[id].status.Completed?
    {
      if id !in imports || imports[id].status == Completed { return false; }
      imports := imports[id := imports[id].(status := Cancelled, token := None)];
      ok := true;
    }

    method RetryHistoryImport(id: nat, cursor: nat) returns (ok: bool)
      modifies this
      ensures Tables() == Retry(old(Tables()), id, cursor)
      ensures ok <==> id in old(imports) && old(imports)[id].status in {Failed, Cancelled}
    {
      if id !in imports || imports[id].status !in {Failed, Cancelled} { return false; }
      imports := imports[id := imports[id].(status := Queued, cursor := cursor, failures := 0, next := clock, token := None)];
      ok := true;
    }

    /** `token` is a new identifier. */
    method ClaimHistoryImport(source: nat, pick: nat, token: nat) returns (ok: bool)
      requires token !in issued
      modifies this
      ensures Tables() == Claim(old(Tables()), source, pick, token)
      ensures ok <==> ClaimHolds(Tables(), pick, token, true) && !ClaimHolds(old(Tables()), pick, token, true)
      ensures !ok ==> Tables() == old(Tables())
    {
      var active := set i | i in imports && imports[i].source == source && imports[i].status == Running && imports[i].until > clock;
      if active != {} {
        var i :| i in active;
        assert SourceBusy(Tables(), source) by { assert Busy(Tables(), imports[i]); }
        return false;
      }
      assert !SourceBusy(Tables(), source) by {
        forall i | i in imports && imports[i].source == source ensures !Busy(Tables(), imports[i]) { assert i !in active; }
      }
      if pick !in imports || imports[pick].source != source { return false; }
      var h := imports[pick];
      if !((h.status == Queued && h.next <= clock) || (h.status == Running && h.until <= clock)) { return false; }
      imports := imports[pick := h.(status := Running, attempts := h.attempts + 1, token := Some(token), until := clock + CLAIM_SECONDS)];
      issued := issued + {token};
      ok := true;
    }

    method CheckHistoryClaim(id: nat, token: nat, admitted: bool) returns (ok: bool)
      ensures ok <==> ClaimHolds(Tables(), id, token, admitted)
    {
      if id !in imports { return false; }
      var current := imports[id];
      if current.status != Running || current.token == None || current.token != Some(token) || current.until <= clock { return false; }
      ok := admitted;
    }

    method FinishHistoryImport(id: nat, token: nat, admitted: bool, page: Page) returns (ok: bool)
      modifies this
      ensures Tables() == Finish(old(Tables()), id, token, admitted, page)
      ensures ok <==> ClaimHolds(old(Tables()), id, token, admitted) && Acceptable(page)
    {
      ok := CheckHistoryClaim(id, token, admitted);
      if !ok || |page.known| > MAX_EVENTS { return false; }
      var h, cursor := imports[id], page.cursor;
      var stalled := !page.complete && (cursor == 0 || cursor == h.cursor);
      if stalled { cursor := h.cursor; }
      if page.complete && cursor != 0 { return false; }
      if page.misplaced { return false; }
      var applied, duplicates := 0, 0;
      for i := 0 to |page.known|
        invariant applied + Count(page.known[i..], false) == Count(page.known, false)
        invariant duplicates + Count(page.known[i..], true) == Count(page.known, true)
      {
        assert page.known[i..][0] == page.known[i] && page.known[i..][1..] == page.known[i + 1..];
        if page.known[i] { duplicates := duplicates + 1; } else { applied := applied + 1; }
      }
      var status := Queued;
      if page.complete { status := Completed; } else if stalled { status := Failed; }
      imports := imports[id := h.(status := status, cursor := cursor, events := h.events + |page.known|, applied := h.applied + applied,
                                  duplicates := h.duplicates + duplicates, failures := 0, token := None, next := clock)];
      ok := true;
    }

    method FailHistoryImport(id: nat, token: nat, admitted: bool, final: bool) returns (ok: bool)
      modifies this
      ensures Tables() == Fail(old(Tables()), id, token, admitted, final)
      ensures ok <==> ClaimHolds(old(Tables()), id, token, admitted)
    {
      ok := CheckHistoryClaim(id, token, admitted);
      if !ok { return; }
      var h, status, delay := imports[id], Queued, 30;
      if h.failures >= 4 || final { status := Failed; }
      for i := 0 to Min(h.failures, 4)
        invariant delay == 30 * Pow2(i)
      {
        delay := delay * 2;
      }
      imports := imports[id := h.(status := status, failures := h.failures + 1, token := None, next := clock + delay)];
    }

    /** Any of these transactions, some time after the one before. */
    method Transact(e: Event)
      requires Inv(Tables()) && (e.op.OpClaim? ==> e.op.token !in issued)
      modifies this
      ensures Tables() == Step(old(Tables()), e) && Inv(Tables())
    {
      StepKeeps(Tables(), e);
      clock := clock + e.wait;
      match e.op {
        case OpCreate(id, source, route, start, end) => CreateHistoryImport(id, source, route, start, end);
        case OpCancel(id) => var _ := CancelHistoryImport(id);
        case OpRetry(id, cursor) => var _ := RetryHistoryImport(id, cursor);
        case OpClaim(source, id, token) => var _ := ClaimHistoryImport(source, id, token);
        case OpFinish(id, token, admitted, page) => var _ := FinishHistoryImport(id, token, admitted, page);
        case OpFail(id, token, admitted, final) => var _ := FailHistoryImport(id, token, admitted, final);
      }
    }
  }
}
