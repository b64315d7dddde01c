module CoverageLedger {
  import opened Options
  import opened CoverageModel

  class Ledger {
    var windows: seq<Window>
    var observed: Option<int>
    var covered: Option<int>
    var flag: bool
    ghost var origin: Option<int>

    ghost function Tables(): State
      reads this
    {
      State(windows, observed, covered, flag, origin)
    }

    constructor ()
      ensures Tables() == EMPTY
    {
      windows, observed, covered, flag, origin := [], None, None, false, None;
    }

    method ObserveMessage(at: Option<int>)
      modifies this
      ensures Tables() == Observe(old(Tables()), at)
    {
      if at.None? { return; }
      if observed.None? || observed.value < at.value { observed := at; }
    }

    method CountOpen() returns (unresolved: nat)
      ensures unresolved > 0 <==> AnyOpen(windows)
    {
      unresolved := 0;
      for i := 0 to |windows|
        invariant unresolved > 0 <==> exists j :: 0 <= j < i && Open(windows[j])
      {
        if !windows[i].complete && !windows[i].resolved { unresolved := unresolved + 1; }
      }
    }

    method RecordCoverage(a: Attempt) returns (ok: bool)
      modifies this
      ensures ok <==> Valid(a)
      ensures Tables() == Record(old(Tables()), a)
    {
      ghost var s := Tables();
      if a.end <= a.start || (!a.complete && !a.hasReason) { return false; }
      windows := windows + [Window(a.start, a.end, a.complete, false)];
      var ws := windows;
      if a.complete {
        windows := seq(|ws|, i requires 0 <= i < |ws| =>
          if !ws[i].complete && !ws[i].resolved && ws[i].start >= a.start && ws[i].end <= a.end then ws[i].(resolved := true) else ws[i]);
      }
      assert windows == ResolveAll(ws, a);
      if !a.complete {
        flag := true;
      } else if covered.None? {
        covered := Some(a.end);
        origin := Some(a.start);
      } else if a.start <= covered.value {
        if a.end > covered.value { covered := Some(a.end); }
      } else {
        flag := true;
        windows := windows + [Window(covered.value, a.start, false, false)];
      }
      assert windows == WindowsAfter(s, a) && covered == Covered(s, a);
      if a.complete {
        var unresolved := CountOpen();
        flag := unresolved > 0;
      }
      if covered.Some? && (observed.None? || observed.value < covered.value) { observed := covered; }
      ok := true;
    }

    /** The coverage part of FinishHistoryImport. */
    method FinishImport(a: Attempt)
      modifies this
      ensures Tables() == RecordImport(old(Tables()), a)
    {
      var ok := RecordCoverage(a);
      if !ok || !a.complete { return; }
      var ws := windows;
      windows := seq(|ws|, i requires 0 <= i < |ws| =>
        if ws[i].start == a.start && ws[i].end == a.end && !ws[i].complete then ws[i].(complete := true) else ws[i]);
      assert windows == AdoptAll(ws, a.start, a.end);
      flag := exists i :: 0 <= i < |windows| && !windows[i].complete;
    }
  }
}
