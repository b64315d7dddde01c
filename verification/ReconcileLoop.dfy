module ReconcileLoop {
  import opened Options
  import opened ReconcileModel

  /** The inner loop: over the completed routes to the first hole. */
  method MoveOn(completed: seq<bool>, from: nat) returns (contiguous: nat)
    requires from <= |completed|
    ensures contiguous == Reach(completed, from)
  {
    contiguous := from;
    while contiguous < |completed| && completed[contiguous]
      invariant contiguous <= |completed| && Reach(completed, contiguous) == Reach(completed, from)
    {
      contiguous := contiguous + 1;
    }
  }

  ghost predicate Arrived(results: seq<Result>, o: nat) {
    exists i :: 0 <= i < |results| && results[i].offset == o
  }

  ghost predicate AllWell(results: seq<Result>, stored: seq<bool>)
    requires |stored| == |results|
  {
    forall i :: 0 <= i < |results| ==> stored[i] && !results[i].failed
  }

  lemma ReceiveOne(s: State, stored: bool)
    requires s.results != [] && s.results[0].offset < |s.completed| && s.contiguous <= |s.completed|
    requires forall o :: 0 <= o < s.contiguous ==> s.completed[o]
    ensures var t := Receive(s, stored);
            && t.results == s.results[1..] && |t.completed| == |s.completed| && t.contiguous <= |t.completed|
            && (forall o :: 0 <= o < |t.completed| ==> (t.completed[o] <==> s.completed[o] || o == s.results[0].offset))
            && (forall o :: 0 <= o < t.contiguous ==> t.completed[o]) && (t.contiguous < |t.completed| ==> !t.completed[t.contiguous])
            && (stored ==> t.saved == Some(t.contiguous))
            && (t.failing <==> s.failing || s.results[0].failed || !stored)
  {
  }

  ghost predicate Receivable(s: State, stored: seq<bool>) {
    && |stored| == |s.results| && s.contiguous <= |s.completed|
    && (forall i :: 0 <= i < |s.results| ==> s.results[i].offset < |s.completed|)
    && (forall o :: 0 <= o < s.contiguous ==> s.completed[o])
  }

  /** What the results come to, in whatever order they arrive: the marks ... */
  lemma {:induction false} ReceivedMarks(s: State, stored: seq<bool>)
    requires Receivable(s, stored)
    ensures var t := ReceiveAll(s, stored);
            t.results == [] && |t.completed| == |s.completed|
            && forall o :: 0 <= o < |t.completed| ==> (t.completed[o] <==> s.completed[o] || Arrived(s.results, o))
    decreases |stored|
  {
    if stored != [] {
      var m := Receive(s, stored[0]);
      ReceiveOne(s, stored[0]);
      ReceivedMarks(m, stored[1..]);
      forall o ensures Arrived(s.results, o) <==> o == s.results[0].offset || Arrived(m.results, o) { ArrivedUnfolds(s.results, o); }
    }
  }

  /** ... the place of the first hole, and the last checkpoint ... */
  lemma {:induction false} ReceivedPrefix(s: State, stored: seq<bool>)
    requires Receivable(s, stored)
    ensures var t := ReceiveAll(s, stored);
            && t.contiguous <= |t.completed| && (forall o :: 0 <= o < t.contiguous ==> t.completed[o])
            && (t.contiguous < |t.completed| ==> !t.completed[t.contiguous] || stored == [])
            && (|stored| > 0 && stored[|stored| - 1] ==> t.saved == Some(t.contiguous))
    decreases |stored|
  {
    if stored != [] {
      var m := Receive(s, stored[0]);
      ReceiveOne(s, stored[0]);
      ReceivedPrefix(m, stored[1..]);
      assert |stored| == 1 ==> ReceiveAll(m, stored[1..]) == m;
    }
  }

  /** ... and whether the cycle failed. */
  lemma {:induction false} ReceivedOutcome(s: State, stored: seq<bool>)
    requires Receivable(s, stored)
    ensures !ReceiveAll(s, stored).failing <==> !s.failing && AllWell(s.results, stored)
    decreases |stored|
  {
    if stored != [] {
      var m := Receive(s, stored[0]);
      ReceiveOne(s, stored[0]);
      ReceivedOutcome(m, stored[1..]);
      assert forall i :: 0 < i < |stored| ==> stored[i] == stored[1..][i - 1] && s.results[i] == s.results[1..][i - 1];
    }
  }

  lemma ArrivedUnfolds(results: seq<Result>, o: nat)
    requires results != []
    ensures Arrived(results, o) <==> o == results[0].offset || Arrived(results[1..], o)
  {
    if Arrived(results, o) {
      var i :| 0 <= i < |results| && results[i].offset == o;
      assert i > 0 ==> results[1..][i - 1] == results[i];
    }
    if Arrived(results[1..], o) {
      var i :| 0 <= i < |results[1..]| && results[1..][i].offset == o;
      assert results[i + 1] == results[1..][i];
    }
  }

  /** The loop over the results of one cycle `s`; `stored` says which checkpoints were. */
  method CollectResults(limit: nat, results: seq<Result>, stored: seq<bool>, ghost s: State)
    returns (completed: seq<bool>, contiguous: nat, saved: Option<nat>, failing: bool)
    requires |stored| == |results| && forall i :: 0 <= i < |results| ==> results[i].offset < limit
    requires s.results == results && s.completed == seq(limit, _ => false) && s.contiguous == 0 && s.saved.None? && !s.failing
    ensures var t := ReceiveAll(s, stored);
            t.results == [] && t.completed == completed && t.contiguous == contiguous && t.saved == saved && t.failing == failing
    ensures |completed| == limit && forall o :: 0 <= o < limit ==> (completed[o] <==> Arrived(results, o))
    ensures contiguous <= limit && (forall o :: 0 <= o < contiguous ==> completed[o])
    ensures contiguous < limit ==> !completed[contiguous] || results == []
    ensures |stored| > 0 && stored[|stored| - 1] ==> saved == Some(contiguous)
    ensures !failing <==> AllWell(results, stored)
  {
    completed := seq(limit, _ => false);
    contiguous, saved, failing := 0, None, false;
    ghost var t := s;
    for i := 0 to |results|
      invariant t.results == results[i..] && t.completed == completed && t.contiguous == contiguous && t.saved == saved && t.failing == failing
      invariant ReceiveAll(t, stored[i..]) == ReceiveAll(s, stored)
      invariant |completed| == limit && contiguous <= limit
    {
      completed := completed[results[i].offset := true];
      if results[i].failed { failing := true; }
      contiguous := MoveOn(completed, contiguous);
      if stored[i] { saved := Some(contiguous); } else { failing := true; }
      assert stored[i..][1..] == stored[i + 1..];
      t := Receive(t, stored[i]);
    }
    ReceivedMarks(s, stored);
    ReceivedPrefix(s, stored);
    ReceivedOutcome(s, stored);
  }
}
