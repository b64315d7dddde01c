/** What each step of a worker and of the result loop does. */
module ReconcileOutcomes {
  import opened Options
  import opened ReconcileModel
  import opened ReconcileTheorems

  /** A cycle takes twenty routes, or all if there are fewer, with two workers. */
  lemma BeginOutcome(n: nat, start: nat)
    ensures var s, share := Begin(n, start), if n < 20 then n else 20;
            s == State(n, start, share, 0, [Idle, Idle], [], {}, seq(share, _ => false), 0, None, false, false)
  {
    assert seq(WORKERS, _ => Idle) == [Idle, Idle];
  }

  /** An idle worker takes the next route; after a cancellation it drops it and leaves, and
      without a next route it leaves. */
  lemma TakeOutcome(s: State, w: nat)
    ensures var t := Take(s, w);
            if w < |s.workers| && s.workers[w] == Idle then
              if s.next < s.limit
              then t == s.(next := s.next + 1, workers := s.workers[w := if s.cancelled then Gone else Working(s.next)])
              else t == s.(workers := s.workers[w := Gone])
            else t == s
  {
  }

  /** A route that was visited counts as attempted, failed or not, and its result is passed on. */
  lemma ReturnOutcome(s: State, w: nat, failed: bool)
    ensures var t := Return(s, w, failed);
            if w < |s.workers| && s.workers[w].Working? then
              var o := s.workers[w].offset;
              t == s.(attempted := s.attempted + {o}, results := s.results + [Result(o, failed)], workers := s.workers[w := Idle])
            else t == s
  {
  }

  /** The loop marks the route of the oldest result, moves on to the first hole, and offers that
      place as the checkpoint; only one that was stored is the last. */
  lemma ReceiveOutcome(s: State, stored: bool)
    requires Inv(s) && s.results != []
    ensures var t, r := Receive(s, stored), s.results[0];
            && t.results == s.results[1..] && t.workers == s.workers && t.next == s.next && t.attempted == s.attempted && t.cancelled == s.cancelled
            && t.completed == s.completed[r.offset := true]
            && t.contiguous <= |t.completed| && (forall o :: 0 <= o < t.contiguous ==> t.completed[o])
            && (t.contiguous < |t.completed| ==> !t.completed[t.contiguous])
            && t.saved == (if stored then Some(t.contiguous) else s.saved)
            && (t.failing <==> s.failing || r.failed || !stored)
  {
    assert s.results[0].offset < s.limit;
  }
}
