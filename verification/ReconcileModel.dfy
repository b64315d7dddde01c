/** One reconciliation cycle of a data source: workers take routes from a job channel, and the
    cursor moves over the routes that were attempted without a hole
    (internal/channel/data_source.go). Route `offset` of a cycle that starts at `start` is
    route `(start + offset) % n`. */
module ReconcileModel {
  import opened Options
  import opened Arithmetic

  datatype Worker = Idle | Working(offset: nat) | Gone

  datatype Result = Result(offset: nat, failed: bool)

  /** `next` is the first offset still in the job channel, `attempted` are the offsets whose
      route was visited, `saved` the progress of the last checkpoint that was stored. */
  datatype State = State(
    n: nat, start: nat, limit: nat, next: nat, workers: seq<Worker>, results: seq<Result>, attempted: set<nat>,
    completed: seq<bool>, contiguous: nat, saved: Option<nat>, failing: bool, cancelled: bool)

  const LIMIT: nat := 20
  const WORKERS: nat := 2

  function Begin(n: nat, start: nat): State {
    var limit := Min(LIMIT, n);
    State(n, start, limit, 0, seq(WORKERS, _ => Idle), [], {}, seq(limit, _ => false), 0, None, false, false)
  }

  /** A worker takes the next offset; after a cancellation it drops it and leaves. */
  function Take(s: State, w: nat): State {
    if w >= |s.workers| || !s.workers[w].Idle? then s
    else if s.next >= s.limit then s.(workers := s.workers[w := Gone])
    else s.(next := s.next + 1, workers := s.workers[w := if s.cancelled then Gone else Working(s.next)])
  }

  function Return(s: State, w: nat, failed: bool): State {
    if w >= |s.workers| || !s.workers[w].Working? then s
    else
      var offset := s.workers[w].offset;
      s.(attempted := s.attempted + {offset}, workers := s.workers[w := Idle], results := s.results + [Result(offset, failed)])
  }

  /** The end of the run of completed offsets that begins at `from`. */
  function Reach(completed: seq<bool>, from: nat): (end: nat)
    requires from <= |completed|
    ensures from <= end <= |completed|
    ensures forall i :: from <= i < end ==> completed[i]
    ensures end < |completed| ==> !completed[end]
    decreases |completed| - from
  {
    if from < |completed| && completed[from] then Reach(completed, from + 1) else from
  }

  /** One result is taken from the channel; `stored` says whether its checkpoint was. */
  function Receive(s: State, stored: bool): State {
    if s.results == [] || s.results[0].offset >= |s.completed| || s.contiguous > |s.completed| then s
    else
      var completed := s.completed[s.results[0].offset := true];
      var contiguous := Reach(completed, s.contiguous);
      s.(results := s.results[1..], completed := completed, contiguous := contiguous,
         saved := if stored then Some(contiguous) else s.saved, failing := s.failing || s.results[0].failed || !stored)
  }

  function ReceiveAll(s: State, stored: seq<bool>): State
    decreases |stored|
  {
    if stored == [] then s else ReceiveAll(Receive(s, stored[0]), stored[1..])
  }

  datatype Action = OpTake(w: nat) | OpReturn(w: nat, failed: bool) | OpReceive(stored: bool) | OpCancel

  function Step(s: State, a: Action): State {
    match a
    case OpTake(w) => Take(s, w)
    case OpReturn(w, failed) => Return(s, w, failed)
    case OpReceive(stored) => Receive(s, stored)
    case OpCancel => s.(cancelled := true)
  }

  function Run(s: State, actions: seq<Action>): State
    decreases |actions|
  {
    if actions == [] then s else Run(Step(s, actions[0]), actions[1..])
  }

  /** The workers have left and the results are drained: the cycle returns. */
  predicate Finished(s: State) {
    s.results == [] && forall w :: 0 <= w < |s.workers| ==> s.workers[w].Gone?
  }

  /** The cursor in the store, as it was before or as the last stored checkpoint set it. */
  function Cursor(s: State): nat {
    if s.saved.None? || s.n == 0 then s.start else (s.start + s.saved.value) % s.n
  }
}
