/** The renewal loop of a receiver: a busy store is tried again as long as the lease lives. */
module LeaseRenewal {
  datatype Result = Renewed | Busy | Refused | Interrupted

  /** One call: when it starts, when it returns, and what it says. */
  datatype Try = Try(start: int, end: int, result: Result)

  datatype Outcome = Success(at: nat) | Expired | Cancelled | GaveUp | StillTrying

  const RETRY_DELAY: int := 250

  predicate TriesAgain(t: Try, expires: int) {
    t.result.Busy? && expires - t.end > RETRY_DELAY
  }

  /** The call at which the loop ends, if it ends within `tries`. */
  function Renew(expires: int, tries: seq<Try>): (out: Outcome)
    ensures out.Success? ==>
      && out.at < |tries| && tries[out.at].result.Renewed? && tries[out.at].start < expires
      && forall i :: 0 <= i < out.at ==> TriesAgain(tries[i], expires) && tries[i].start < expires
    ensures out.GaveUp? ==> exists i :: 0 <= i < |tries| && !TriesAgain(tries[i], expires)
    decreases |tries|
  {
    if tries == [] then StillTrying
    else if tries[0].start >= expires then Expired
    else if tries[0].result.Renewed? then Success(0)
    else if tries[0].result.Interrupted? then Cancelled
    else if !TriesAgain(tries[0], expires) then GaveUp
    else
      match Renew(expires, tries[1..])
      case Success(k) => Success(k + 1)
      case other => other
  }

  /** The loop comes to call `k`: each call before it began in time, found the store busy, and
      left more than a quarter of a second. */
  predicate Reaches(expires: int, tries: seq<Try>, k: nat)
    requires k <= |tries|
  {
    forall i :: 0 <= i < k ==> tries[i].start < expires && tries[i].result.Busy? && tries[i].end + 250 < expires
  }

  /** How the loop ends at the call `t`, if it comes to it. */
  predicate EndsAs(expires: int, t: Try, k: nat, out: Outcome) {
    match out
    case Success(at) => t.start < expires && t.result.Renewed? && at == k
    case Expired => t.start >= expires
    case Cancelled => t.start < expires && t.result.Interrupted?
    case GaveUp => t.start < expires && (t.result.Refused? || (t.result.Busy? && t.end + 250 >= expires))
    case StillTrying => false
  }

  /** The loop goes on exactly while the store is busy and time is left, and ends at the first
      call that is anything else, in the way that this call decides. */
  lemma {:induction false} EndsExactly(expires: int, tries: seq<Try>, out: Outcome)
    ensures Renew(expires, tries) == out <==>
            if out.StillTrying? then Reaches(expires, tries, |tries|)
            else exists k: nat :: k < |tries| && Reaches(expires, tries, k) && EndsAs(expires, tries[k], k, out)
    decreases |tries|
  {
    if tries != [] && Reaches(expires, tries, 1) {
      var later := match out case Success(k) => if k > 0 then Success(k - 1) else StillTrying case other => other;
      EndsExactly(expires, tries[1..], later);
      forall k: nat | k < |tries| ensures Reaches(expires, tries, k + 1) <==> Reaches(expires, tries[1..], k) {
        forall i | 0 < i <= k ensures tries[i] == tries[1..][i - 1] { }
        if Reaches(expires, tries[1..], k) {
          forall i | 0 <= i < k + 1 ensures tries[i].start < expires && tries[i].result.Busy? && tries[i].end + 250 < expires {
            assert i > 0 ==> tries[i] == tries[1..][i - 1];
          }
        }
        if Reaches(expires, tries, k + 1) {
          forall i | 0 <= i < k ensures tries[1..][i].start < expires && tries[1..][i].result.Busy? && tries[1..][i].end + 250 < expires {
            assert tries[i + 1] == tries[1..][i];
          }
        }
      }
    }
  }

  method RenewReceiverLease(expires: int, tries: seq<Try>) returns (out: Outcome)
    ensures out == Renew(expires, tries)
  {
    var i := 0;
    while i < |tries|
      invariant i <= |tries|
      invariant Renew(expires, tries) == match Renew(expires, tries[i..]) case Success(k) => Success(i + k) case other => other
    {
      assert tries[i..][0] == tries[i] && tries[i..][1..] == tries[i + 1..];
      if tries[i].start >= expires { return Expired; }
      if tries[i].result == Renewed { return Success(i); }
      if tries[i].result == Interrupted { return Cancelled; }
      if tries[i].result != Busy || expires - tries[i].end <= RETRY_DELAY { return GaveUp; }
      i := i + 1;
    }
    return StillTrying;
  }
}
