/** The arithmetic of cache_management/l2_cache_fill_cost.c: each trial
    times one read of a buffer half the size of the L2 cache while it is
    cached, flushes it, and times a read again. The recorded cost is the
    cold time minus the hot time, so it may be negative. */
module L2Cache {
  import opened Timestamps
  import opened Stats

  const NUMBER_OF_EXPERIMENTS: nat := 100
  const L2_CACHE_SIZE_BYTES: nat := 524288

  newtype Int8 = x: int | -128 <= x < 128

  /** Cost of trial `i`: the cold read's duration minus the hot read's. For
      readings taken in order it is how much longer the cold read took. */
  function TrialCost(hotFirst: Timespec, hotSecond: Timespec, coldFirst: Timespec, coldSecond: Timespec): (c: int)
    ensures Normalized(hotFirst) && Normalized(hotSecond) && Normalized(coldFirst) && Normalized(coldSecond)
            && NotBefore(hotSecond, hotFirst) && NotBefore(coldSecond, coldFirst) ==>
              c == (TotalNs(coldSecond) - TotalNs(coldFirst)) - (TotalNs(hotSecond) - TotalNs(hotFirst))
    ensures c < 0 <==> ElapsedNs(coldFirst, coldSecond) < ElapsedNs(hotFirst, hotSecond)
  {
    ElapsedNs(coldFirst, coldSecond) - ElapsedNs(hotFirst, hotSecond)
  }

  function CostSeries(hotFirst: seq<Timespec>, hotSecond: seq<Timespec>,
                      coldFirst: seq<Timespec>, coldSecond: seq<Timespec>): (s: seq<int>)
    requires |hotFirst| == |hotSecond| == |coldFirst| == |coldSecond|
    ensures |s| == |hotFirst|
  {
    seq(|hotFirst|, i requires 0 <= i < |hotFirst| =>
      TrialCost(hotFirst[i], hotSecond[i], coldFirst[i], coldSecond[i]))
  }

  /** One timed read: the C passes the later reading as `start` and the
      earlier one as `end`, but keeps only the magnitude, so the duration is
      the elapsed time between the two readings all the same. */
  method ReadDuration(first: Timespec, second: Timespec) returns (ns: int)
    requires Normalized(first) && Normalized(second)
    ensures ns == ElapsedNs(first, second)
    ensures ns >= 0
  {
    var result, _ := Subtract(second, first);
    ns := result.sec * NSEC_PER_SEC + result.nsec;
    SwapArguments(first, second);
  }

  /** The trial loop and the three scans. Per trial the readings are
      taken in the order `hotFirst`, `hotSecond`, `coldFirst`, `coldSecond`
      (in the C the first of each pair lands in `local_time_measure_after`). */
  method Analyze(hotFirst: seq<Timespec>, hotSecond: seq<Timespec>,
                 coldFirst: seq<Timespec>, coldSecond: seq<Timespec>)
    returns (report: Report)
    requires |hotFirst| == NUMBER_OF_EXPERIMENTS && |hotSecond| == NUMBER_OF_EXPERIMENTS
    requires |coldFirst| == NUMBER_OF_EXPERIMENTS && |coldSecond| == NUMBER_OF_EXPERIMENTS
    requires AllNormalized(hotFirst) && AllNormalized(hotSecond)
    requires AllNormalized(coldFirst) && AllNormalized(coldSecond)
    requires SumFits(CostSeries(hotFirst, hotSecond, coldFirst, coldSecond))
    ensures IsReportOf(report, CostSeries(hotFirst, hotSecond, coldFirst, coldSecond))
  {
    var costs := new int[NUMBER_OF_EXPERIMENTS];
    for j := 0 to NUMBER_OF_EXPERIMENTS
      invariant forall k :: 0 <= k < j ==>
                  costs[k] == TrialCost(hotFirst[k], hotSecond[k], coldFirst[k], coldSecond[k])
    {
      var cachedTime := ReadDuration(hotFirst[j], hotSecond[j]);
      var notCachedTime := ReadDuration(coldFirst[j], coldSecond[j]);
      costs[j] := notCachedTime - cachedTime;
    }
    assert costs[..] == CostSeries(hotFirst, hotSecond, coldFirst, coldSecond);
    report := Reduce(costs);
  }

  /** What the report says of possibly negative costs: the maximum is the
      largest cost or 0, whichever is larger; the minimum is the smallest
      cost; the truncated average lies between them. */
  lemma ReportOfSignedCosts(s: seq<int>, r: Report)
    requires IsReportOf(r, s)
    ensures r.max >= 0 && forall i :: 0 <= i < |s| ==> s[i] <= r.max
    ensures (exists i :: 0 <= i < |s| && s[i] == r.max) || (r.max == 0 && forall i :: 0 <= i < |s| ==> s[i] < 0)
    ensures exists i :: 0 <= i < |s| && s[i] == r.min
    ensures forall i :: 0 <= i < |s| ==> r.min <= s[i]
    ensures r.min <= r.avg <= r.max
    ensures Sum(s) < 0 ==> r.avg == -CDiv(-Sum(s), |s|)
  {
    ReportBounds(r, s);
    CDivNegation(-Sum(s), |s|);
  }

  /** One pass over the fill vector (`load_register = l2_fill_vector[i]`).
      The vector has `L2_CACHE_SIZE_BYTES / 2` elements, so Dafny's bounds
      check on `fillVector[i]` is what keeps every index in range. */
  method LoadVector(fillVector: array<Int8>) returns (loadRegister: Int8)
    requires fillVector.Length == L2_CACHE_SIZE_BYTES / 2
    ensures loadRegister == fillVector[L2_CACHE_SIZE_BYTES / 2 - 1]
  {
    loadRegister := 0;
    for i := 0 to L2_CACHE_SIZE_BYTES / 2
      invariant i > 0 ==> loadRegister == fillVector[i - 1]
    {
      loadRegister := fillVector[i];
    }
  }
}
