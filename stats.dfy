/** The min/max/average reduction that three benchmarks run over their
    100-entry `long long` cost buffers: a maximum scan seeded with 0, a
    minimum scan seeded with that maximum, and a summing scan divided with
    C's truncating `/`. */
module Stats {

  const INT64_MIN: int := -0x8000_0000_0000_0000
  const INT64_MAX: int := 0x7fff_ffff_ffff_ffff

  predicate IsInt64(x: int)
  {
    INT64_MIN <= x <= INT64_MAX
  }

  function Sum(s: seq<int>): int
  {
    if |s| == 0 then 0 else Sum(s[..|s| - 1]) + s[|s| - 1]
  }

  /** A `long long` accumulator running over `s` never overflows: every
      running total is representable in 64 bits. */
  ghost predicate SumFits(s: seq<int>)
  {
    forall k :: 0 <= k <= |s| ==> IsInt64(Sum(s[..k]))
  }

  /** C's signed `/`, which truncates toward zero (unlike Dafny's `/`). */
  function CDiv(a: int, b: int): (q: int)
    requires b > 0
    ensures a >= 0 ==> 0 <= a - q * b < b
    ensures a < 0 ==> -b < a - q * b <= 0
  {
    if a >= 0 then a / b else -((-a) / b)
  }

  /** `m` is what a maximum scan seeded with 0 ends with: at least every
      element and 0, and equal to 0 or to one of the elements. */
  ghost predicate IsZeroSeededMax(m: int, s: seq<int>)
  {
    && m >= 0
    && (forall i :: 0 <= i < |s| ==> s[i] <= m)
    && (m == 0 || exists i :: 0 <= i < |s| && s[i] == m)
  }

  /** `m` is what a minimum scan seeded with `seed` ends with. */
  ghost predicate IsSeededMin(m: int, seed: int, s: seq<int>)
  {
    && m <= seed
    && (forall i :: 0 <= i < |s| ==> m <= s[i])
    && (m == seed || exists i :: 0 <= i < |s| && s[i] == m)
  }

  /** The figures an experiment prints. */
  datatype Report = Report(trials: nat, min: int, max: int, avg: int)

  /** How an experiment's analysis ends: `exit(-1)` at a trial that failed
      its validity check, or the report over all trials. */
  datatype Outcome = Aborted(trial: nat) | Completed(report: Report)

  /** `r` is the report the three scans produce from the costs `s`. */
  ghost predicate IsReportOf(r: Report, s: seq<int>)
  {
    && |s| > 0
    && r.trials == |s|
    && IsZeroSeededMax(r.max, s)
    && IsSeededMin(r.min, r.max, s)
    && r.avg == CDiv(Sum(s), |s|)
  }

  /** The maximum scan: the accumulator starts at 0 and takes every larger cost. */
  method MaxScan(a: array<int>) returns (max: int)
    ensures IsZeroSeededMax(max, a[..])
  {
    max := 0;
    for i := 0 to a.Length
      invariant IsZeroSeededMax(max, a[..i])
    {
      if max < a[i] {
        max := a[i];
      }
    }
    assert a[..a.Length] == a[..];
  }

  /** The minimum scan: the accumulator starts at `seed` and takes every smaller cost. */
  method MinScan(a: array<int>, seed: int) returns (min: int)
    ensures IsSeededMin(min, seed, a[..])
  {
    min := seed;
    for i := 0 to a.Length
      invariant IsSeededMin(min, seed, a[..i])
    {
      if min > a[i] {
        min := a[i];
      }
    }
    assert a[..a.Length] == a[..];
  }

  lemma SumSnoc(s: seq<int>, i: nat)
    requires i < |s|
    ensures Sum(s[..i + 1]) == Sum(s[..i]) + s[i]
  {
    assert s[..i + 1][..i] == s[..i];
  }

  /** The average scan: a `long long` sum over all costs, then a truncating
      division by the number of trials. */
  method AverageScan(a: array<int>) returns (avg: int)
    requires a.Length > 0
    requires SumFits(a[..])
    ensures avg == CDiv(Sum(a[..]), a.Length)
  {
    var sum := 0;
    for i := 0 to a.Length
      invariant sum == Sum(a[..i])
    {
      SumSnoc(a[..], i);
      // The running total after this `+=` still fits in a `long long`.
      assert IsInt64(Sum(a[..][..i + 1]));
      sum := sum + a[i];
    }
    assert a[..a.Length] == a[..];
    avg := CDiv(sum, a.Length);
  }

  /** The three scans in the order every benchmark runs them. */
  method Reduce(a: array<int>) returns (r: Report)
    requires a.Length > 0
    requires SumFits(a[..])
    ensures IsReportOf(r, a[..])
  {
    var max := MaxScan(a);
    var min := MinScan(a, max);
    var avg := AverageScan(a);
    r := Report(a.Length, min, max, avg);
  }

  lemma {:induction false} SumBounds(s: seq<int>, lo: int, hi: int)
    requires forall i :: 0 <= i < |s| ==> lo <= s[i] <= hi
    ensures |s| * lo <= Sum(s) <= |s| * hi
  {
    if |s| > 0 {
      var n := |s| - 1;
      SumBounds(s[..n], lo, hi);
      assert |s| * lo == n * lo + lo;
      assert |s| * hi == n * hi + hi;
    }
  }

  lemma MulCancel(x: int, y: int, n: int)
    requires n > 0
    ensures x * n < y * n ==> x < y
  {
  }

  /** A sum of `n` values in `[lo, hi]` averages, truncated, into `[lo, hi]`. */
  lemma CDivBounds(a: int, n: int, lo: int, hi: int)
    requires n > 0 && n * lo <= a <= n * hi
    ensures lo <= CDiv(a, n) <= hi
  {
    var q := CDiv(a, n);
    assert a < (q + 1) * n && (q - 1) * n < a;
    MulCancel(lo, q + 1, n);
    MulCancel(q - 1, hi, n);
  }

  /** Truncation is symmetric around zero: a negative sum of costs averages
      to minus the average of its magnitude. */
  lemma CDivNegation(a: int, n: int)
    requires n > 0
    ensures CDiv(-a, n) == -CDiv(a, n)
  {
  }

  /** Where C's `/` and Dafny's Euclidean `/` part ways on a negative sum. */
  lemma NegativeSumTruncatesTowardZero()
    ensures CDiv(-150, 100) == -1
    ensures -150 / 100 == -2
  {
  }

  /** What any report states about its costs: the minimum is one of them,
      the maximum is one of them unless every cost is negative (then it is
      the seed 0), and the average lies between minimum and maximum. */
  lemma ReportBounds(r: Report, s: seq<int>)
    requires IsReportOf(r, s)
    ensures exists i :: 0 <= i < |s| && s[i] == r.min
    ensures forall i :: 0 <= i < |s| ==> r.min <= s[i] <= r.max
    ensures (exists i :: 0 <= i < |s| && s[i] == r.max) || (r.max == 0 && forall i :: 0 <= i < |s| ==> s[i] < 0)
    ensures r.min <= r.avg <= r.max
  {
    if r.max == 0 && !(exists i :: 0 <= i < |s| && s[i] == r.max) {
      assert forall i :: 0 <= i < |s| ==> s[i] < 0;
    }
    if r.min == r.max {
      assert s[0] <= r.max && r.min <= s[0];
    }
    SumBounds(s, r.min, r.max);
    CDivBounds(Sum(s), |s|, r.min, r.max);
  }

  /** The figures are a function of the costs: two runs of the reducer on
      the same buffer print the same report. */
  lemma ReportIsUnique(r1: Report, r2: Report, s: seq<int>)
    requires IsReportOf(r1, s) && IsReportOf(r2, s)
    ensures r1 == r2
  {
    ReportBounds(r1, s);
    ReportBounds(r2, s);
  }

  /** On non-negative costs the 0 seed is harmless: maximum and minimum are
      the true extremes of the series. */
  lemma NonNegativeSeriesReport(r: Report, s: seq<int>)
    requires IsReportOf(r, s)
    requires forall i :: 0 <= i < |s| ==> s[i] >= 0
    ensures exists i :: 0 <= i < |s| && s[i] == r.max
    ensures exists i :: 0 <= i < |s| && s[i] == r.min
    ensures forall i :: 0 <= i < |s| ==> r.min <= s[i] <= r.max
    ensures r.min <= r.avg <= r.max
  {
    ReportBounds(r, s);
  }

  /** A single trial: with a non-negative cost every figure is that cost; a
      negative one still leaves the maximum at its seed 0. */
  lemma SingleTrialReport(r: Report, v: int)
    requires IsReportOf(r, [v])
    ensures v >= 0 ==> r.min == v && r.max == v && r.avg == v
    ensures v < 0 ==> r.min == v && r.max == 0 && r.avg == v
  {
    assert Sum([v]) == v by {
      assert [v][..0] == [];
    }
  }

  /** The five-trial example: costs 100, 250, 175, 400, 50 ns. */
  lemma FiveTrialReport(r: Report)
    requires IsReportOf(r, [100, 250, 175, 400, 50])
    ensures r == Report(5, 50, 400, 195)
  {
    var s := [100, 250, 175, 400, 50];
    SumSnoc(s, 0);
    SumSnoc(s, 1);
    SumSnoc(s, 2);
    SumSnoc(s, 3);
    SumSnoc(s, 4);
    assert s[..0] == [] && s[..5] == s;
    assert Sum(s) == 975;
  }
}
