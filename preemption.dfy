/** The post-join analysis of preemption_cost/preemption_cost_linux.c: two
    threads pinned to one core each publish, per trial, the instant they
    resumed after a start barrier (`time_measures`) and a later debug
    instant (`debug_time_measures`). The analysis turns each trial into a
    cost, aborts on the first trial whose ordering is implausible, and
    reduces the costs. */
module Preemption {
  import opened Timestamps
  import opened Stats

  const NUMBER_OF_EXPERIMENTS: nat := 100

  /** Trial check: each thread's debug instant is not before the other
      thread's published instant. Both tests are non-strict, so a debug
      instant equal to the other thread's instant passes. */
  predicate TrialPasses(t0: Timespec, t1: Timespec, d0: Timespec, d1: Timespec): (passes: bool)
    ensures d1 == t0 && d0 == t1 ==> passes
    ensures passes ==> TotalNs(d1) >= TotalNs(t0) || !Normalized(d1) || !Normalized(t0)
  {
    NotBefore(d1, t0) && NotBefore(d0, t1)
  }

  ghost predicate AllTrialsPass(t0: seq<Timespec>, t1: seq<Timespec>, d0: seq<Timespec>, d1: seq<Timespec>)
    requires |t0| == |t1| == |d0| == |d1|
  {
    forall i :: 0 <= i < |t0| ==> TrialPasses(t0[i], t1[i], d0[i], d1[i])
  }

  /** The loop over the trials and the three scans after it. `t0`, `t1` are
      `time_measures[0..1]`, `d0`, `d1` are `debug_time_measures[0..1]`. */
  method Analyze(t0: seq<Timespec>, t1: seq<Timespec>, d0: seq<Timespec>, d1: seq<Timespec>)
    returns (outcome: Outcome)
    requires |t0| == NUMBER_OF_EXPERIMENTS && |t1| == NUMBER_OF_EXPERIMENTS
    requires |d0| == NUMBER_OF_EXPERIMENTS && |d1| == NUMBER_OF_EXPERIMENTS
    requires AllNormalized(t0) && AllNormalized(t1) && AllNormalized(d0) && AllNormalized(d1)
    requires AllTrialsPass(t0, t1, d0, d1) ==> SumFits(ElapsedSeries(t0, t1))
    ensures outcome.Aborted? <==> exists i :: 0 <= i < |t0| && !TrialPasses(t0[i], t1[i], d0[i], d1[i])
    ensures outcome.Aborted? ==>
              && outcome.trial < |t0|
              && !TrialPasses(t0[outcome.trial], t1[outcome.trial], d0[outcome.trial], d1[outcome.trial])
              && forall j :: 0 <= j < outcome.trial ==> TrialPasses(t0[j], t1[j], d0[j], d1[j])
    ensures outcome.Completed? ==> IsReportOf(outcome.report, ElapsedSeries(t0, t1))
  {
    var costs := new int[NUMBER_OF_EXPERIMENTS];
    for i := 0 to NUMBER_OF_EXPERIMENTS
      invariant forall j :: 0 <= j < i ==> costs[j] == ElapsedNs(t0[j], t1[j])
      invariant forall j :: 0 <= j < i ==> TrialPasses(t0[j], t1[j], d0[j], d1[j])
    {
      var result, _ := Subtract(t0[i], t1[i]);
      costs[i] := result.sec * NSEC_PER_SEC + result.nsec;

      var passes;
      result, passes := Subtract(t0[i], d1[i]);
      if passes {
        result, passes := Subtract(t1[i], d0[i]);
      }
      if !passes {
        return Aborted(i);
      }
    }
    assert costs[..] == ElapsedSeries(t0, t1);
    var report := Reduce(costs);
    return Completed(report);
  }

  /** For clock readings the check is chronological: a trial passes iff
      each debug instant is at or after the other thread's published one. */
  lemma TrialPassesChronologically(t0: Timespec, t1: Timespec, d0: Timespec, d1: Timespec)
    requires Normalized(t0) && Normalized(t1) && Normalized(d0) && Normalized(d1)
    ensures TrialPasses(t0, t1, d0, d1) <==> TotalNs(d1) >= TotalNs(t0) && TotalNs(d0) >= TotalNs(t1)
  {
    OrderMatchesTotal(d1, t0);
    OrderMatchesTotal(d0, t1);
  }

  /** Every cost is non-negative, so the reported figures are the true
      extremes of the trials and the average lies between them. */
  lemma ReportIsExact(t0: seq<Timespec>, t1: seq<Timespec>, r: Report)
    requires |t0| == |t1|
    requires IsReportOf(r, ElapsedSeries(t0, t1))
    ensures exists i :: 0 <= i < |t0| && r.max == ElapsedNs(t0[i], t1[i])
    ensures exists i :: 0 <= i < |t0| && r.min == ElapsedNs(t0[i], t1[i])
    ensures forall i :: 0 <= i < |t0| ==> r.min <= ElapsedNs(t0[i], t1[i]) <= r.max
    ensures r.min <= r.avg <= r.max
  {
    NonNegativeSeriesReport(r, ElapsedSeries(t0, t1));
  }
}
