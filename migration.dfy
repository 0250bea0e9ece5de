/** The trial loop of migration_cost/migration_cost_linux.c: a single
    thread is pinned to core 2, timestamps a request to move to core 3, and
    checks with the current-core query that it really started on 2 and
    ended on 3. Any mismatch is fatal; otherwise the 100 costs are reduced. */
module Migration {
  import opened Timestamps
  import opened Stats

  const NUMBER_OF_EXPERIMENTS: nat := 100
  const CORE_TO_TEST_INITIAL: int := 2
  const CORE_TO_TEST_FINAL: int := 3

  /** The core-id check of one trial: a passing trial really changed core. */
  predicate TrialPasses(cpuInitial: int, cpuFinal: int): (passes: bool)
    ensures passes ==> cpuInitial != cpuFinal
  {
    cpuInitial == CORE_TO_TEST_INITIAL && cpuFinal == CORE_TO_TEST_FINAL
  }

  ghost predicate AllTrialsPass(cpuInitial: seq<int>, cpuFinal: seq<int>)
    requires |cpuInitial| == |cpuFinal|
  {
    forall i :: 0 <= i < |cpuInitial| ==> TrialPasses(cpuInitial[i], cpuFinal[i])
  }

  /** `before[i]`, `after[i]` are the readings around the affinity change of
      trial `i`; `cpuInitial[i]`, `cpuFinal[i]` are what `sched_getcpu`
      returned before and after it. */
  method Analyze(before: seq<Timespec>, after: seq<Timespec>, cpuInitial: seq<int>, cpuFinal: seq<int>)
    returns (outcome: Outcome)
    requires |before| == NUMBER_OF_EXPERIMENTS && |after| == NUMBER_OF_EXPERIMENTS
    requires |cpuInitial| == NUMBER_OF_EXPERIMENTS && |cpuFinal| == NUMBER_OF_EXPERIMENTS
    requires AllNormalized(before) && AllNormalized(after)
    requires AllTrialsPass(cpuInitial, cpuFinal) ==> SumFits(ElapsedSeries(before, after))
    ensures outcome.Aborted? <==> exists i :: 0 <= i < |before| && !TrialPasses(cpuInitial[i], cpuFinal[i])
    ensures outcome.Aborted? ==>
              && outcome.trial < |before|
              && !TrialPasses(cpuInitial[outcome.trial], cpuFinal[outcome.trial])
              && forall j :: 0 <= j < outcome.trial ==> TrialPasses(cpuInitial[j], cpuFinal[j])
    ensures outcome.Completed? ==> IsReportOf(outcome.report, ElapsedSeries(before, after))
  {
    var costs := new int[NUMBER_OF_EXPERIMENTS];
    for i := 0 to NUMBER_OF_EXPERIMENTS
      invariant forall j :: 0 <= j < i ==> costs[j] == ElapsedNs(before[j], after[j])
      invariant forall j :: 0 <= j < i ==> TrialPasses(cpuInitial[j], cpuFinal[j])
    {
      var result, _ := Subtract(before[i], after[i]);
      costs[i] := result.sec * NSEC_PER_SEC + result.nsec;

      if cpuInitial[i] != CORE_TO_TEST_INITIAL || cpuFinal[i] != CORE_TO_TEST_FINAL {
        return Aborted(i);
      }
    }
    assert costs[..] == ElapsedSeries(before, after);
    var report := Reduce(costs);
    return Completed(report);
  }

  /** A trial whose thread was still on the initial core after the
      affinity change fails the check, so no report includes it. */
  lemma NotMigratedFails(cpuInitial: int, cpuFinal: int)
    requires cpuFinal == CORE_TO_TEST_INITIAL
    ensures !TrialPasses(cpuInitial, cpuFinal)
  {
  }
}
