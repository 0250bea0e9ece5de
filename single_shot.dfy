/** The single-trial preemption experiments get_preemption_time_linux.c and
    get_preemption_time_linux_all_lock.c. Each of two threads publishes the
    instant it yielded (`time_measures[p][0]`) and the instant it resumed
    (`time_measures[p][1]`); `main` reports the distance between the two
    yield instants and prints a warning, but carries on, when the
    instants are not interleaved as expected. */
module SingleShot {
  import opened Timestamps

  /** `time_measures[2][2]` after both threads have joined. */
  datatype Measures = Measures(start0: Timespec, end0: Timespec, start1: Timespec, end1: Timespec)

  ghost predicate MeasuresNormalized(m: Measures)
  {
    Normalized(m.start0) && Normalized(m.end0) && Normalized(m.start1) && Normalized(m.end1)
  }

  /** The warning condition: thread 1 yielded at or after thread 0 resumed,
      or thread 0 yielded at or after thread 1 resumed. */
  predicate BadBehaviour(m: Measures): (bad: bool)
    ensures m.start1 == m.end0 || m.start0 == m.end1 ==> bad
  {
    NotBefore(m.start1, m.end0) || NotBefore(m.start0, m.end1)
  }

  /** For clock readings the warning is silent exactly when each thread
      yielded strictly before the other resumed. */
  lemma BadBehaviourChronological(m: Measures)
    requires MeasuresNormalized(m)
    ensures !BadBehaviour(m) <==> TotalNs(m.start0) < TotalNs(m.end1) && TotalNs(m.start1) < TotalNs(m.end0)
  {
    OrderMatchesTotal(m.start1, m.end0);
    OrderMatchesTotal(m.start0, m.end1);
  }

  /** The analysis after the joins. The result has no abort case: the
      ordering check only decides whether the warning is printed. */
  method Analyze(m: Measures) returns (costNs: int, badBehaviour: bool)
    requires MeasuresNormalized(m)
    ensures costNs == ElapsedNs(m.start0, m.start1) && costNs >= 0
    ensures badBehaviour == BadBehaviour(m)
    ensures badBehaviour <==> TotalNs(m.start1) >= TotalNs(m.end0) || TotalNs(m.start0) >= TotalNs(m.end1)
  {
    var result, _ := Subtract(m.start0, m.start1);
    costNs := result.sec * NSEC_PER_SEC + result.nsec;

    result, badBehaviour := Subtract(m.end0, m.start1);
    if !badBehaviour {
      result, badBehaviour := Subtract(m.end1, m.start0);
    }
    OrderMatchesTotal(m.start1, m.end0);
    OrderMatchesTotal(m.start0, m.end1);
  }
}
