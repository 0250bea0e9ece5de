# Scheduler-cost micro-benchmarks: the analysis layer in Dafny

The repository measures three OS-scheduler costs on a real-time Linux host:
- the cost of a voluntary preemption between two threads pinned to one core;
- the cost of migrating a thread from core 2 to core 3;
- the extra time to read a buffer half the size of the L2 cache after it has been flushed.

The three 100-trial programs are preemption_cost_linux.c, migration_cost_linux.c and l2_cache_fill_cost.c. Each captures `CLOCK_MONOTONIC` readings around the event it measures and then does the same integer work:
1. `timespec_subtract` gives the signed, normalised difference of two readings.
2. That difference is converted to nanoseconds as a cost.
3. The trial is checked for plausibility. The L2 benchmark has no such check.
4. 100 costs are reduced to a minimum, a maximum and a truncated average.

The two single-shot programs, get_preemption_time_linux.c and get_preemption_time_linux_all_lock.c, run one trial. They compute one cost and a warning condition and reduce nothing. old/main.c takes no clock readings. It differences two `getrusage` samples, guards the processor index in `set_affinity_to_cpu`, and alternates target cores between migrations.

This project models that integer work and proves its properties. The readings, `fork` results, `sched_getcpu` results and system-call return values are given as inputs.

Modules, one per source file or shared component:

- `Timestamps` (timestamps.dfy): `struct timespec` and `timespec_subtract`. The repository has five identical copies of this function, one in each of preemption_cost_linux.c, migration_cost_linux.c, l2_cache_fill_cost.c, get_preemption_time_linux.c and get_preemption_time_linux_all_lock.c. The method `Subtract` sets the result fields and then applies the borrow in place, as the C does. It is checked against a reference definition, `Magnitude`.
- `Stats` (stats.dfy): the three reducer loops that preemption_cost_linux.c, migration_cost_linux.c and l2_cache_fill_cost.c each contain.
  - The maximum is seeded with 0.
  - The minimum is seeded with that maximum.
  - The average is a `long long` sum followed by C's truncating `/`, modelled as `CDiv`.
  - Each loop reads a cost buffer (`array<int>`). `IsReportOf` says what the three loops produce together.
- `Preemption` (preemption.dfy): the post-join analysis of preemption_cost_linux.c. This is the variant that aborts.
- `Migration` (migration.dfy): the per-trial cost and the fatal core-id check of migration_cost_linux.c.
- `L2Cache` (l2_cache.dfy): the hot/cold cost of l2_cache_fill_cost.c, which may be negative, and the bounds of the buffer indices.
- `SingleShot` (single_shot.dfy): the one-trial analysis that get_preemption_time_linux.c and get_preemption_time_linux_all_lock.c share. Their post-join analyses compute the same cost and the same warning condition, and neither stops on the warning. They differ only in their output and in their setup, and both are left out. The output differences are the cost line's format and `perror` versus `printf` for the warning. The setup differences are where thread attributes are set, whether their failures are checked, and `munlockall`.
- `OldMain` (old_main.dfy): the usage difference with its microsecond borrow, the range guard of `set_affinity_to_cpu`, and the 0/1 core alternation of `main_migration`.

Integers are unbounded. 64-bit width appears where the source depends on it:
- The average sum must not overflow. `SumFits` requires every running total to fit in a `long long`. Signed overflow is undefined in C, and the source's own comments warn about it.
- The `long` to `unsigned long` conversion in `set_affinity_to_cpu` is written out.

## Behaviour worth noting

- The preemption ordering check is non-strict. `timespec_subtract` returns true on equal instants, so a trial passes when `debug1 >= T0` and `debug0 >= T1`. A strict test would reject a trial whose debug instant equals the other thread's instant. This one accepts it.
- A one-trial series gives min = max = avg only for a non-negative cost, because the maximum is seeded with 0. For a negative cost, which only the L2 benchmark can produce, the maximum stays 0. `Stats.SingleTrialReport` proves both cases.
- The preemption variants do not all react to a bad trial the same way. preemption_cost_linux.c exits with -1 at the first bad trial. The two single-shot programs only print a warning and go on.

## Model

| member | source | states |
|---|---|---|
| `Timestamps.Subtract` | preemption_cost/preemption_cost_linux.c:59-84 | The flag is true iff `end` is not before `start` in (sec, nsec) order. The result's total nanoseconds are `end - start` when the flag is set and `start - end` otherwise. Equal inputs give true and a zero result. For normalised inputs the result is normalised, has `sec >= 0`, equals the reference `Magnitude` and has total `abs(end - start)` |
| `Timestamps.OrderMatchesTotal` | migration_cost/migration_cost_linux.c:27-31 | For normalised readings, the lexicographic test that sets the flag holds iff `end` is chronologically at or after `start` |
| `Timestamps.Magnitude` | cache_management/l2_cache_fill_cost.c:30-46 | The reference magnitude is normalised, has non-negative seconds, and has total nanoseconds `abs(end - start)` |
| `Timestamps.SplitIsUnique` | get_preemption_time_linux.c:113-127 | A normalised result with a given total is the quotient/remainder split of that total, so the borrowed result of `timespec_subtract` is unique |
| `Timestamps.SwapArguments` | get_preemption_time_linux_all_lock.c:74-88 | Swapping the arguments gives the same magnitude and the opposite flag, except on equal inputs where both flags are true |
| `Stats.MaxScan` | preemption_cost/preemption_cost_linux.c:212-217 | The 0-seeded scan returns a value at least 0 and at least every cost, which is 0 or one of the costs |
| `Stats.MinScan` | preemption_cost/preemption_cost_linux.c:219-224 | The scan seeded with the maximum returns a value at most the seed and at most every cost, which is the seed or one of the costs |
| `Stats.AverageScan` | preemption_cost/preemption_cost_linux.c:226-232 | Provided no running `long long` total overflows, the result is the sum of the costs divided by their count, truncated toward zero |
| `Stats.Reduce` | migration_cost/migration_cost_linux.c:116-139 | Running the three scans in order gives a report meeting `IsReportOf` over the cost buffer |
| `Stats.CDiv` | cache_management/l2_cache_fill_cost.c:157 | C division truncates toward zero. The remainder is in `[0, n)` for a non-negative sum and in `(-n, 0]` for a negative one |
| `Stats.CDivNegation` | cache_management/l2_cache_fill_cost.c:153-157 | Truncating division is symmetric: a negated sum gives the negated average |
| `Stats.NegativeSumTruncatesTowardZero` | cache_management/l2_cache_fill_cost.c:157 | A sum of -150 over 100 trials averages to -1 in C, where Euclidean division would give -2 |
| `Stats.SumBounds` | preemption_cost/preemption_cost_linux.c:228-231 | A sum of `n` values in `[lo, hi]` lies in `[n*lo, n*hi]` |
| `Stats.CDivBounds` | migration_cost/migration_cost_linux.c:135-139 | The truncated quotient of a sum in `[n*lo, n*hi]` lies in `[lo, hi]` |
| `Stats.ReportBounds` | cache_management/l2_cache_fill_cost.c:137-157 | For any report: the minimum is one of the costs; every cost lies between minimum and maximum; the maximum is a cost, or 0 when all costs are negative; and min <= avg <= max |
| `Stats.ReportIsUnique` | preemption_cost/preemption_cost_linux.c:209-232 | The three scans determine the report: two reports of the same costs are equal, so running the reducer twice prints the same figures |
| `Stats.NonNegativeSeriesReport` | migration_cost/migration_cost_linux.c:119-139 | With non-negative costs, the reported maximum and minimum are both true extremes of the costs, and min <= avg <= max |
| `Stats.SingleTrialReport` | preemption_cost/preemption_cost_linux.c:212-232 | One trial with a cost `v >= 0` reports min = max = avg = v. With `v < 0` it reports min = avg = v and max = 0 |
| `Stats.FiveTrialReport` | preemption_cost/preemption_cost_linux.c:212-232 | Costs 100, 250, 175, 400, 50 report min 50, max 400, avg 195 |
| `Preemption.Analyze` | preemption_cost/preemption_cost_linux.c:161-232 | Aborts iff some trial fails the ordering check, and then at the first failing trial. Otherwise it reports over the costs `abs(T1[i] - T0[i])` |
| `Preemption.TrialPassesChronologically` | preemption_cost/preemption_cost_linux.c:173-175 | A trial passes iff `debug1[i] >= T0[i]` and `debug0[i] >= T1[i]` in time (non-strict) |
| `Preemption.TrialPasses` | preemption_cost/preemption_cost_linux.c:174-175 | The per-trial check is non-strict: debug instants equal to the other thread's instants pass. For clock readings a passing trial has `debug1 >= T0` in nanoseconds |
| `Preemption.ReportIsExact` | preemption_cost/preemption_cost_linux.c:209-232 | The reported maximum and minimum are the cost of some trial, every cost lies between them, and min <= avg <= max |
| `Migration.Analyze` | migration_cost/migration_cost_linux.c:62-139 | Aborts iff some trial saw an initial core other than 2 or a final core other than 3, and then at the first such trial. Otherwise it reports over the costs `abs(after[i] - before[i])` |
| `Migration.TrialPasses` | migration_cost/migration_cost_linux.c:106 | A trial that passes the core-id check started and ended on different cores; equal core ids always fail |
| `Migration.NotMigratedFails` | migration_cost/migration_cost_linux.c:105-109 | A trial still on core 2 after the affinity change fails the check |
| `L2Cache.TrialCost` | cache_management/l2_cache_fill_cost.c:127 | For in-order readings the cost is the cold read's span minus the hot read's span. It is negative iff the cold read took less time than the hot one |
| `L2Cache.ReadDuration` | cache_management/l2_cache_fill_cost.c:101-110 | The call passes the readings in reversed order, yet the duration is the elapsed time between the first and second reading, and is at least 0 |
| `L2Cache.Analyze` | cache_management/l2_cache_fill_cost.c:94-157 | The report is over the costs `cold[j] - hot[j]`, each the difference of two read durations, given that no running sum overflows |
| `L2Cache.ReportOfSignedCosts` | cache_management/l2_cache_fill_cost.c:134-157 | The maximum is max(0, largest cost). The minimum is the smallest cost. min <= avg <= max, and a negative sum averages to minus the truncated average of its magnitude |
| `L2Cache.LoadVector` | cache_management/l2_cache_fill_cost.c:96-99 | A read pass over a buffer of exactly 262144 bytes leaves the last element in the load register. That every index is in range is Dafny's array-bounds check under that length requirement, not a stated postcondition |
| `SingleShot.Analyze` | get_preemption_time_linux.c:156-185 | The cost is `abs(start1 - start0)` in ns, at least 0. The warning flag equals `BadBehaviour`, which holds iff `start1 >= end0` or `start0 >= end1` in time. There is no abort outcome |
| `SingleShot.BadBehaviour` | get_preemption_time_linux.c:183-184 | The warning condition is non-strict: if thread 1 yielded at the very instant thread 0 resumed, or the other way round, the warning fires |
| `SingleShot.BadBehaviourChronological` | get_preemption_time_linux_all_lock.c:198-200 | The warning is silent iff each thread's yield instant is strictly before the other's resume instant |
| `OldMain.Difference` | old/main.c:57-69 | The seconds/microseconds pair totals final minus initial user time. For normalised samples the microseconds are in `[0, 1e6)` and the seconds are non-negative iff the elapsed time is. The context-switch counts are final minus initial |
| `OldMain.DifferenceIsSplit` | old/main.c:58-64 | For normalised samples the printed pair is the quotient/remainder split of the elapsed microseconds |
| `OldMain.AsUnsignedLong` | old/main.c:47 | Converting a `long` to `unsigned long` gives a value in `[0, 2^64)` that is unchanged for non-negative inputs and is the input plus 2^64 for negative ones |
| `OldMain.CpuSet` | old/main.c:50-52 | The macro sets a bit only when its byte `cpu / 8` is inside the 128-byte `cpu_set_t`. The mask holds no processor other than `cpu`, and it holds `cpu` iff `cpu < CPU_SETSIZE` (1024) |
| `OldMain.SetAffinityToCpu` | old/main.c:44-55 | As written: refuses with -1 iff the index is at least the processor count converted to `unsigned long`, or `sched_getaffinity` failed. Otherwise it asks for the mask `CpuSet(cpu)`, which is `{cpu}` below 1024 and empty from 1024 on, and returns the status of `sched_setaffinity`. With a non-negative count only existing processors pass |
| `OldMain.SysconfFailureBypassesGuard` | old/main.c:46-52 | With a processor count of -1, processor 3 passes the guard and mask `{3}` is requested. Processor 1024 passes too, and the request carries an empty mask |
| `OldMain.SetAffinityToCpuChecked` | old/main.c:44-55 | As intended: a request happens only for `0 <= cpu < n_processors`, with mask `CpuSet(cpu)`. It agrees with the as-written guard whenever the count is non-negative |
| `OldMain.MigrationTargets` | old/main.c:124-154 | The child starts on core 2 and the parent on core 3. The 11 targets are all 2 or 3 and alternate at every step. After 10 migrations `actual_core` and the target are back at their start |

## Findings

| source | as written | input that shows it | evidently intended | confidence | as-written member | corrected member |
|---|---|---|---|---|---|---|
| old/main.c:46-47 | `cpu_where_set >= n_processors` compares an `unsigned long` with a `long`, so C converts `n_processors` to `unsigned long` | `sysconf` returns -1 (failure), `cpu_where_set = 3`: -1 becomes 2^64-1 and the guard passes | refuse any processor not below the number of online processors, including when the count is unavailable | medium, not executed | `OldMain.SetAffinityToCpu`, `OldMain.SysconfFailureBypassesGuard` | `OldMain.SetAffinityToCpuChecked` |

## Left out

- Thread creation, `pthread_barrier_*`, `sched_yield`, `pthread_join` and the per-thread publication into the global arrays are concurrency. The model takes the published timestamps as input sequences.
- `clock_gettime`, `sched_setscheduler`, `sched_setaffinity`/`sched_getaffinity`, `sched_getcpu`, `mlockall`/`munlockall`, `sysconf`, `getrusage`, `fork` and `wait` are OS calls. Their results are parameters, for example `cpuInitial`/`cpuFinal`, `pid`, `nProcessors` and the affinity statuses. The fatal exits on their failure before or inside the trial loops are not modelled, because these calls are assumed to succeed.
- The warming, timed and flush read loops of the L2 benchmark and `__builtin___clear_cache` only matter for hardware timing. The one read pass is kept as `L2Cache.LoadVector`. Dafny's array-bounds check on it covers the index range for a buffer of that length.
- cache_management/clear_cache_module/clear_cache_module.c is not part of this model. It is kernel character-device code and a foreign assembly routine.
- The floating-point CPU-burner loops of old/main.c and its `main_continuous`/`main_preemption` bodies are left out because their arithmetic is irrelevant. The preprocessor-selected dispatch in `main` is left out too.
- `set_affinity_to_cpu` in get_preemption_time_linux.c is called only from its thread function, so it is not modelled separately. Its code is the same as old/main.c's.
- All `printf`/`perror` output and trace dumps are left out. The printed values are the members' results.
- The conversion `tv_sec * 1000000000L + tv_nsec` uses unbounded integers. It overflows `long long` only for gaps of more than about 292 years, which a monotonic clock does not produce within one run.
- The setup in front of the analysis is left out: barrier initialisation, thread attributes and the real-time scheduling class.
