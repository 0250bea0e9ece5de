/** The modellable pieces of old/main.c: the difference of two resource-usage
    samples, the processor-range guard of `set_affinity_to_cpu`, and the
    alternation of target cores in `main_migration`. */
module OldMain {

  const USEC_PER_SEC: int := 1_000_000
  const NUMBER_OF_MIGRATIONS: nat := 10

  /** 2^64: `unsigned long` values are below it. */
  const ULONG_MODULUS: int := 0x1_0000_0000_0000_0000
  const LONG_MIN: int := -0x8000_0000_0000_0000
  const LONG_MAX: int := 0x7fff_ffff_ffff_ffff

  /** `struct usage_statics` (the unused `elapsed_clock` left aside). */
  datatype UsageStatistics = UsageStatistics(
    userTimeUs: int, userTimeS: int, systemTimeUs: int, systemTimeS: int,
    involuntaryContextSwitches: int, voluntaryContextSwitches: int)

  /** The four figures `usage_statistics_difference_print` prints. */
  datatype UsageDifference = UsageDifference(
    userTimeS: int, userTimeUs: int, voluntaryContextSwitches: int, involuntaryContextSwitches: int)

  function UserTotalUs(u: UsageStatistics): int
  {
    u.userTimeS * USEC_PER_SEC + u.userTimeUs
  }

  predicate UserTimeNormalized(u: UsageStatistics)
  {
    0 <= u.userTimeUs < USEC_PER_SEC
  }

  /** User time `final - initial` with a one-second borrow into the
      microsecond part, and the context-switch counts subtracted. */
  function Difference(initial: UsageStatistics, final: UsageStatistics): (d: UsageDifference)
    ensures d.userTimeS * USEC_PER_SEC + d.userTimeUs == UserTotalUs(final) - UserTotalUs(initial)
    ensures UserTimeNormalized(initial) && UserTimeNormalized(final) ==> 0 <= d.userTimeUs < USEC_PER_SEC
    ensures UserTimeNormalized(initial) && UserTimeNormalized(final) ==>
              (UserTotalUs(final) >= UserTotalUs(initial) <==> d.userTimeS >= 0)
    ensures d.voluntaryContextSwitches == final.voluntaryContextSwitches - initial.voluntaryContextSwitches
    ensures d.involuntaryContextSwitches == final.involuntaryContextSwitches - initial.involuntaryContextSwitches
  {
    var userTimeUs := final.userTimeUs - initial.userTimeUs;
    var userTimeS := final.userTimeS - initial.userTimeS;
    var voluntary := final.voluntaryContextSwitches - initial.voluntaryContextSwitches;
    var involuntary := final.involuntaryContextSwitches - initial.involuntaryContextSwitches;
    if userTimeUs < 0 then
      UsageDifference(userTimeS - 1, userTimeUs + USEC_PER_SEC, voluntary, involuntary)
    else
      UsageDifference(userTimeS, userTimeUs, voluntary, involuntary)
  }

  /** For normalised samples the printed pair is the quotient/remainder split
      of the elapsed user time in microseconds. */
  lemma DifferenceIsSplit(initial: UsageStatistics, final: UsageStatistics)
    requires UserTimeNormalized(initial) && UserTimeNormalized(final)
    ensures var d := Difference(initial, final);
            var elapsed := UserTotalUs(final) - UserTotalUs(initial);
            d.userTimeS == elapsed / USEC_PER_SEC && d.userTimeUs == elapsed % USEC_PER_SEC
  {
  }

  /** Number of processors a `cpu_set_t` can name. */
  const CPU_SETSIZE: int := 1024

  /** `sizeof(cpu_set_t)`: one bit per nameable processor. */
  const CPU_SET_BYTES: int := 128

  /** The mask `CPU_ZERO` then `CPU_SET(cpu, &mask)` builds. The macro sets
      the bit only when its byte, `cpu / 8`, lies inside the set. */
  function CpuSet(cpu: int): (mask: set<int>)
    requires cpu >= 0
    ensures mask <= {cpu}
    ensures cpu in mask <==> cpu < CPU_SETSIZE
  {
    if cpu / 8 < CPU_SET_BYTES then {cpu} else {}
  }

  /** What `set_affinity_to_cpu` did: refused with -1, or asked the kernel
      for a mask and passed on the status `sched_setaffinity` returned. */
  datatype AffinityCall = Refused | Requested(mask: set<int>, status: int)
  {
    function ReturnValue(): int
    {
      match this
      case Refused => -1
      case Requested(_, status) => status
    }
  }

  /** C's conversion of a `long` to `unsigned long`. */
  function AsUnsignedLong(x: int): (u: int)
    requires LONG_MIN <= x <= LONG_MAX
    ensures 0 <= u < ULONG_MODULUS
    ensures x >= 0 ==> u == x
    ensures x < 0 ==> u == x + ULONG_MODULUS
  {
    if x < 0 then x + ULONG_MODULUS else x
  }

  /** `set_affinity_to_cpu` as written: the `unsigned long` processor index
      is compared with the `long` that `sysconf` returned, which C first
      converts to `unsigned long`. `getaffinityStatus` and
      `setaffinityStatus` are what the two system calls return. */
  function SetAffinityToCpu(cpuWhereSet: int, nProcessors: int, getaffinityStatus: int, setaffinityStatus: int)
    : (c: AffinityCall)
    requires 0 <= cpuWhereSet < ULONG_MODULUS
    requires LONG_MIN <= nProcessors <= LONG_MAX
    ensures c.Refused? <==> cpuWhereSet >= AsUnsignedLong(nProcessors) || getaffinityStatus == -1
    ensures c.Refused? ==> c.ReturnValue() == -1
    ensures c.Requested? ==> c.mask == CpuSet(cpuWhereSet) && c.ReturnValue() == setaffinityStatus
    ensures nProcessors >= 0 && c.Requested? ==> cpuWhereSet < nProcessors
  {
    if cpuWhereSet >= AsUnsignedLong(nProcessors) || getaffinityStatus == -1 then
      Refused
    else
      Requested(CpuSet(cpuWhereSet), setaffinityStatus)
  }

  /** When `sysconf` fails it returns -1, which converts to the largest
      `unsigned long`: the range guard then lets any processor through. */
  lemma SysconfFailureBypassesGuard()
    ensures SetAffinityToCpu(3, -1, 0, 0) == Requested({3}, 0)
    ensures SetAffinityToCpu(1024, -1, 0, 0) == Requested({}, 0)
  {
  }

  /** The guard as intended: a processor index is accepted only when it is
      below the number of online processors, as a mathematical comparison. */
  function SetAffinityToCpuChecked(cpuWhereSet: int, nProcessors: int, getaffinityStatus: int, setaffinityStatus: int)
    : (c: AffinityCall)
    requires 0 <= cpuWhereSet < ULONG_MODULUS
    requires LONG_MIN <= nProcessors <= LONG_MAX
    ensures c.Refused? <==> cpuWhereSet >= nProcessors || getaffinityStatus == -1
    ensures c.Refused? ==> c.ReturnValue() == -1
    ensures c.Requested? ==> c.mask == CpuSet(cpuWhereSet) && c.ReturnValue() == setaffinityStatus
    ensures c.Requested? ==> 0 <= cpuWhereSet < nProcessors
    ensures nProcessors >= 0 ==> c == SetAffinityToCpu(cpuWhereSet, nProcessors, getaffinityStatus, setaffinityStatus)
  {
    if cpuWhereSet >= nProcessors || getaffinityStatus == -1 then
      Refused
    else
      Requested(CpuSet(cpuWhereSet), setaffinityStatus)
  }

  /** The target cores of `main_migration`: the child (`pid == 0`) starts on
      core 2 and the parent on core 3; after each burst of work
      `actual_core` flips and the process asks for core `2 + actual_core`.
      The result lists the initial target and the one after each migration. */
  method MigrationTargets(pid: int) returns (targets: seq<int>, actualCore: int)
    ensures |targets| == NUMBER_OF_MIGRATIONS + 1
    ensures targets[0] == if pid == 0 then 2 else 3
    ensures forall k :: 0 <= k < |targets| ==> targets[k] == 2 || targets[k] == 3
    ensures forall k :: 0 < k < |targets| ==> targets[k] != targets[k - 1]
    ensures actualCore == (if pid == 0 then 0 else 1)
    ensures targets[NUMBER_OF_MIGRATIONS] == targets[0]
  {
    if pid == 0 {
      actualCore := 0;
    } else {
      actualCore := 1;
    }
    ghost var first := actualCore;
    targets := [2 + actualCore];

    for j := 0 to NUMBER_OF_MIGRATIONS
      invariant actualCore == (first + j) % 2
      invariant |targets| == j + 1
      invariant forall k :: 0 <= k < |targets| ==> targets[k] == 2 + (first + k) % 2
    {
      actualCore := 1 - actualCore;
      targets := targets + [2 + actualCore];
    }
  }
}
