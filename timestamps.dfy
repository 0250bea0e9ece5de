/** Monotonic timestamps (`struct timespec`) and the signed, normalised
    difference every benchmark computes once its timestamps are captured.
    The repository carries five identical copies of `timespec_subtract`;
    this module is the one model they all share. */
module Timestamps {

  /** Nanoseconds in one second: the unit of the one-second borrow. */
  const NSEC_PER_SEC: int := 1_000_000_000

  /** A `struct timespec`: whole seconds and a nanosecond part. */
  datatype Timespec = Timespec(sec: int, nsec: int)

  /** What `clock_gettime` guarantees of every reading it returns. */
  predicate Normalized(t: Timespec)
  {
    0 <= t.nsec < NSEC_PER_SEC
  }

  /** The `tv_sec * 1000000000L + tv_nsec` conversion used by every benchmark. */
  function TotalNs(t: Timespec): int
  {
    t.sec * NSEC_PER_SEC + t.nsec
  }

  /** `later` is at or after `earlier` in lexicographic (seconds, nanoseconds) order. */
  predicate NotBefore(later: Timespec, earlier: Timespec)
  {
    later.sec > earlier.sec || (later.sec == earlier.sec && later.nsec >= earlier.nsec)
  }

  function Abs(x: int): nat
  {
    if x < 0 then -x else x
  }

  /** Elapsed nanoseconds between two instants with the sign discarded. */
  function ElapsedNs(start: Timespec, end: Timespec): nat
  {
    Abs(TotalNs(end) - TotalNs(start))
  }

  /** Reference definition of the magnitude of `end - start`: the absolute
      nanosecond distance split into whole seconds and a normalised rest. */
  function Magnitude(start: Timespec, end: Timespec): (r: Timespec)
    ensures Normalized(r) && r.sec >= 0
    ensures TotalNs(r) == ElapsedNs(start, end)
  {
    var m := ElapsedNs(start, end);
    Timespec(m / NSEC_PER_SEC, m % NSEC_PER_SEC)
  }

  /** For readings a clock can produce, the lexicographic order is the
      chronological one. */
  lemma OrderMatchesTotal(a: Timespec, b: Timespec)
    requires Normalized(a) && Normalized(b)
    ensures NotBefore(a, b) <==> TotalNs(a) >= TotalNs(b)
  {
  }

  /** A normalised, non-negative split of `m` is the quotient/remainder split. */
  lemma SplitIsUnique(r: Timespec, m: int)
    requires Normalized(r) && TotalNs(r) == m
    ensures r == Timespec(m / NSEC_PER_SEC, m % NSEC_PER_SEC)
  {
  }

  /** `timespec_subtract(result, start, end)`: `result` receives the
      magnitude of `end - start`, borrowed into a non-negative nanosecond
      part, and the return value says whether `end` is not before `start`. */
  method Subtract(start: Timespec, end: Timespec) returns (result: Timespec, nonNegative: bool)
    ensures nonNegative <==> NotBefore(end, start)
    ensures TotalNs(result) == if nonNegative then TotalNs(end) - TotalNs(start)
                               else TotalNs(start) - TotalNs(end)
    ensures start == end ==> nonNegative && result == Timespec(0, 0)
    ensures Normalized(start) && Normalized(end) ==>
              Normalized(result) && result.sec >= 0 && TotalNs(result) == ElapsedNs(start, end)
    ensures Normalized(start) && Normalized(end) ==> result == Magnitude(start, end)
  {
    if end.sec > start.sec || (end.sec == start.sec && end.nsec >= start.nsec) {
      result := Timespec(end.sec - start.sec, end.nsec - start.nsec);
      nonNegative := true;
    } else {
      result := Timespec(start.sec - end.sec, start.nsec - end.nsec);
      nonNegative := false;
    }

    if result.nsec < 0 {
      result := result.(nsec := result.nsec + NSEC_PER_SEC);
      result := result.(sec := result.sec - 1);
    }

    if Normalized(start) && Normalized(end) {
      OrderMatchesTotal(end, start);
      SplitIsUnique(result, ElapsedNs(start, end));
    }
  }

  /** Swapping the arguments keeps the magnitude and flips the flag, except
      on equal inputs, where both calls report "not negative". */
  lemma SwapArguments(a: Timespec, b: Timespec)
    ensures Magnitude(a, b) == Magnitude(b, a)
    ensures a != b ==> NotBefore(b, a) != NotBefore(a, b)
    ensures a == b ==> NotBefore(b, a) && NotBefore(a, b)
  {
  }

  /** The cost recorded for each trial, `|ends[i] - starts[i]|` in nanoseconds. */
  function ElapsedSeries(starts: seq<Timespec>, ends: seq<Timespec>): (s: seq<int>)
    requires |starts| == |ends|
    ensures |s| == |starts|
    ensures forall i :: 0 <= i < |s| ==> s[i] == ElapsedNs(starts[i], ends[i]) && s[i] >= 0
  {
    seq(|starts|, i requires 0 <= i < |starts| => ElapsedNs(starts[i], ends[i]))
  }

  ghost predicate AllNormalized(ts: seq<Timespec>)
  {
    forall i :: 0 <= i < |ts| ==> Normalized(ts[i])
  }
}
