/**
 * GetMillisecondsMonotonic and GetMillisecondsSinceProcessStart: a
 * `clock_gettime` reading (CLOCK_MONOTONIC or CLOCK_PROCESS_CPUTIME_ID, an
 * input here) converted to whole milliseconds.
 */
module Clock {
  import opened Decimal
  import opened ProcFs

  const NANOS_PER_MILLI: int := 1_000_000
  const NANOS_PER_SEC: int := 1_000_000_000

  /** C's integer `/`, which truncates toward zero (Dafny's rounds toward negative infinity). */
  function CDiv(a: int, b: int): (q: int)
    requires b > 0
    ensures a >= 0 ==> q == a / b
  {
    if a >= 0 then a / b else -((-a) / b)
  }

  /** A reading as `clock_gettime` returns it: the nanoseconds are a fraction of a second. */
  predicate Normalized(ts: Timespec) {
    0 <= ts.nsec as int < NANOS_PER_SEC
  }

  /**
   * `ts.tv_sec * 1000LL + (ts.tv_nsec / 1000000LL)`: whole seconds in
   * milliseconds plus the whole milliseconds of the nanoseconds field,
   * truncated toward zero as C's division does.
   */
  function Milliseconds(ts: Timespec): (ms: int)
    ensures var sub := ms - ts.sec as int * 1000;
            ts.nsec >= 0 ==> sub * NANOS_PER_MILLI <= ts.nsec as int < (sub + 1) * NANOS_PER_MILLI
    ensures var sub := ms - ts.sec as int * 1000;
            ts.nsec < 0 ==> (sub - 1) * NANOS_PER_MILLI < ts.nsec as int <= sub * NANOS_PER_MILLI
  {
    ts.sec as int * 1000 + CDiv(ts.nsec as int, NANOS_PER_MILLI)
  }

  /** The whole reading in nanoseconds: the independent reference for the conversion. */
  function TotalNanos(ts: Timespec): int {
    ts.sec as int * NANOS_PER_SEC + ts.nsec as int
  }

  /** Reading `a` is not later than reading `b`. */
  predicate NotLater(a: Timespec, b: Timespec) {
    a.sec < b.sec || (a.sec == b.sec && a.nsec <= b.nsec)
  }

  /**
   * For a normalized reading the sub-second part adds at most 999 ms, and the
   * result is the reading's total nanoseconds rounded down to milliseconds.
   */
  lemma MillisecondsBounds(ts: Timespec)
    requires Normalized(ts)
    ensures ts.sec as int * 1000 <= Milliseconds(ts) <= ts.sec as int * 1000 + 999
    ensures Milliseconds(ts) == TotalNanos(ts) / NANOS_PER_MILLI
  {
  }

  /** A later normalized reading never converts to fewer milliseconds. */
  lemma MillisecondsMonotone(a: Timespec, b: Timespec)
    requires Normalized(a) && Normalized(b) && NotLater(a, b)
    ensures Milliseconds(a) <= Milliseconds(b)
  {
  }
}
