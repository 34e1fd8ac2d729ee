/** Deadlines of unfinished system calls, in the signed 64-bit nanoseconds of Linux ktime,
    and the microsecond model clock they are compared with. */
module Deadline {
  import opened Common

  const BILLION: int := 1_000_000_000
  const LIMIT: int := 0x7fff_ffff_ffff_ffff
  /** Seconds from which ktime_set clamps. */
  const SECONDS_LIMIT: int := LIMIT / BILLION

  type Int64 = n: int | -0x8000_0000_0000_0000 <= n <= 0x7fff_ffff_ffff_ffff

  const CLOCK_REALTIME: int := 0
  const CLOCK_MONOTONIC: int := 1

  /** A point in model time. */
  datatype Timeval = Timeval(sec: Int64, usec: Int64)

  datatype PendingDeadline = PendingDeadline(clockId: int, sec: Int64, nsec: Int64, timeoutResult: Int64)

  predicate ValidClock(t: Timeval) {
    t.sec >= 0 && 0 <= t.usec < 1_000_000
  }

  predicate ValidDeadline(d: PendingDeadline) {
    (d.clockId == CLOCK_REALTIME || d.clockId == CLOCK_MONOTONIC) && d.sec >= 0 && 0 <= d.nsec < BILLION
  }

  function Nanos(d: PendingDeadline): int {
    d.sec * BILLION + d.nsec
  }

  function Micros(t: Timeval): int {
    t.sec * 1_000_000 + t.usec
  }

  predicate InKtimeRange(d: PendingDeadline) {
    Nanos(d) <= LIMIT
  }

  /** Seconds and nanoseconds as ktime; the product and the sum stay within 64 bits. */
  function ToKtime(sec: Int64, nanos: Int64): (r: Int64)
    requires sec >= 0 && 0 <= nanos < BILLION
    ensures 0 <= r
  {
    if sec >= SECONDS_LIMIT then LIMIT else sec * BILLION + nanos
  }

  function Saturate(n: int): (r: int)
    ensures r <= n && r <= LIMIT && (r == n || r == LIMIT)
  {
    if n > LIMIT then LIMIT else n
  }

  function MakePendingDeadline(now: Timeval, clockId: int, sec: Int64, nsec: Int64, relative: bool,
                               timeoutResult: Int64)
    : Result<PendingDeadline>
  {
    if !ValidDeadline(PendingDeadline(clockId, sec, nsec, timeoutResult)) || !ValidClock(now) then Err
    else
      var absolute := ToKtime(sec, nsec) + if relative then ToKtime(now.sec, now.usec * 1000) else 0;
      var bounded := Saturate(absolute);
      Ok(PendingDeadline(clockId, bounded / BILLION, bounded % BILLION, timeoutResult))
  }

  /** The exact moment asked for. */
  function Ideal(now: Timeval, sec: int, nsec: int, relative: bool): int {
    sec * BILLION + nsec + if relative then now.sec * BILLION + now.usec * 1000 else 0
  }

  /** A deadline that is made is canonical, within range for every later check, keeps its
      clock and result, and never lies before the moment asked for unless that is beyond
      the range. */
  lemma DeadlineIsCanonical(now: Timeval, clockId: int, sec: Int64, nsec: Int64, relative: bool, timeoutResult: Int64)
    ensures var r := MakePendingDeadline(now, clockId, sec, nsec, relative, timeoutResult);
            && (r.Ok? <==> ValidDeadline(PendingDeadline(clockId, sec, nsec, timeoutResult)) && ValidClock(now))
            && (r.Ok? ==>
                  && ValidDeadline(r.value) && InKtimeRange(r.value)
                  && r.value.clockId == clockId && r.value.timeoutResult == timeoutResult
                  && Nanos(r.value) >= Saturate(Ideal(now, sec, nsec, relative)))
  {
  }

  /** The deadline is the saturating sum, except that an operand of 9223372036 seconds is
      clamped to the limit even where the sum would still fit: it is exact if and only if
      no operand is clamped or the sum reaches the limit. */
  lemma DeadlineIsSaturatingSum(now: Timeval, clockId: int, sec: Int64, nsec: Int64, relative: bool,
                                timeoutResult: Int64)
    requires ValidDeadline(PendingDeadline(clockId, sec, nsec, timeoutResult)) && ValidClock(now)
    ensures var d := MakePendingDeadline(now, clockId, sec, nsec, relative, timeoutResult).value;
            var ideal := Ideal(now, sec, nsec, relative);
            Nanos(d) == Saturate(ideal) <==>
              || (sec < SECONDS_LIMIT && (relative ==> now.sec < SECONDS_LIMIT))
              || ideal >= LIMIT
  {
  }

  /** The clamp shows on one input in range. */
  lemma DeadlineCanBeClamped()
    ensures var now := Timeval(0, 0);
            var d := MakePendingDeadline(now, CLOCK_MONOTONIC, 9_223_372_036, 0, true, 0).value;
            Ideal(now, 9_223_372_036, 0, true) < LIMIT && Nanos(d) == LIMIT
  {
    DeadlineIsSaturatingSum(Timeval(0, 0), CLOCK_MONOTONIC, 9_223_372_036, 0, true, 0);
  }

  lemma ToKtimeMonotone(sec: Int64, nanos: Int64, sec': Int64, nanos': Int64)
    requires sec >= 0 && 0 <= nanos < BILLION && sec' >= 0 && 0 <= nanos' < BILLION
    requires sec * BILLION + nanos <= sec' * BILLION + nanos'
    ensures ToKtime(sec, nanos) <= ToKtime(sec', nanos')
  {
  }

  /** A longer timeout or a later clock never gives an earlier deadline. */
  lemma DeadlineIsMonotone(now: Timeval, sec: Int64, nsec: Int64, now': Timeval, sec': Int64, nsec': Int64,
                           clockId: int, relative: bool, timeoutResult: Int64)
    requires ValidDeadline(PendingDeadline(clockId, sec, nsec, timeoutResult)) && ValidClock(now)
    requires ValidDeadline(PendingDeadline(clockId, sec', nsec', timeoutResult)) && ValidClock(now')
    requires sec * BILLION + nsec <= sec' * BILLION + nsec' && Micros(now) <= Micros(now')
    ensures Nanos(MakePendingDeadline(now, clockId, sec, nsec, relative, timeoutResult).value) <=
            Nanos(MakePendingDeadline(now', clockId, sec', nsec', relative, timeoutResult).value)
  {
    ToKtimeMonotone(sec, nsec, sec', nsec');
    ToKtimeMonotone(now.sec, now.usec * 1000, now'.sec, now'.usec * 1000);
  }

  // ---- The clock a timeout moves to -----------------------------------------------

  function PendingTimeoutClock(source: Timeval, d: PendingDeadline): Result<Timeval> {
    if !ValidDeadline(d) || !ValidClock(source) || !InKtimeRange(d) then Err
    else
      var usec := (d.nsec + 999) / 1000;
      var target := if usec == 1_000_000 then Timeval(d.sec + 1, 0) else Timeval(d.sec, usec);
      if source.sec > target.sec || (source.sec == target.sec && source.usec > target.usec) then Ok(source)
      else Ok(target)
  }

  predicate Due(now: Timeval, d: PendingDeadline) {
    now.sec > d.sec || (now.sec == d.sec && now.usec * 1000 >= d.nsec)
  }

  /** The field-wise test is the comparison of the two moments. */
  lemma DueIsComparison(now: Timeval, d: PendingDeadline)
    requires ValidClock(now) && ValidDeadline(d)
    ensures Due(now, d) <==> Micros(now) * 1000 >= Nanos(d)
  {
  }

  /** The clock moved to is the least valid one that is not before the source and at which
      the deadline is due. */
  lemma TimeoutClockIsLeast(source: Timeval, d: PendingDeadline, c: Timeval)
    requires ValidDeadline(d) && ValidClock(source) && InKtimeRange(d)
    ensures var r := PendingTimeoutClock(source, d);
            && r.Ok? && ValidClock(r.value) && Due(r.value, d) && Micros(r.value) >= Micros(source)
            && (ValidClock(c) && Due(c, d) && Micros(c) >= Micros(source) ==> Micros(c) >= Micros(r.value))
  {
    var r := PendingTimeoutClock(source, d).value;
    DueIsComparison(r, d);
    DueIsComparison(source, d);
    if ValidClock(c) {
      DueIsComparison(c, d);
    }
  }

  /** In numbers: the clock stays, or moves to the deadline rounded up to a microsecond. */
  lemma TimeoutClockInMicros(source: Timeval, d: PendingDeadline)
    requires ValidDeadline(d) && ValidClock(source) && InKtimeRange(d)
    ensures var r, due := PendingTimeoutClock(source, d), (Nanos(d) + 999) / 1000;
            r.Ok? && Micros(r.value) == if Micros(source) > due then Micros(source) else due
  {
    assert (d.sec * BILLION + d.nsec + 999) / 1000 == d.sec * 1_000_000 + (d.nsec + 999) / 1000;
  }

  /** Moving the clock for one deadline makes no other deadline due that lies a microsecond
      or more after it. */
  lemma TimeoutClockOvershoot(source: Timeval, d: PendingDeadline, other: PendingDeadline)
    requires ValidDeadline(d) && ValidClock(source) && InKtimeRange(d) && ValidDeadline(other)
    requires !Due(source, other) && Due(PendingTimeoutClock(source, d).value, other)
    ensures Nanos(other) < Nanos(d) + 1000
  {
    DueIsComparison(source, other);
    DueIsComparison(PendingTimeoutClock(source, d).value, other);
  }

  /** A deadline that was made passes the checks of a timeout, whatever the clock by then. */
  lemma MadeDeadlineExpires(now: Timeval, clockId: int, sec: Int64, nsec: Int64, relative: bool,
                            timeoutResult: Int64, source: Timeval)
    requires ValidDeadline(PendingDeadline(clockId, sec, nsec, timeoutResult)) && ValidClock(now) && ValidClock(source)
    ensures var d := MakePendingDeadline(now, clockId, sec, nsec, relative, timeoutResult).value;
            PendingTimeoutClock(source, d).Ok? && Due(PendingTimeoutClock(source, d).value, d)
  {
    DeadlineIsCanonical(now, clockId, sec, nsec, relative, timeoutResult);
    TimeoutClockIsLeast(source, MakePendingDeadline(now, clockId, sec, nsec, relative, timeoutResult).value, source);
  }
}
