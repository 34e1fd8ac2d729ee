/** How long calls wait: as long as they asked, from the call to the return. */
module LifetimeTime {
  import opened Common
  import opened Deadline
  import opened Pending
  import opened Lifetime
  import opened LifetimeSound
  import Futex

  /** How long a call asks to wait at most, in nanoseconds, and whether from now on or until
      that moment; `None` is for ever. */
  function Asked(t: Trap): Option<(int, bool)> {
    var nr, a := t.call.nr, t.call.args;
    if DataCall(nr) then Some((1_000_000_000, true))
    else if nr == SYS_epoll_wait || nr == SYS_epoll_pwait then
      if Int(a[3]) < 0 then None else Some((Int(a[3]) * 1_000_000, true))
    else if t.timeout.None? then None
    else
      var nanos := t.timeout.value.sec * BILLION + t.timeout.value.nsec;
      if nr == SYS_epoll_pwait2 then if a[3] == 0 then None else Some((nanos, true))
      else if nr == SYS_nanosleep then Some((nanos, true))
      else if nr == SYS_clock_nanosleep then Some((nanos, Int(a[1]) == 0))
      else if nr == SYS_pselect6 then if a[4] == 0 then None else Some((nanos, true))
      else if nr == SYS_futex && FutexTimed(t.call) then Some((nanos, Futex.Command(Low32(a[1])) == Futex.FUTEX_WAIT))
      else None
  }

  /** The moment asked for, counted from the call. */
  function Moment(now: Timeval, asked: (int, bool)): int {
    Saturate(asked.0 + if asked.1 then Micros(now) * 1000 else 0)
  }

  /** A part of the sum lies within a second of the range of the clock, or beyond it. */
  predicate Clamped(now: Timeval, asked: (int, bool)) {
    asked.0 >= 9_223_372_036 * 1_000_000_000 || (asked.1 && now.sec >= 9_223_372_036)
  }

  /** The moment a wait ends: the one asked for, unless a part of the sum is clamped, and then
      the last there is. */
  function WaitEnd(now: Timeval, asked: (int, bool)): (r: int)
    ensures r >= Moment(now, asked)
  {
    if Clamped(now, asked) then 0x7fff_ffff_ffff_ffff else Moment(now, asked)
  }

  /** The clock a call is timed by: a futex call may choose the real-time clock by bit 8 of its
      operation, a sleep names one, and all others go by the monotonic clock. */
  function AskedClock(c: SysCall): int {
    if c.nr == 202 then 1 - c.args[1] / 256 % 2
    else if c.nr == 230 then Int(c.args[0])
    else 1
  }

  /** What a call returns when its time is up: -110 from a futex call, otherwise 0. */
  function TimedOut(c: SysCall): int {
    if c.nr == 202 then -110 else 0
  }

  /** A deadline at the moment asked for, and none where none was asked for. */
  predicate WaitsAsAsked(now: Timeval, t: Trap, deadline: Option<PendingDeadline>) {
    && (deadline.Some? <==> Asked(t).Some?)
    && (deadline.Some? ==>
          var d := deadline.value;
          && ValidDeadline(d) && Nanos(d) == WaitEnd(now, Asked(t).value)
          && d.clockId == AskedClock(t.call) && d.timeoutResult == TimedOut(t.call))
  }

  lemma MadeAsAsked(now: Timeval, clock: int, t: Timespec, relative: bool, timeoutResult: Int64)
    requires MakePendingDeadline(now, clock, t.sec, t.nsec, relative, timeoutResult).Ok?
    ensures var d := MakePendingDeadline(now, clock, t.sec, t.nsec, relative, timeoutResult).value;
            && ValidDeadline(d) && Nanos(d) == WaitEnd(now, (t.sec * BILLION + t.nsec, relative))
            && d.clockId == clock && d.timeoutResult == timeoutResult
  {
    DeadlineIsCanonical(now, clock, t.sec, t.nsec, relative, timeoutResult);
  }

  predicate TimerCall(nr: int) {
    nr == SYS_nanosleep || nr == SYS_clock_nanosleep || nr == SYS_pselect6
  }

  /** A wait at the address that stands for not waiting. */
  predicate CompleteAtOnce(c: SysCall) {
    c.nr == SYS_futex && c.args[0] == 0
  }

  /** The actor waits in the call it made, for as long as it asked. */
  predicate SuspendedAsAsked(n: Node, k: nat, t: Trap, m: Node) {
    && k < |m.threads| && m.threads[k].pending.Some?
    && var p := m.threads[k].pending.value;
       && p.call == t.call && p.phase == (if CompleteAtOnce(t.call) then Ready else Waiting)
       && (p.reason == ForTimer <==> TimerCall(t.call.nr))
       && WaitsAsAsked(n.clock, t, p.deadline)
  }

  lemma AdmittedAsAsked(n: Node, k: nat, t: Trap, reason: Reason, deadline: Option<PendingDeadline>)
    requires Shape(n.threads) && k < |n.threads| && n.threads[k].alive && n.threads[k].pending.None?
    requires (reason == ForTimer <==> TimerCall(t.call.nr)) && WaitsAsAsked(n.clock, t, deadline) &&
             !CompleteAtOnce(t.call)
    ensures var r := Admit(n, n.threads[k].physical, t.call, reason, deadline);
            r.Ok? ==> SuspendedAsAsked(n, k, t, r.value)
  {
    AdmitForm(n, k, t.call, reason, deadline);
  }

  lemma IoAsAsked(n: Node, k: nat, t: Trap)
    requires Idle(n, k) && SupportsPendingIo(t.call.nr)
    ensures var r := HandleIo(n, n.threads[k].physical, t);
            r.Ok? && r.value.Suspended? ==> SuspendedAsAsked(n, k, t, r.value.node)
  {
    if IoShouldSuspend(t) == Ok(true) && IoTimeout(t).Ok? {
      match IoTimeout(t).value {
        case None => AdmittedAsAsked(n, k, t, ForIo, None);
        case Some(wait) =>
          var d := MakePendingDeadline(n.clock, CLOCK_MONOTONIC, wait.sec, wait.nsec, true, 0);
          if d.Ok? {
            MadeAsAsked(n.clock, CLOCK_MONOTONIC, wait, true, 0);
            AdmittedAsAsked(n, k, t, ForIo, Some(d.value));
          }
      }
    }
  }

  lemma SleepAsAsked(n: Node, k: nat, t: Trap)
    requires Idle(n, k) && (t.call.nr == SYS_nanosleep || t.call.nr == SYS_clock_nanosleep)
    ensures var r := HandleSleep(n, n.threads[k].physical, t);
            r.Ok? && r.value.Suspended? ==> SuspendedAsAsked(n, k, t, r.value.node)
  {
    var clock := if t.call.nr == SYS_nanosleep then CLOCK_MONOTONIC else Int(t.call.args[0]);
    var flags := if t.call.nr == SYS_nanosleep then 0 else Int(t.call.args[1]);
    if t.timeout.Some? {
      var d := MakePendingDeadline(n.clock, clock, t.timeout.value.sec, t.timeout.value.nsec, flags == 0, 0);
      if d.Ok? {
        MadeAsAsked(n.clock, clock, t.timeout.value, flags == 0, 0);
        AdmittedAsAsked(n, k, t, ForTimer, Some(d.value));
      }
    }
  }

  lemma SelectAsAsked(n: Node, k: nat, t: Trap)
    requires Idle(n, k) && t.call.nr == SYS_pselect6
    ensures var r := HandleSelect(n, n.threads[k].physical, t);
            r.Ok? && r.value.Suspended? ==> SuspendedAsAsked(n, k, t, r.value.node)
  {
    if t.call.args[4] == 0 {
      AdmittedAsAsked(n, k, t, ForTimer, None);
    } else if t.timeout.Some? {
      var wait := t.timeout.value;
      var d := MakePendingDeadline(n.clock, CLOCK_MONOTONIC, wait.sec, wait.nsec, true, 0);
      if d.Ok? {
        MadeAsAsked(n.clock, CLOCK_MONOTONIC, wait, true, 0);
        AdmittedAsAsked(n, k, t, ForTimer, Some(d.value));
      }
    }
  }

  lemma LowBits(n: U64)
    ensures Low32(n) / 256 % 2 == n / 256 % 2
  {
    var high, low := n / 0x1_0000_0000, n % 0x1_0000_0000;
    LowBitsOf(n, high, low / 512, low % 512);
  }

  lemma LowBitsOf(n: nat, high: nat, q: nat, r: nat)
    requires n == 0x1_0000_0000 * high + 512 * q + r && r < 512
    ensures n / 256 % 2 == r / 256
    ensures (512 * q + r) / 256 % 2 == r / 256
  {
    var h := 0x80_0000 * high + q;
    assert n == 512 * h + r;
    assert n / 256 == 2 * h + r / 256;
    assert (512 * q + r) / 256 == 2 * q + r / 256;
  }

  lemma FutexDeadlineAsAsked(now: Timeval, t: Trap)
    requires t.call.nr == SYS_futex && TimeoutRead(t) && FutexDeadline(now, t).Ok?
    ensures WaitsAsAsked(now, t, FutexDeadline(now, t).value)
  {
    var op := Low32(t.call.args[1]);
    LowBits(t.call.args[1]);
    if FutexTimed(t.call) {
      MadeAsAsked(now, if Futex.RealtimeFlag(op) then CLOCK_REALTIME else CLOCK_MONOTONIC, t.timeout.value,
                  Futex.Command(op) == Futex.FUTEX_WAIT, -ETIMEDOUT);
    }
  }

  lemma FutexAsAsked(n: Node, k: nat, t: Trap)
    requires Idle(n, k) && t.call.nr == SYS_futex
    ensures var r := HandleFutexTrap(n, n.threads[k].physical, t);
            r.Ok? && r.value.Suspended? ==> SuspendedAsAsked(n, k, t, r.value.node)
  {
    FindsThread(n.threads, k);
    var h := Futex.HandleFutex(n.futex, k + 1, FutexCall(t));
    if h.Ok? && TimeoutRead(t) {
      var op := Low32(t.call.args[1]);
      if Futex.IsWait(op) && h.value.result == 0 {
        var m := FutexWaitSound(n, k, t, h.value);
        FutexDeadlineAsAsked(n.clock, t);
      }
    }
  }

  /** Whatever call is suspended waits for exactly as long as it asked, or to the end of the
      range of the clock where the time asked for or the clock itself is near it. */
  lemma CallsWaitAsAsked(n: Node, k: nat, t: Trap)
    requires Idle(n, k)
    ensures var r := Handle(n, n.threads[k].physical, t);
            r.Ok? && r.value.Suspended? ==> SuspendedAsAsked(n, k, t, r.value.node)
  {
    var nr := t.call.nr;
    if SupportsPendingIo(nr) {
      IoAsAsked(n, k, t);
    } else if nr == SYS_nanosleep || nr == SYS_clock_nanosleep {
      SleepAsAsked(n, k, t);
    } else if nr == SYS_pselect6 {
      SelectAsAsked(n, k, t);
    } else if nr == SYS_futex {
      FutexAsAsked(n, k, t);
    }
  }

  /** After the action in which a call was made and did not return. */
  lemma StepSuspends(n: Node, e: Event)
    requires Base(n) && e.Run? && Step(n, e).Ok? && n.threads[e.actor].pending.None?
    requires Step(n, e).value.returned.None?
    ensures var m := Step(n, e).value.node;
            && e.actor < |m.threads| && m.threads[e.actor].pending.Some?
            && var p := m.threads[e.actor].pending.value;
               && p.call == e.trap.call && (p.reason == ForTimer <==> TimerCall(p.call.nr))
               && (p.phase == Ready ==> p.reason == ForFutex) && WaitsAsAsked(n.clock, e.trap, p.deadline)
  {
    var k := e.actor;
    CompleteSound(n, k, e.retry);
    CallsWaitAsAsked(n, k, e.trap);
    PerformSound(n, e);
    RefreshLeaves(Perform(n, e).value.node, e.ready, k);
  }

  /** From the making of a call to the timeout that ends it, whatever the other threads did
      meanwhile: the clock then shows the moment the call waited for, rounded up to a
      microsecond, unless it was already past it; so never less than the call asked for. */
  lemma TimeoutIsNotEarly(n: Node, e: Event, es: seq<Event>, os: seq<Outcome>, e': Event)
    requires Base(n) && e.Run? && Step(n, e).Ok? && n.threads[e.actor].pending.None?
    requires Step(n, e).value.returned.None?
    requires IsRun(Step(n, e).value.node, es, os) && CallsReturned(os, e.actor) == []
    requires var last := End(Step(n, e).value.node, os);
             e'.Expire? && e'.actor == e.actor && Step(last, e').Ok?
    ensures Asked(e.trap).Some?
    ensures var last, due := End(Step(n, e).value.node, os), (WaitEnd(n.clock, Asked(e.trap).value) + 999) / 1000;
            Micros(Step(last, e').value.node.clock) == if Micros(last.clock) > due then Micros(last.clock) else due
    ensures Micros(Step(End(Step(n, e).value.node, os), e').value.node.clock) * 1000
            >= Moment(n.clock, Asked(e.trap).value)
  {
    var k, o := e.actor, Step(n, e).value;
    StepSound(n, e);
    StepSuspends(n, e);
    UnfinishedCallIsKept(o.node, es, os, k);
    RunKeepsBase(o.node, es, os);
    var last := End(o.node, os);
    OfferedTimeoutCompletes(last, k, e'.ready);
    TimeoutClockInMicros(last.clock, o.node.threads[k].pending.value.deadline.value);
    var clock := Perform(last, e').value.node.clock;
    DueIsComparison(clock, o.node.threads[k].pending.value.deadline.value);
    assert Step(last, e').value.node.clock == clock;
  }

  /** A sleep returns only by its timeout, so never before the moment it asked for. */
  lemma SleepIsNotCutShort(n: Node, e: Event, es: seq<Event>, os: seq<Outcome>, e': Event)
    requires Base(n) && e.Run? && Step(n, e).Ok? && n.threads[e.actor].pending.None?
    requires Step(n, e).value.returned.None? && TimerCall(e.trap.call.nr)
    requires IsRun(Step(n, e).value.node, es, os) && CallsReturned(os, e.actor) == []
    requires var last := End(Step(n, e).value.node, os);
             e'.actor == e.actor && Step(last, e').Ok? && Step(last, e').value.returned.Some?
    ensures e'.Expire? && Asked(e.trap).Some?
    ensures Micros(Step(End(Step(n, e).value.node, os), e').value.node.clock) * 1000
            >= Moment(n.clock, Asked(e.trap).value)
  {
    var k, o := e.actor, Step(n, e).value;
    StepSound(n, e);
    StepSuspends(n, e);
    UnfinishedCallIsKept(o.node, es, os, k);
    RunKeepsBase(o.node, es, os);
    var last := End(o.node, os);
    ReturnIsRight(last, e');
    TimeoutIsNotEarly(n, e, es, os, e');
  }

  /** A sleep answered at once with success asked for a moment that is already past. */
  lemma AnsweredSleepIsPast(n: Node, physical: int, t: Trap)
    requires ValidClock(n.clock) && (t.call.nr == SYS_nanosleep || t.call.nr == SYS_clock_nanosleep)
    requires HandleSleep(n, physical, t).Ok? && HandleSleep(n, physical, t).value == Answered(n, 0)
    ensures Asked(t).Some? && Micros(n.clock) * 1000 >= Moment(n.clock, Asked(t).value)
  {
    var clock := if t.call.nr == SYS_nanosleep then CLOCK_MONOTONIC else Int(t.call.args[0]);
    var flags := if t.call.nr == SYS_nanosleep then 0 else Int(t.call.args[1]);
    MadeAsAsked(n.clock, clock, t.timeout.value, flags == 0, 0);
    var d := MakePendingDeadline(n.clock, clock, t.timeout.value.sec, t.timeout.value.nsec, flags == 0, 0).value;
    DueIsComparison(n.clock, d);
  }
}
