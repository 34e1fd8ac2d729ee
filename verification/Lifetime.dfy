/** From the call a guest makes to the result it gets: the handlers that may leave a call
    unfinished, the actions that finish it, and what holds over every run of them. */
module Lifetime {
  import opened Common
  import opened Deadline
  import opened Pending
  import Futex

  /** Wait of a data call that brings no timeout of its own. */
  const DEFAULT_IO_TIMEOUT: Timespec := Timespec(1, 0)

  datatype Timespec = Timespec(sec: Int64, nsec: Int64)

  /** A call the guest makes, with what the rest of the system contributes to it: the result
      of trying the operation at once, whether the descriptor is open and blocking, the
      timeout read from guest memory, whether a signal mask is acceptable, the number of
      ready descriptors and the futex word. */
  datatype Trap = Trap(call: SysCall, result: int, blocking: bool, timeout: Option<Timespec>,
                       maskAccepted: bool, scan: int, word: Option<Futex.Word>)

  datatype Handled = Suspended(node: Node) | Answered(node: Node, rval: int)

  predicate ValidTimespec(t: Timespec) {
    t.sec >= 0 && 0 <= t.nsec < BILLION
  }

  predicate Zero(t: Timespec) {
    t.sec == 0 && t.nsec == 0
  }

  // ---- The handlers ----------------------------------------------------------------

  /** Suspend the actor's call, with a deadline or without. */
  function Admit(n: Node, physical: int, call: SysCall, reason: Reason,
                 deadline: Option<PendingDeadline>): Result<Node> {
    var suspended := SuspendSyscall(n, physical, call, reason);
    if suspended.Err? || deadline.None? then suspended
    else SetPendingDeadline(suspended.value, n.threads[ActorFrom(n.threads, physical, 0).value].tid, deadline.value)
  }

  function AdmitUntil(n: Node, physical: int, call: SysCall, reason: Reason, clock: int, t: Timespec, relative: bool,
                      timeoutResult: Int64): Result<Node> {
    match MakePendingDeadline(n.clock, clock, t.sec, t.nsec, relative, timeoutResult)
    case Err => Err
    case Ok(d) => Admit(n, physical, call, reason, Some(d))
  }

  function Suspending(r: Result<Node>): Result<Handled> {
    match r
    case Err => Err
    case Ok(n) => Ok(Suspended(n))
  }

  function IoShouldSuspend(t: Trap): Result<bool> {
    var nr, a := t.call.nr, t.call.args;
    if EpollCall(nr) then
      if t.result != 0 then Ok(false)
      else if nr != SYS_epoll_pwait2 then Ok(Int(a[3]) != 0)
      else if a[3] == 0 then Ok(true)
      else if t.timeout.None? then Err
      else Ok(!Zero(t.timeout.value))
    else Ok(DataCall(nr) && t.result == -EAGAIN && t.blocking && (nr != SYS_recvfrom || a[3] / 64 % 2 == 0))
  }

  function IoTimeout(t: Trap): Result<Option<Timespec>> {
    var nr, a := t.call.nr, t.call.args;
    if !EpollCall(nr) then Ok(Some(DEFAULT_IO_TIMEOUT))
    else if nr == SYS_epoll_pwait2 then
      if a[3] == 0 then Ok(None)
      else if t.timeout.None? || !ValidTimespec(t.timeout.value) then Err
      else Ok(t.timeout)
    else if Int(a[3]) < 0 then Ok(None)
    else Ok(Some(Timespec(Int(a[3]) / 1000, Int(a[3]) % 1000 * 1_000_000)))
  }

  function HandleIo(n: Node, physical: int, t: Trap): Result<Handled> {
    match IoShouldSuspend(t)
    case Err => Err
    case Ok(false) => Ok(Answered(n, t.result))
    case Ok(true) =>
      match IoTimeout(t)
      case Err => Err
      case Ok(None) => Suspending(Admit(n, physical, t.call, ForIo, None))
      case Ok(Some(wait)) => Suspending(AdmitUntil(n, physical, t.call, ForIo, CLOCK_MONOTONIC, wait, true, 0))
  }

  /** Both sleeps: a moment already past returns at once. */
  function HandleSleep(n: Node, physical: int, t: Trap): Result<Handled> {
    var a := t.call.args;
    var clock := if t.call.nr == SYS_nanosleep then CLOCK_MONOTONIC else Int(a[0]);
    var flags := if t.call.nr == SYS_nanosleep then 0 else Int(a[1]);
    if clock != CLOCK_REALTIME && clock != CLOCK_MONOTONIC then Err
    else if flags != 0 && flags != 1 then Ok(Answered(n, -EINVAL))
    else if t.timeout.None? then Ok(Answered(n, -EFAULT))
    else if !ValidTimespec(t.timeout.value) then Ok(Answered(n, -EINVAL))
    else
      match MakePendingDeadline(n.clock, clock, t.timeout.value.sec, t.timeout.value.nsec, flags == 0, 0)
      case Err => Err
      case Ok(d) =>
        if Due(n.clock, d) then Ok(Answered(n, 0)) else Suspending(Admit(n, physical, t.call, ForTimer, Some(d)))
  }

  function HandleSelect(n: Node, physical: int, t: Trap): Result<Handled> {
    var a := t.call.args;
    var wait := if a[4] == 0 then Some(Timespec(0, 0)) else t.timeout;
    if (a[5] != 0 && !t.maskAccepted) || OverlapsScratch(a[4]) then Err
    else if wait.None? then Ok(Answered(n, -EFAULT))
    else if !ValidTimespec(wait.value) || Int(a[0]) < 0 then Ok(Answered(n, -EINVAL))
    else if Int(a[0]) != 0 && t.scan != 0 then Ok(Answered(n, t.scan))
    else if a[4] == 0 then Suspending(Admit(n, physical, t.call, ForTimer, None))
    else if Zero(wait.value) then Ok(Answered(n, 0))
    else Suspending(AdmitUntil(n, physical, t.call, ForTimer, CLOCK_MONOTONIC, wait.value, true, 0))
  }

  predicate FutexTimed(c: SysCall) {
    Futex.IsWait(Low32(c.args[1])) && c.args[3] != 0
  }

  function FutexCall(t: Trap): Futex.Call {
    var a := t.call.args;
    Futex.Call(a[0], Low32(a[1]), Int(a[2]), if FutexTimed(t.call) then 0 else a[3], a[4], Low32(a[5]), t.word)
  }

  function FutexDeadline(now: Timeval, t: Trap): Result<Option<PendingDeadline>> {
    var op := Low32(t.call.args[1]);
    if !FutexTimed(t.call) then Ok(None)
    else if t.timeout.None? then Err
    else match MakePendingDeadline(now, if Futex.RealtimeFlag(op) then CLOCK_REALTIME else CLOCK_MONOTONIC,
                                   t.timeout.value.sec, t.timeout.value.nsec,
                                   Futex.Command(op) == Futex.FUTEX_WAIT, -ETIMEDOUT)
         case Err => Err
         case Ok(d) => Ok(Some(d))
  }

  /** Register or wake in the queues, then complete the calls of the threads that left them. */
  function HandleFutexTrap(n: Node, physical: int, t: Trap): Result<Handled> {
    if FutexTimed(t.call) && t.timeout.None? then Ok(Answered(n, -EFAULT))
    else if FutexTimed(t.call) && !ValidTimespec(t.timeout.value) then Ok(Answered(n, -EINVAL))
    else match ActorFrom(n.threads, physical, 0)
    case None => Err
    case Some(k) =>
      match FutexDeadline(n.clock, t)
      case Err => Err
      case Ok(deadline) =>
        match Futex.HandleFutex(n.futex, n.threads[k].tid, FutexCall(t))
        case Err => Err
        case Ok(reply) =>
          var m := n.(futex := reply.registry);
          if Futex.IsWait(Low32(t.call.args[1])) && reply.result == 0 then
            match Admit(m, physical, t.call, ForFutex, deadline)
            case Err => Err
            case Ok(m) => Ok(Suspended(RefreshFutex(m)))
          else Ok(Answered(RefreshFutex(m), reply.result))
  }

  function Handle(n: Node, physical: int, t: Trap): Result<Handled> {
    var nr := t.call.nr;
    if SupportsPendingIo(nr) then HandleIo(n, physical, t)
    else if nr == SYS_nanosleep || nr == SYS_clock_nanosleep then HandleSleep(n, physical, t)
    else if nr == SYS_pselect6 then HandleSelect(n, physical, t)
    else if nr == SYS_futex then HandleFutexTrap(n, physical, t)
    else Ok(Answered(n, t.result))
  }

  // ---- Actions ---------------------------------------------------------------------

  /** `Run` lets a thread go on: an unfinished call is completed before the guest may make
      the call in `trap`.  `Expire` is the explicit timeout of a waiting thread.  `ready` is
      the readiness of descriptors when the action ends. */
  datatype Event = Run(actor: nat, retry: Option<Int64>, trap: Trap, ready: SysCall -> bool)
                 | Expire(actor: nat, ready: SysCall -> bool)

  datatype Return = Return(call: SysCall, rval: int)

  /** The state after an action, the call the actor made and the return it got. */
  datatype Outcome = Outcome(actor: nat, node: Node, made: Option<SysCall>, returned: Option<Return>)

  function RunActor(n: Node, k: nat, retry: Option<Int64>, t: Trap): Result<Outcome>
    requires k < |n.threads|
  {
    var physical := n.threads[k].physical;
    match CompleteSyscall(n, physical, retry)
    case Err => Err
    case Ok(WaitsAgain(m)) => Ok(Outcome(k, m, None, None))
    case Ok(Completed(m, call, rval)) => Ok(Outcome(k, m, None, Some(Return(call, rval))))
    case Ok(NothingPending) =>
      match Handle(n, physical, t)
      case Err => Err
      case Ok(Suspended(m)) => Ok(Outcome(k, m, Some(t.call), None))
      case Ok(Answered(m, rval)) => Ok(Outcome(k, m, Some(t.call), Some(Return(t.call, rval))))
  }

  /** A timeout is offered to a thread that waits with a deadline and whose I/O is not ready. */
  predicate TimeoutOffered(n: Node, k: nat, ready: SysCall -> bool) {
    && k < |n.threads| && n.threads[k].alive
    && n.threads[k].pending.Some?
    && var p := n.threads[k].pending.value;
       p.phase == Waiting && p.deadline.Some? && !(p.reason == ForIo && ready(p.call))
  }

  function ExpireActor(n: Node, k: nat, ready: SysCall -> bool): Result<Outcome> {
    if !TimeoutOffered(n, k, ready) then Err
    else match PendingTimeoutClock(n.clock, n.threads[k].pending.value.deadline.value)
    case Err => Err
    case Ok(clock) =>
      match ExpireSyscall(n.(clock := clock), n.threads[k].tid)
      case Err => Err
      case Ok(m) =>
        match CompleteSyscall(m, n.threads[k].physical, None)
        case Err => Err
        case Ok(NothingPending) => Err
        case Ok(WaitsAgain(_)) => Err
        case Ok(Completed(m, call, rval)) => Ok(Outcome(k, m, None, Some(Return(call, rval))))
  }

  function Perform(n: Node, e: Event): Result<Outcome> {
    if e.actor >= |n.threads| || !n.threads[e.actor].alive then Err
    else match e
    case Run(k, retry, t, _) => RunActor(n, k, retry, t)
    case Expire(k, ready) => ExpireActor(n, k, ready)
  }

  function Step(n: Node, e: Event): Result<Outcome> {
    match Perform(n, e)
    case Err => Err
    case Ok(o) => Ok(o.(node := RefreshPending(o.node, e.ready)))
  }
}
