/** What every action, and every run of actions, keeps of the unfinished calls. */
module LifetimeSound {
  import opened Common
  import opened Deadline
  import opened Pending
  import opened Lifetime
  import Futex

  // ---- Admission -------------------------------------------------------------------

  function Fresh(call: SysCall, reason: Reason, deadline: Option<PendingDeadline>): PendingSyscall {
    PendingSyscall(Waiting, reason, call, 0, deadline)
  }

  predicate DeadlineAllowed(call: SysCall, reason: Reason, deadline: Option<PendingDeadline>) {
    deadline.Some? ==> TimedPendingOk(Fresh(call, reason, deadline), deadline.value)
  }

  /** Suspending and then setting the deadline is one change of the actor's slot; it fails
      exactly on a deadline the call may not have. */
  lemma AdmitForm(n: Node, k: nat, call: SysCall, reason: Reason, deadline: Option<PendingDeadline>)
    requires Shape(n.threads) && k < |n.threads| && n.threads[k].alive && n.threads[k].pending.None?
    ensures var r := Admit(n, n.threads[k].physical, call, reason, deadline);
            && (r.Ok? <==> DeadlineAllowed(call, reason, deadline))
            && (r.Ok? ==> r.value == Sync(SetPending(n, k, Some(Fresh(call, reason, deadline)))))
  {
    FindsThread(n.threads, k);
    var m := Sync(SetPending(n, k, Some(Fresh(call, reason, None))));
    assert SuspendSyscall(n, n.threads[k].physical, call, reason) == Ok(m);
    FindsThread(m.threads, k);
    var p := Some(Fresh(call, reason, deadline));
    assert SetPending(m, k, p).threads == SetPending(n, k, p).threads;
    assert BlockedTable(SetPending(n, k, p).threads) == m.blocked;
  }

  /** Every deadline that is made for a call is one the call may have. */
  lemma MadeDeadline(n: Node, clock: int, t: Timespec, relative: bool, timeoutResult: Int64)
    requires ValidClock(n.clock) && ValidTimespec(t) && (clock == CLOCK_REALTIME || clock == CLOCK_MONOTONIC)
    ensures var r := MakePendingDeadline(n.clock, clock, t.sec, t.nsec, relative, timeoutResult);
            && r.Ok? && ValidDeadline(r.value) && InKtimeRange(r.value)
            && r.value.clockId == clock && r.value.timeoutResult == timeoutResult
  {
    DeadlineIsCanonical(n.clock, clock, t.sec, t.nsec, relative, timeoutResult);
  }

  /** A thread that had no unfinished call either still has none or waits in the call it made. */
  predicate Handles(n: Node, k: nat, t: Trap, h: Handled)
    requires k < |n.threads|
  {
    && |h.node.threads| == |n.threads| && h.node.clock == n.clock
    && match h
       case Suspended(m) => m.threads[k].pending.Some? && m.threads[k].pending.value.call == t.call
       case Answered(m, _) => m.threads[k].pending.None?
  }

  predicate HandlesWell(n: Node, k: nat, t: Trap, h: Handled) {
    k < |n.threads| && Base(h.node) && Handles(n, k, t, h) && Changes(n, h.node, k)
  }

  /** The actor of a handler: a live thread with no unfinished call. */
  predicate Idle(n: Node, k: nat) {
    Base(n) && k < |n.threads| && n.threads[k].alive && n.threads[k].pending.None?
  }

  lemma AdmitSound(n: Node, k: nat, t: Trap, reason: Reason, deadline: Option<PendingDeadline>)
    requires Idle(n, k) && reason != ForFutex
    requires DeadlineAllowed(t.call, reason, deadline) ==> PendingOk(Fresh(t.call, reason, deadline))
    ensures var r := Suspending(Admit(n, n.threads[k].physical, t.call, reason, deadline));
            && (r.Ok? <==> DeadlineAllowed(t.call, reason, deadline))
            && (r.Ok? ==> HandlesWell(n, k, t, r.value) && (Inv(n) ==> Inv(r.value.node)))
  {
    AdmitForm(n, k, t.call, reason, deadline);
    if DeadlineAllowed(t.call, reason, deadline) {
      UpdateCallKeeps(n, k, Some(Fresh(t.call, reason, deadline)));
    }
  }

  // ---- One thread's view of a step --------------------------------------------------

  /** The call stays what it was; only its phase and, once, its result change.  While other
      threads act only a futex wait gets its result, and that is success. */
  predicate SameCall(p: PendingSyscall, q: PendingSyscall) {
    && p.call == q.call && p.reason == q.reason && p.deadline == q.deadline
    && (p.phase == Ready ==> q == p)
    && (p.phase != Ready && q.phase == Ready ==> p.reason == ForFutex && q.result == 0)
  }

  predicate SameThread(b: Thread, a: Thread) {
    b.tid == a.tid && b.physical == a.physical && b.alive == a.alive
  }

  /** What may happen to a thread that does not act. */
  predicate Keeps(b: Thread, a: Thread) {
    && SameThread(b, a)
    && (b.pending.Some? <==> a.pending.Some?)
    && (b.pending.Some? ==> SameCall(b.pending.value, a.pending.value))
  }

  /** Every thread but the actor keeps its call. */
  predicate Changes(n: Node, m: Node, k: nat) {
    && |m.threads| == |n.threads|
    && forall i :: 0 <= i < |n.threads| ==>
       if i == k then SameThread(n.threads[i], m.threads[i]) else Keeps(n.threads[i], m.threads[i])
  }

  lemma RefreshFutexChanges(n: Node, k: nat)
    ensures var m := RefreshFutex(n);
            && Changes(n, m, k)
            && (k < |n.threads| ==> Keeps(n.threads[k], m.threads[k]))
            && (k < |n.threads| && Futex.IsWaiting(n.futex, n.threads[k].tid) ==> m.threads[k] == n.threads[k])
  {
    var m := RefreshFutex(n);
    assert forall i :: 0 <= i < |n.threads| ==> m.threads[i] == Woken(n.futex, n.threads[i]);
  }

  /** A futex timeout was read and is a time. */
  predicate TimeoutRead(t: Trap) {
    FutexTimed(t.call) ==> t.timeout.Some? && ValidTimespec(t.timeout.value)
  }

  // ---- The handlers ------------------------------------------------------------------

  /** What the handlers rely on: no timeout can be read at address zero, and the timeouts of
      an epoll call were checked when it was made. */
  predicate Readable(t: Trap) {
    var nr, a := t.call.nr, t.call.args;
    && (nr == SYS_epoll_pwait2 && a[3] != 0 ==> t.timeout.Some? && ValidTimespec(t.timeout.value))
    && (nr == SYS_nanosleep && a[0] == 0 ==> t.timeout.None?)
    && (nr == SYS_clock_nanosleep && a[2] == 0 ==> t.timeout.None?)
  }

  lemma HandleIoSound(n: Node, k: nat, t: Trap)
    requires Idle(n, k) && SupportsPendingIo(t.call.nr)
    ensures var r := HandleIo(n, n.threads[k].physical, t);
            && (r.Ok? ==> HandlesWell(n, k, t, r.value) && (Inv(n) ==> Inv(r.value.node)))
            && (Readable(t) ==> r.Ok?)
  {
    if IoShouldSuspend(t) == Ok(true) && IoTimeout(t).Ok? {
      match IoTimeout(t).value {
        case None => AdmitSound(n, k, t, ForIo, None);
        case Some(wait) =>
          MadeDeadline(n, CLOCK_MONOTONIC, wait, true, 0);
          var d := MakePendingDeadline(n.clock, CLOCK_MONOTONIC, wait.sec, wait.nsec, true, 0).value;
          AdmitSound(n, k, t, ForIo, Some(d));
      }
    }
  }

  lemma HandleSleepSound(n: Node, k: nat, t: Trap)
    requires Idle(n, k) && (t.call.nr == SYS_nanosleep || t.call.nr == SYS_clock_nanosleep)
    ensures var r := HandleSleep(n, n.threads[k].physical, t);
            && (r.Ok? ==> HandlesWell(n, k, t, r.value) && (Inv(n) ==> Inv(r.value.node)))
            && (Readable(t) && (t.call.nr == SYS_nanosleep || 0 <= Int(t.call.args[0]) <= 1) ==> r.Ok?)
  {
    var clock := if t.call.nr == SYS_nanosleep then CLOCK_MONOTONIC else Int(t.call.args[0]);
    var flags := if t.call.nr == SYS_nanosleep then 0 else Int(t.call.args[1]);
    if 0 <= clock <= 1 && t.timeout.Some? && ValidTimespec(t.timeout.value) {
      MadeDeadline(n, clock, t.timeout.value, flags == 0, 0);
      var d := MakePendingDeadline(n.clock, clock, t.timeout.value.sec, t.timeout.value.nsec, flags == 0, 0).value;
      AdmitSound(n, k, t, ForTimer, Some(d));
    }
  }

  lemma HandleSelectSound(n: Node, k: nat, t: Trap)
    requires Idle(n, k) && t.call.nr == SYS_pselect6
    ensures var r := HandleSelect(n, n.threads[k].physical, t);
            && (r.Ok? ==> HandlesWell(n, k, t, r.value) && (Inv(n) ==> Inv(r.value.node)))
            && (r.Ok? <==> (t.call.args[5] == 0 || t.maskAccepted) && !OverlapsScratch(t.call.args[4]))
  {
    var a := t.call.args;
    if !OverlapsScratch(a[4]) && Int(a[0]) >= 0 {
      if a[4] == 0 {
        AdmitSound(n, k, t, ForTimer, None);
      } else if t.timeout.Some? && ValidTimespec(t.timeout.value) {
        var wait := t.timeout.value;
        MadeDeadline(n, CLOCK_MONOTONIC, wait, true, 0);
        var d := MakePendingDeadline(n.clock, CLOCK_MONOTONIC, wait.sec, wait.nsec, true, 0).value;
        AdmitSound(n, k, t, ForTimer, Some(d));
      }
    }
  }

  /** A waiting futex call may have the deadline its handler makes. */
  lemma FutexDeadlineAllowed(n: Node, t: Trap, tid: int)
    requires ValidClock(n.clock) && TimeoutRead(t)
    requires Futex.IsWait(Low32(t.call.args[1])) && t.call.nr == SYS_futex
    requires Futex.HandleFutex(n.futex, tid, FutexCall(t)).Ok? &&
             Futex.HandleFutex(n.futex, tid, FutexCall(t)).value.result == 0
    ensures FutexDeadline(n.clock, t).Ok?
    ensures var d := FutexDeadline(n.clock, t).value;
            DeadlineAllowed(t.call, ForFutex, d) && PendingOk(Fresh(t.call, ForFutex, d))
  {
    var op := Low32(t.call.args[1]);
    if FutexTimed(t.call) {
      MadeDeadline(n, if Futex.RealtimeFlag(op) then CLOCK_REALTIME else CLOCK_MONOTONIC, t.timeout.value,
                   Futex.Command(op) == Futex.FUTEX_WAIT, -ETIMEDOUT);
    }
  }

  /** A registered wait: the actor's call waits as long as it is in the queues.  A wait at
      address zero, which counts as not waiting, is complete at once. */
  lemma FutexWaitSound(n: Node, k: nat, t: Trap, reply: Futex.Reply) returns (m: Node)
    requires Idle(n, k) && t.call.nr == SYS_futex
    requires TimeoutRead(t)
    requires Futex.HandleFutex(n.futex, k + 1, FutexCall(t)) == Ok(reply)
    requires Futex.IsWait(Low32(t.call.args[1])) && reply.result == 0
    ensures FutexDeadline(n.clock, t).Ok?
    ensures var p := Fresh(t.call, ForFutex, FutexDeadline(n.clock, t).value);
            && PendingOk(p) && m == Sync(SetPending(n.(futex := reply.registry), k, Some(p)))
            && Admit(n.(futex := reply.registry), n.threads[k].physical, t.call, ForFutex, p.deadline) == Ok(m)
            && RefreshFutex(m).threads[k].pending == Some(if t.call.args[0] == 0 then p.(phase := Ready) else p)
    ensures HandlesWell(n, k, t, Suspended(RefreshFutex(m)))
  {
    FutexDeadlineAllowed(n, t, k + 1);
    Futex.HandledRegistry(n.futex, k + 1, FutexCall(t));
    var p := Fresh(t.call, ForFutex, FutexDeadline(n.clock, t).value);
    m := Sync(SetPending(n.(futex := reply.registry), k, Some(p)));
    AdmitForm(n.(futex := reply.registry), k, t.call, ForFutex, p.deadline);
    UpdateBase(n, k, Some(p), reply.registry);
    RefreshFutexBase(m);
    RefreshFutexChanges(m, k);
  }

  lemma HandleFutexSound(n: Node, k: nat, t: Trap)
    requires Idle(n, k) && t.call.nr == SYS_futex
    ensures var r := HandleFutexTrap(n, n.threads[k].physical, t);
            r.Ok? ==> HandlesWell(n, k, t, r.value)
  {
    FindsThread(n.threads, k);
    var h := Futex.HandleFutex(n.futex, k + 1, FutexCall(t));
    if h.Ok? && TimeoutRead(t) {
      if Futex.IsWait(Low32(t.call.args[1])) && h.value.result == 0 {
        var m := FutexWaitSound(n, k, t, h.value);
      } else {
        RefreshFutexBase(n.(futex := h.value.registry));
        RefreshFutexChanges(n.(futex := h.value.registry), k);
      }
    }
  }

  lemma HandleSound(n: Node, k: nat, t: Trap)
    requires Idle(n, k)
    ensures var r := Handle(n, n.threads[k].physical, t);
            r.Ok? ==> HandlesWell(n, k, t, r.value)
  {
    var nr := t.call.nr;
    if SupportsPendingIo(nr) {
      HandleIoSound(n, k, t);
    } else if nr == SYS_nanosleep || nr == SYS_clock_nanosleep {
      HandleSleepSound(n, k, t);
    } else if nr == SYS_pselect6 {
      HandleSelectSound(n, k, t);
    } else if nr == SYS_futex {
      HandleFutexSound(n, k, t);
    }
  }

  // ---- One action --------------------------------------------------------------------

  function Outstanding(t: Thread): seq<SysCall> {
    if t.pending.Some? then [t.pending.value.call] else []
  }

  function Made(o: Outcome, i: nat): seq<SysCall> {
    if o.actor == i && o.made.Some? then [o.made.value] else []
  }

  function Returned(o: Outcome, i: nat): seq<SysCall> {
    if o.actor == i && o.returned.Some? then [o.returned.value.call] else []
  }

  /** A thread's call is outstanding, returned, or kept as it is; none is lost or repeated. */
  predicate Follows(b: Thread, a: Thread, o: Outcome, i: nat) {
    && SameThread(b, a)
    && Outstanding(b) + Made(o, i) == Returned(o, i) + Outstanding(a)
    && (b.pending.Some? && a.pending.Some? ==> SameCall(b.pending.value, a.pending.value))
  }

  predicate AllFollow(n: Node, o: Outcome) {
    && |o.node.threads| == |n.threads|
    && forall i :: 0 <= i < |n.threads| ==> Follows(n.threads[i], o.node.threads[i], o, i)
  }

  predicate GoodOutcome(n: Node, o: Outcome) {
    Base(o.node) && AllFollow(n, o) && Micros(o.node.clock) >= Micros(n.clock)
  }

  /** The value that completes an unfinished call: its stored result, the outcome of the
      retry, or at a timeout the deadline's result, once the clock has reached it. */
  predicate CompletedBy(p: PendingSyscall, e: Event, rval: int, clock: Timeval) {
    match p.phase
    case Ready => e.Run? && rval == p.result
    case Retry => e.Run? && e.retry.Some? && rval == e.retry.value
    case Waiting =>
      e.Expire? && p.deadline.Some? && rval == p.deadline.value.timeoutResult && Due(clock, p.deadline.value)
  }

  lemma AllFollowFrom(n: Node, o: Outcome)
    requires o.actor < |n.threads| && Changes(n, o.node, o.actor)
    requires Follows(n.threads[o.actor], o.node.threads[o.actor], o, o.actor)
    ensures AllFollow(n, o)
  {
    forall i | 0 <= i < |n.threads| ensures Follows(n.threads[i], o.node.threads[i], o, i) {
      assert if i == o.actor then SameThread(n.threads[i], o.node.threads[i])
             else Keeps(n.threads[i], o.node.threads[i]);
    }
  }

  lemma CompleteSound(n: Node, k: nat, retry: Option<Int64>)
    requires Base(n) && k < |n.threads| && n.threads[k].alive
    ensures var r, before := CompleteSyscall(n, n.threads[k].physical, retry), n.threads[k].pending;
            && (r.Ok? <==> before.None? || before.value.phase != Waiting)
            && (r.Ok? ==>
                  && (r.value.NothingPending? <==> before.None?)
                  && (before.Some? ==>
                        var p, c := before.value, r.value;
                        && Base(c.node) && (Inv(n) ==> Inv(c.node)) && Changes(n, c.node, k)
                        && c.node.clock == n.clock && c.node.futex == n.futex
                        && (c.Completed? <==> p.phase == Ready || retry.Some?)
                        && (c.WaitsAgain? ==> c.node.threads[k].pending == Some(p.(phase := Waiting, result := 0)))
                        && (c.Completed? ==>
                              && c.node.threads[k].pending.None? && c.call == p.call
                              && c.rval == if p.phase == Ready then p.result else retry.value)))
  {
    FindsThread(n.threads, k);
    if CompleteSyscall(n, n.threads[k].physical, retry).Ok? {
      CompleteKeeps(n, n.threads[k].physical, retry);
    }
  }

  lemma RunSound(n: Node, k: nat, retry: Option<Int64>, t: Trap)
    requires Base(n) && k < |n.threads| && n.threads[k].alive && RunActor(n, k, retry, t).Ok?
    ensures var o := RunActor(n, k, retry, t).value;
            && o.actor == k && GoodOutcome(n, o)
            && (o.made.Some? ==> n.threads[k].pending.None? && o.made.value == t.call)
  {
    var o := RunActor(n, k, retry, t).value;
    CompleteSound(n, k, retry);
    if n.threads[k].pending.None? {
      HandleSound(n, k, t);
    }
    AllFollowFrom(n, o);
  }

  /** Once the clock has reached the deadline, the call becomes ready with its result. */
  lemma ExpireReady(n: Node, k: nat)
    requires Base(n) && k < |n.threads| && n.threads[k].alive && n.threads[k].pending.Some?
    requires var p := n.threads[k].pending.value; p.phase != Ready && p.deadline.Some? && Due(n.clock, p.deadline.value)
    ensures var p := n.threads[k].pending.value;
            var r := ExpireSyscall(n, k + 1);
            && r.Ok? && Base(r.value) && (Inv(n) ==> Inv(r.value)) && r.value.clock == n.clock
            && r.value.threads == n.threads[k :=
                 n.threads[k].(pending := Some(p.(phase := Ready, result := p.deadline.value.timeoutResult)))]
  {
    FindsThread(n.threads, k);
    ReadyKeeps(n, k + 1, n.threads[k].pending.value.deadline.value.timeoutResult);
  }

  /** An offered timeout never fails: it moves the clock to the first instant at which the
      deadline is due and returns the deadline's result to the waiting thread. */
  lemma OfferedTimeoutCompletes(n: Node, k: nat, ready: SysCall -> bool)
    requires Base(n) && TimeoutOffered(n, k, ready)
    ensures var r := ExpireActor(n, k, ready);
            var p := n.threads[k].pending.value;
            && r.Ok? && r.value.actor == k && r.value.made.None?
            && r.value.returned == Some(Return(p.call, p.deadline.value.timeoutResult))
            && PendingTimeoutClock(n.clock, p.deadline.value) == Ok(r.value.node.clock)
            && Due(r.value.node.clock, p.deadline.value)
            && GoodOutcome(n, r.value)
  {
    var p := n.threads[k].pending.value;
    TimeoutClockIsLeast(n.clock, p.deadline.value, n.clock);
    var m := n.(clock := PendingTimeoutClock(n.clock, p.deadline.value).value);
    ExpireReady(m, k);
    var x := ExpireSyscall(m, k + 1).value;
    FindsThread(x.threads, k);
    CompleteSound(x, k, None);
    var o := ExpireActor(n, k, ready).value;
    assert Changes(n, o.node, k);
    AllFollowFrom(n, o);
  }

  lemma PerformSound(n: Node, e: Event)
    requires Base(n) && Perform(n, e).Ok?
    ensures Perform(n, e).value.actor == e.actor && GoodOutcome(n, Perform(n, e).value)
  {
    match e {
      case Run(k, retry, t, _) => RunSound(n, k, retry, t);
      case Expire(k, ready) => OfferedTimeoutCompletes(n, k, ready);
    }
  }

  lemma RefreshLeaves(n: Node, ready: SysCall -> bool, i: nat)
    requires i < |n.threads|
    ensures |RefreshPending(n, ready).threads| == |n.threads|
    ensures Keeps(n.threads[i], RefreshPending(n, ready).threads[i])
  {
  }

  /** Every action keeps the calls well formed, neither loses nor repeats a call of any thread, leaves
      the calls of the other threads as they are and never moves the clock back. */
  lemma StepSound(n: Node, e: Event)
    requires Base(n) && Step(n, e).Ok?
    ensures Step(n, e).value.actor == e.actor && GoodOutcome(n, Step(n, e).value)
  {
    PerformSound(n, e);
    var o := Perform(n, e).value;
    RefreshKeeps(o.node, e.ready);
    var o' := Step(n, e).value;
    assert o'.node.clock == o.node.clock;
    forall i | 0 <= i < |n.threads|
      ensures |o'.node.threads| == |n.threads| && Follows(n.threads[i], o'.node.threads[i], o', i) {
      RefreshLeaves(o.node, e.ready, i);
      assert Follows(n.threads[i], o.node.threads[i], o, i);
    }
    assert |o'.node.threads| == |n.threads| by {
      assert o'.node.threads == RefreshPending(o.node, e.ready).threads;
    }
  }

  /** After every action the table shows the threads whose calls wait, an unfinished I/O call
      may be retried exactly when its descriptor is ready and blocks its thread exactly when
      it is not, and a futex call waits only while its thread is in the queues. */
  lemma StepFollowsReadiness(n: Node, e: Event)
    requires Base(n) && Step(n, e).Ok?
    ensures TableShows(Step(n, e).value.node) && AllFollowReadiness(Step(n, e).value.node, e.ready)
  {
    PerformSound(n, e);
    RefreshFollows(Perform(n, e).value.node, e.ready);
  }

  /** An action is possible exactly for a live thread: to run when its unfinished call does
      not wait or, without one, when the call it makes is handled; to expire when it waits
      with a deadline, for anything but I/O that is ready. */
  lemma StepEnabled(n: Node, e: Event)
    requires Base(n)
    ensures Step(n, e).Ok? <==>
              && e.actor < |n.threads| && n.threads[e.actor].alive
              && var before := n.threads[e.actor].pending;
                 match e
                 case Run(k, _, t, _) =>
                   if before.Some? then before.value.phase != Waiting else Handle(n, n.threads[k].physical, t).Ok?
                 case Expire(_, ready) =>
                   && before.Some? && before.value.phase == Waiting && before.value.deadline.Some?
                   && (before.value.reason == ForIo ==> !ready(before.value.call))
  {
    if e.actor < |n.threads| && n.threads[e.actor].alive {
      match e {
        case Run(k, retry, _, _) => CompleteSound(n, k, retry);
        case Expire(k, ready) =>
          if TimeoutOffered(n, k, ready) {
            OfferedTimeoutCompletes(n, k, ready);
          }
      }
    }
  }

  /** A call that was unfinished returns with the value its phase dictates; a timeout result
      is returned only by a timeout, and not before the deadline. */
  lemma ReturnIsRight(n: Node, e: Event)
    requires Base(n) && Step(n, e).Ok? && Step(n, e).value.returned.Some?
    requires n.threads[e.actor].pending.Some?
    ensures var o := Step(n, e).value;
            var p := n.threads[e.actor].pending.value;
            o.returned.value.call == p.call && CompletedBy(p, e, o.returned.value.rval, o.node.clock)
  {
    var k := e.actor;
    match e {
      case Run(_, retry, t, _) => CompleteSound(n, k, retry);
      case Expire(_, ready) => OfferedTimeoutCompletes(n, k, ready);
    }
    var o := Perform(n, e).value;
    assert RefreshPending(o.node, e.ready).clock == o.node.clock;
  }

  // ---- Runs --------------------------------------------------------------------------

  predicate IsRun(n: Node, es: seq<Event>, os: seq<Outcome>)
    decreases |es|
  {
    |es| == |os| &&
    (es != [] ==> Step(n, es[0]) == Ok(os[0]) && IsRun(os[0].node, es[1..], os[1..]))
  }

  /** The state a run ends in. */
  function End(n: Node, os: seq<Outcome>): Node
    decreases |os|
  {
    if os == [] then n else End(os[0].node, os[1..])
  }

  function CallsMade(os: seq<Outcome>, i: nat): seq<SysCall> {
    if os == [] then [] else Made(os[0], i) + CallsMade(os[1..], i)
  }

  function CallsReturned(os: seq<Outcome>, i: nat): seq<SysCall> {
    if os == [] then [] else Returned(os[0], i) + CallsReturned(os[1..], i)
  }

  lemma RunFirst(n: Node, es: seq<Event>, os: seq<Outcome>)
    requires Base(n) && IsRun(n, es, os) && es != []
    ensures GoodOutcome(n, os[0]) && IsRun(os[0].node, es[1..], os[1..])
  {
    StepSound(n, es[0]);
  }

  lemma {:induction false} RunKeepsBase(n: Node, es: seq<Event>, os: seq<Outcome>)
    requires Base(n) && IsRun(n, es, os)
    ensures Base(End(n, os)) && |End(n, os).threads| == |n.threads| && Micros(End(n, os).clock) >= Micros(n.clock)
    decreases |es|
  {
    if es != [] {
      RunFirst(n, es, os);
      RunKeepsBase(os[0].node, es[1..], os[1..]);
    }
  }

  /** Over every run, the calls returned to a thread are the calls it made, in order, each
      with its own number and arguments and each exactly once; at most the last one is
      still outstanding. */
  lemma {:induction false} EachCallReturnsOnce(n: Node, es: seq<Event>, os: seq<Outcome>, i: nat)
    requires Base(n) && IsRun(n, es, os) && i < |n.threads|
    ensures |End(n, os).threads| == |n.threads|
    ensures Outstanding(n.threads[i]) + CallsMade(os, i) == CallsReturned(os, i) + Outstanding(End(n, os).threads[i])
    decreases |es|
  {
    if es != [] {
      RunFirst(n, es, os);
      var o, rest := os[0], os[1..];
      EachCallReturnsOnce(o.node, es[1..], rest, i);
      assert Follows(n.threads[i], o.node.threads[i], o, i);
      Reassociate(Outstanding(n.threads[i]), Made(o, i), CallsMade(rest, i), Returned(o, i),
                  Outstanding(o.node.threads[i]), CallsReturned(rest, i), Outstanding(End(n, os).threads[i]));
    }
  }

  lemma Reassociate<T>(a: seq<T>, b: seq<T>, c: seq<T>, d: seq<T>, e: seq<T>, f: seq<T>, g: seq<T>)
    requires a + b == d + e && e + c == f + g
    ensures a + (b + c) == (d + f) + g
  {
    calc {
      a + (b + c);
      (a + b) + c;
      (d + e) + c;
      d + (e + c);
      d + (f + g);
      (d + f) + g;
    }
  }

  /** As long as a call has not returned it keeps its number, arguments, reason and deadline,
      and once it has a result it keeps that. */
  lemma {:induction false} UnfinishedCallIsKept(n: Node, es: seq<Event>, os: seq<Outcome>, i: nat)
    requires Base(n) && IsRun(n, es, os) && i < |n.threads|
    requires n.threads[i].pending.Some? && CallsReturned(os, i) == []
    ensures |End(n, os).threads| == |n.threads|
    ensures var m := End(n, os);
            m.threads[i].pending.Some? && SameCall(n.threads[i].pending.value, m.threads[i].pending.value)
    decreases |es|
  {
    if es != [] {
      RunFirst(n, es, os);
      var o := os[0];
      assert Follows(n.threads[i], o.node.threads[i], o, i);
      assert |Outstanding(n.threads[i]) + Made(o, i)| == |Returned(o, i) + Outstanding(o.node.threads[i])|;
      UnfinishedCallIsKept(o.node, es[1..], os[1..], i);
    }
  }
}
