/** Unfinished system calls: a call waits, may be retried, or is ready with its result; the
    futex queues and the table of blocked threads follow it. */
module Pending {
  import opened Common
  import opened Deadline
  import Futex

  type U64 = n: int | 0 <= n < 0x1_0000_0000_0000_0000
  type Args = a: seq<U64> | |a| == 6 witness [0, 0, 0, 0, 0, 0]

  const SYS_read: int := 0
  const SYS_write: int := 1
  const SYS_nanosleep: int := 35
  const SYS_accept: int := 43
  const SYS_recvfrom: int := 45
  const SYS_poll: int := 7
  const SYS_futex: int := 202
  const SYS_clock_nanosleep: int := 230
  const SYS_epoll_wait: int := 232
  const SYS_pselect6: int := 270
  const SYS_epoll_pwait: int := 281
  const SYS_accept4: int := 288
  const SYS_epoll_pwait2: int := 441

  const MAX_THREADS: nat := 64
  const SCRATCH_PAGE: int := 0x6000_0000_0000
  const TIMESPEC_SIZE: int := 16

  datatype Phase = Waiting | Retry | Ready
  datatype Reason = ForFutex | ForIo | ForTimer

  datatype SysCall = SysCall(nr: int, args: Args)

  datatype PendingSyscall = PendingSyscall(phase: Phase, reason: Reason, call: SysCall, result: Int64,
                                           deadline: Option<PendingDeadline>)

  datatype Thread = Thread(tid: int, physical: int, alive: bool, pending: Option<PendingSyscall>)

  /** One traced process: its threads in slot order, its futex queues, the mirrored table of
      blocked threads and its model clock. */
  datatype Node = Node(threads: seq<Thread>, futex: Futex.Registry, blocked: seq<bool>, clock: Timeval)

  // ---- What a saved state must satisfy --------------------------------------------

  predicate EpollCall(nr: int) {
    nr == SYS_epoll_wait || nr == SYS_epoll_pwait || nr == SYS_epoll_pwait2
  }

  predicate DataCall(nr: int) {
    nr == SYS_read || nr == SYS_write || nr == SYS_recvfrom || nr == SYS_accept || nr == SYS_accept4
  }

  predicate SupportsPendingIo(nr: int) {
    EpollCall(nr) || DataCall(nr)
  }

  function Low32(n: int): Futex.Word {
    n % 0x1_0000_0000
  }

  function Int(n: U64): int {
    Futex.Signed32(n)
  }

  /** The combinations of call and deadline that can be timed. */
  predicate TimedPendingOk(p: PendingSyscall, d: PendingDeadline) {
    var a := p.call.args;
    && ValidDeadline(d) && InKtimeRange(d)
    && match p.reason
       case ForFutex =>
         var op := Low32(a[1]);
         && Futex.IsWait(op)
         && (!Futex.RealtimeFlag(op) || Futex.Command(op) == Futex.FUTEX_WAIT_BITSET)
         && (Futex.Command(op) != Futex.FUTEX_WAIT_BITSET || Low32(a[5]) != 0)
         && a[3] != 0 && d.timeoutResult == -ETIMEDOUT
         && d.clockId == if Futex.RealtimeFlag(op) then CLOCK_REALTIME else CLOCK_MONOTONIC
       case ForTimer =>
         && d.timeoutResult == 0
         && (if p.call.nr == SYS_nanosleep then a[0] != 0 && d.clockId == CLOCK_MONOTONIC
             else if p.call.nr == SYS_clock_nanosleep
               then a[2] != 0 && (Int(a[1]) == 0 || Int(a[1]) == 1) && d.clockId == Int(a[0])
             else p.call.nr == SYS_pselect6 && a[4] != 0 && d.clockId == CLOCK_MONOTONIC)
       case ForIo =>
         && d.timeoutResult == 0 && d.clockId == CLOCK_MONOTONIC
         && (|| (p.call.nr == SYS_epoll_pwait2 && a[3] != 0)
             || ((p.call.nr == SYS_epoll_wait || p.call.nr == SYS_epoll_pwait) && Int(a[3]) > 0)
             || (p.call.nr == SYS_poll && Int(a[2]) > 0)
             || DataCall(p.call.nr))
  }

  predicate OverlapsScratch(address: U64) {
    SCRATCH_PAGE - TIMESPEC_SIZE < address < SCRATCH_PAGE + 4096
  }

  predicate PselectOk(p: PendingSyscall) {
    var a := p.call.args;
    && p.reason == ForTimer && Int(a[0]) >= 0
    && (p.deadline.Some? <==> a[4] != 0)
    && !OverlapsScratch(a[4])
    && (p.deadline.Some? ==> p.deadline.value.clockId == CLOCK_MONOTONIC && p.deadline.value.timeoutResult == 0)
  }

  predicate PendingOk(p: PendingSyscall) {
    && p.call.nr >= 0
    && (p.phase != Ready ==> p.result == 0)
    && (p.reason == ForFutex ==> p.call.nr == SYS_futex && p.phase != Retry)
    && (p.reason == ForTimer ==>
          && (p.call.nr == SYS_nanosleep || p.call.nr == SYS_clock_nanosleep || p.call.nr == SYS_pselect6)
          && p.phase != Retry
          && (p.deadline.Some? || p.call.nr == SYS_pselect6))
    && (p.call.nr == SYS_pselect6 ==> PselectOk(p))
    && (p.reason == ForIo ==> SupportsPendingIo(p.call.nr))
    && (p.deadline.Some? ==> TimedPendingOk(p, p.deadline.value))
  }

  predicate FutexWaiting(p: Option<PendingSyscall>) {
    p.Some? && p.value.reason == ForFutex && p.value.phase == Waiting
  }

  predicate ThreadOk(f: Futex.Registry, t: Thread) {
    && (t.pending.Some? ==> t.alive && PendingOk(t.pending.value))
    && (Futex.IsWaiting(f, t.tid) <==> FutexWaiting(t.pending))
  }

  predicate LiveTid(threads: seq<Thread>, tid: int) {
    exists i :: 0 <= i < |threads| && threads[i].alive && threads[i].tid == tid
  }

  predicate QueuedAreLive(threads: seq<Thread>, f: Futex.Registry) {
    forall a, i :: a in f.queues && 0 <= i < |f.queues[a]| ==> LiveTid(threads, f.queues[a][i].tid)
  }

  /** The executable check of a saved state: every thread agrees with the queues, and every
      queued waiter is a live thread. */
  predicate Validated(threads: seq<Thread>, f: Futex.Registry) {
    && (forall i :: 0 <= i < |threads| ==> ThreadOk(f, threads[i]))
    && QueuedAreLive(threads, f)
  }

  /** Logical thread ids are slot numbers, and live threads have carriers of their own. */
  predicate Shape(threads: seq<Thread>) {
    && |threads| <= MAX_THREADS
    && (forall i :: 0 <= i < |threads| ==> threads[i].tid == i + 1)
    && (forall i, j :: 0 <= i < j < |threads| && threads[i].alive && threads[j].alive ==>
         threads[i].physical != threads[j].physical)
  }

  predicate IsBlocked(t: Thread) {
    t.alive && t.pending.Some? && t.pending.value.phase == Waiting
  }

  function BlockedTable(threads: seq<Thread>): seq<bool> {
    seq(MAX_THREADS, i => 0 <= i < |threads| && IsBlocked(threads[i]))
  }

  predicate PendingsOk(threads: seq<Thread>) {
    forall i :: 0 <= i < |threads| && threads[i].pending.Some? ==>
      threads[i].alive && PendingOk(threads[i].pending.value)
  }

  predicate WaitsOnFutex(threads: seq<Thread>, tid: int) {
    1 <= tid <= |threads| && FutexWaiting(threads[tid - 1].pending)
  }

  /** A thread is in a futex queue exactly while its own futex call waits. */
  ghost predicate QueuesAgree(threads: seq<Thread>, f: Futex.Registry) {
    forall t: int :: Futex.IsWaiting(f, t) <==> WaitsOnFutex(threads, t)
  }

  /** What holds of the calls whatever the futex queues hold: each is well formed, and the
      table shows exactly the threads whose calls wait. */
  predicate Base(n: Node) {
    Shape(n.threads) && ValidClock(n.clock) && PendingsOk(n.threads) && n.blocked == BlockedTable(n.threads)
  }

  ghost predicate Inv(n: Node) {
    Base(n) && Futex.Consistent(n.futex) && QueuesAgree(n.threads, n.futex)
  }

  /** The part of the agreement that concerns the threads there are. */
  predicate AgreeOnThreads(threads: seq<Thread>, f: Futex.Registry) {
    forall i :: 0 <= i < |threads| ==> (Futex.IsWaiting(f, i + 1) <==> FutexWaiting(threads[i].pending))
  }

  lemma ThreadsOk(threads: seq<Thread>, f: Futex.Registry)
    requires Shape(threads)
    ensures Validated(threads, f) <==>
            PendingsOk(threads) && AgreeOnThreads(threads, f) && QueuedAreLive(threads, f)
  {
    assert forall i :: 0 <= i < |threads| ==> threads[i].tid == i + 1;
    if Validated(threads, f) {
      assert forall i :: 0 <= i < |threads| ==> ThreadOk(f, threads[i]);
    }
  }

  /** A waiting thread is in a queue, hence alive. */
  lemma LiveQueuesAgree(threads: seq<Thread>, f: Futex.Registry, t: int)
    requires Shape(threads) && Futex.Consistent(f) && AgreeOnThreads(threads, f) && QueuedAreLive(threads, f)
    ensures Futex.IsWaiting(f, t) <==> WaitsOnFutex(threads, t)
  {
    if Futex.IsWaiting(f, t) {
      var queue := f.queues[f.where[t]];
      var i :| 0 <= i < |queue| && queue[i].tid == t;
      assert LiveTid(threads, queue[i].tid);
    }
  }

  /** A queued waiter waits, hence is a live thread. */
  lemma AgreeingQueuesLive(threads: seq<Thread>, f: Futex.Registry, a: Futex.Address, i: nat)
    requires Shape(threads) && Futex.Consistent(f) && PendingsOk(threads) && QueuesAgree(threads, f)
    requires a in f.queues && i < |f.queues[a]|
    ensures LiveTid(threads, f.queues[a][i].tid)
  {
    var t := f.queues[a][i].tid;
    assert Futex.Holds(f.queues[a], t) && Futex.QueueAt(f.queues[a], a);
    assert Futex.IsWaiting(f, t);
    assert threads[t - 1].alive && threads[t - 1].tid == t;
  }

  /** The executable check accepts exactly the states in which every unfinished call is well
      formed, the queues agree with the calls of all threads and hold live threads only;
      where the two indexes of the queues are consistent, exactly those in which the queues
      agree with the calls. */
  lemma ValidatedIsExact(threads: seq<Thread>, f: Futex.Registry)
    requires Shape(threads)
    ensures Validated(threads, f) <==>
            PendingsOk(threads) && AgreeOnThreads(threads, f) && QueuedAreLive(threads, f)
    ensures Futex.Consistent(f) ==> (Validated(threads, f) <==> PendingsOk(threads) && QueuesAgree(threads, f))
  {
    ThreadsOk(threads, f);
    if Futex.Consistent(f) && Validated(threads, f) {
      forall t: int ensures Futex.IsWaiting(f, t) <==> WaitsOnFutex(threads, t) {
        LiveQueuesAgree(threads, f, t);
      }
    } else if Futex.Consistent(f) && PendingsOk(threads) && QueuesAgree(threads, f) {
      forall i | 0 <= i < |threads| ensures Futex.IsWaiting(f, i + 1) <==> FutexWaiting(threads[i].pending) {
        assert Futex.IsWaiting(f, i + 1) <==> WaitsOnFutex(threads, i + 1);
      }
      forall a, i | a in f.queues && 0 <= i < |f.queues[a]| ensures LiveTid(threads, f.queues[a][i].tid) {
        AgreeingQueuesLive(threads, f, a, i);
      }
    }
  }

  // ---- Operations -----------------------------------------------------------------

  /** The slot of the live thread bound to a carrier. */
  function ActorFrom(threads: seq<Thread>, physical: int, i: nat): (r: Option<nat>)
    requires i <= |threads|
    ensures r.Some? ==> i <= r.value < |threads| && threads[r.value].alive && threads[r.value].physical == physical
    ensures r.None? ==> forall j :: i <= j < |threads| ==> !(threads[j].alive && threads[j].physical == physical)
    decreases |threads| - i
  {
    if i == |threads| then None
    else if threads[i].alive && threads[i].physical == physical then Some(i)
    else ActorFrom(threads, physical, i + 1)
  }

  function ThreadFrom(threads: seq<Thread>, tid: int, i: nat): (r: Option<nat>)
    requires i <= |threads|
    ensures r.Some? ==> i <= r.value < |threads| && threads[r.value].alive && threads[r.value].tid == tid
    ensures r.None? ==> forall j :: i <= j < |threads| ==> !(threads[j].tid == tid && threads[j].alive)
    decreases |threads| - i
  {
    if i == |threads| then None
    else if threads[i].tid == tid && threads[i].alive then Some(i)
    else ThreadFrom(threads, tid, i + 1)
  }

  function Sync(n: Node): Node {
    n.(blocked := BlockedTable(n.threads))
  }

  function SetPending(n: Node, k: nat, p: Option<PendingSyscall>): Node
    requires k < |n.threads|
  {
    n.(threads := n.threads[k := n.threads[k].(pending := p)])
  }

  function SuspendSyscall(n: Node, physical: int, call: SysCall, reason: Reason): Result<Node> {
    match ActorFrom(n.threads, physical, 0)
    case None => Err
    case Some(k) =>
      var before := n.threads[k].pending;
      if before.Some? && (before.value.phase != Retry || before.value.reason != reason || before.value.call != call)
        then Err
      else
        var deadline := if before.Some? then before.value.deadline else None;
        Ok(Sync(SetPending(n, k, Some(PendingSyscall(Waiting, reason, call, 0, deadline)))))
  }

  function ReadySyscall(n: Node, tid: int, result: Int64): Result<Node> {
    match ThreadFrom(n.threads, tid, 0)
    case None => Err
    case Some(k) =>
      var before := n.threads[k].pending;
      if before.None? || before.value.phase == Ready then Err
      else
        var futex := if before.value.reason == ForFutex then Futex.WakeThread(n.futex, tid) else n.futex;
        Ok(Sync(SetPending(n.(futex := futex), k, Some(before.value.(phase := Ready, result := result)))))
  }

  function SetPendingDeadline(n: Node, tid: int, d: PendingDeadline): Result<Node> {
    match ThreadFrom(n.threads, tid, 0)
    case None => Err
    case Some(k) =>
      var before := n.threads[k].pending;
      if before.None? || before.value.phase == Ready || !TimedPendingOk(before.value, d) then Err
      else Ok(SetPending(n, k, Some(before.value.(deadline := Some(d)))))
  }

  /** Whether the call of a thread has a deadline that the clock has reached. */
  predicate TimeoutDue(n: Node, tid: int) {
    match ThreadFrom(n.threads, tid, 0)
    case None => false
    case Some(k) =>
      var p := n.threads[k].pending;
      p.Some? && p.value.phase != Ready && p.value.deadline.Some? && Due(n.clock, p.value.deadline.value)
  }

  function ExpireSyscall(n: Node, tid: int): Result<Node> {
    if !TimeoutDue(n, tid) then Err
    else
      var k := ThreadFrom(n.threads, tid, 0).value;
      ReadySyscall(n, tid, n.threads[k].pending.value.deadline.value.timeoutResult)
  }

  function Woken(f: Futex.Registry, t: Thread): Thread {
    if t.alive && FutexWaiting(t.pending) && !Futex.IsWaiting(f, t.tid)
    then t.(pending := Some(t.pending.value.(phase := Ready, result := 0)))
    else t
  }

  /** Threads that left the futex queues have their calls completed. */
  function RefreshFutex(n: Node): Node {
    Sync(n.(threads := seq(|n.threads|, i requires 0 <= i < |n.threads| => Woken(n.futex, n.threads[i]))))
  }

  function Rechecked(t: Thread, ready: SysCall -> bool): Thread {
    if t.alive && t.pending.Some? && t.pending.value.reason == ForIo && t.pending.value.phase != Ready
    then t.(pending := Some(t.pending.value.(phase := if ready(t.pending.value.call) then Retry else Waiting)))
    else t
  }

  function RefreshPending(n: Node, ready: SysCall -> bool): Node {
    var n := RefreshFutex(n);
    Sync(n.(threads := seq(|n.threads|, i requires 0 <= i < |n.threads| => Rechecked(n.threads[i], ready))))
  }

  /** How an attempt to complete a call ends: there was none, it waits again, or it returns
      `rval` to the thread that made `call`. */
  datatype Completion = NothingPending | WaitsAgain(node: Node) | Completed(node: Node, call: SysCall, rval: Int64)

  /** `retry` is the outcome of trying the I/O again, `None` when it would still block. */
  function CompleteSyscall(n: Node, physical: int, retry: Option<Int64>): Result<Completion> {
    if n.threads == [] then Ok(NothingPending)
    else match ActorFrom(n.threads, physical, 0)
    case None => Err
    case Some(k) =>
      match n.threads[k].pending
      case None => Ok(NothingPending)
      case Some(p) =>
        match p.phase
        case Waiting => Err
        case Retry =>
          if p.reason != ForIo then Err
          else if retry.None? then Ok(WaitsAgain(Sync(SetPending(n, k, Some(p.(phase := Waiting, result := 0))))))
          else Ok(Completed(Sync(SetPending(n, k, None)), p.call, retry.value))
        case Ready => Ok(Completed(Sync(SetPending(n, k, None)), p.call, p.result))
  }

  // ---- What every operation keeps ---------------------------------------------------

  /** In a well-shaped process a live thread is found by either of its ids. */
  lemma FindsThread(threads: seq<Thread>, k: nat)
    requires Shape(threads) && k < |threads| && threads[k].alive
    ensures ActorFrom(threads, threads[k].physical, 0) == Some(k) && ThreadFrom(threads, k + 1, 0) == Some(k)
  {
    assert ActorFrom(threads, threads[k].physical, 0).Some?;
    assert ThreadFrom(threads, k + 1, 0).Some?;
  }

  lemma UpdateBase(n: Node, k: nat, p: Option<PendingSyscall>, f: Futex.Registry)
    requires Base(n) && k < |n.threads| && n.threads[k].alive && (p.Some? ==> PendingOk(p.value))
    ensures Base(Sync(SetPending(n.(futex := f), k, p)))
  {
  }

  /** Changing one thread's call together with its place in the queues keeps the invariant. */
  lemma UpdateKeeps(n: Node, k: nat, p: Option<PendingSyscall>, f: Futex.Registry)
    requires Inv(n) && k < |n.threads| && n.threads[k].alive && Futex.Consistent(f)
    requires p.Some? ==> PendingOk(p.value)
    requires forall t: int :: Futex.IsWaiting(f, t) <==>
             if t == k + 1 then FutexWaiting(p) else Futex.IsWaiting(n.futex, t)
    ensures Inv(Sync(SetPending(n.(futex := f), k, p)))
  {
    UpdateBase(n, k, p, f);
    var threads := n.threads[k := n.threads[k].(pending := p)];
    forall t: int ensures Futex.IsWaiting(f, t) <==> WaitsOnFutex(threads, t) {
      assert Futex.IsWaiting(n.futex, t) <==> WaitsOnFutex(n.threads, t);
    }
  }

  /** A call already out of the queues may be replaced without touching them. */
  lemma UpdateCallKeeps(n: Node, k: nat, p: Option<PendingSyscall>)
    requires Base(n) && k < |n.threads| && n.threads[k].alive && (p.Some? ==> PendingOk(p.value))
    ensures Base(Sync(SetPending(n, k, p)))
    ensures Inv(n) && (FutexWaiting(n.threads[k].pending) <==> FutexWaiting(p)) ==> Inv(Sync(SetPending(n, k, p)))
  {
    UpdateBase(n, k, p, n.futex);
    if Inv(n) && (FutexWaiting(n.threads[k].pending) <==> FutexWaiting(p)) {
      assert Futex.IsWaiting(n.futex, k + 1) <==> WaitsOnFutex(n.threads, k + 1);
      UpdateKeeps(n, k, p, n.futex);
    }
  }

  /** Giving a call its result. */
  lemma ReadyKeeps(n: Node, tid: int, result: Int64)
    requires Base(n) && ReadySyscall(n, tid, result).Ok?
    ensures Base(ReadySyscall(n, tid, result).value)
    ensures Inv(n) ==> Inv(ReadySyscall(n, tid, result).value)
  {
    var k := ThreadFrom(n.threads, tid, 0).value;
    var p := n.threads[k].pending.value;
    var q := Some(p.(phase := Ready, result := result));
    if p.reason == ForFutex {
      UpdateBase(n, k, q, Futex.WakeThread(n.futex, tid));
      if Inv(n) {
        Futex.WakeThreadConsistent(n.futex, tid);
        UpdateKeeps(n, k, q, Futex.WakeThread(n.futex, tid));
      }
    } else {
      UpdateCallKeeps(n, k, q);
    }
  }

  lemma DeadlineKeeps(n: Node, tid: int, d: PendingDeadline)
    requires Base(n) && SetPendingDeadline(n, tid, d).Ok?
    ensures Base(SetPendingDeadline(n, tid, d).value)
    ensures Inv(n) ==> Inv(SetPendingDeadline(n, tid, d).value)
  {
    var k := ThreadFrom(n.threads, tid, 0).value;
    var p := Some(n.threads[k].pending.value.(deadline := Some(d)));
    UpdateCallKeeps(n, k, p);
    assert BlockedTable(SetPending(n, k, p).threads) == n.blocked;
    assert Sync(SetPending(n, k, p)) == SetPending(n, k, p);
  }

  lemma CompleteKeeps(n: Node, physical: int, retry: Option<Int64>)
    requires Base(n) && CompleteSyscall(n, physical, retry).Ok?
    ensures var c := CompleteSyscall(n, physical, retry).value;
            !c.NothingPending? ==> Base(c.node) && (Inv(n) ==> Inv(c.node))
  {
    var c := CompleteSyscall(n, physical, retry).value;
    if !c.NothingPending? {
      var k := ActorFrom(n.threads, physical, 0).value;
      var p := n.threads[k].pending.value;
      UpdateCallKeeps(n, k, if c.WaitsAgain? then Some(p.(phase := Waiting, result := 0)) else None);
    }
  }

  /** Completing the calls of threads that are not in the queues keeps the calls well formed
      and makes the table right, whatever it held. */
  lemma RefreshFutexBase(n: Node)
    requires Shape(n.threads) && ValidClock(n.clock) && PendingsOk(n.threads)
    ensures Base(RefreshFutex(n))
  {
    var r := RefreshFutex(n).threads;
    assert forall i :: 0 <= i < |r| ==> r[i] == Woken(n.futex, n.threads[i]);
  }

  /** Waking threads in the queues and completing their calls are two steps; between them a
      thread may be out of the queues while its call still waits.  The second step restores
      the invariant. */
  lemma RefreshFutexRestores(n: Node)
    requires Shape(n.threads) && ValidClock(n.clock) && PendingsOk(n.threads) && Futex.Consistent(n.futex)
    requires forall t: int :: Futex.IsWaiting(n.futex, t) ==> WaitsOnFutex(n.threads, t)
    ensures Inv(RefreshFutex(n))
  {
    RefreshFutexBase(n);
    var r := RefreshFutex(n).threads;
    forall t: int ensures Futex.IsWaiting(n.futex, t) <==> WaitsOnFutex(r, t) {
      if 1 <= t <= |r| {
        assert r[t - 1] == Woken(n.futex, n.threads[t - 1]);
        assert Futex.IsWaiting(n.futex, t) ==> WaitsOnFutex(n.threads, t);
      }
    }
  }

  /** Nothing is to be done where no thread was woken. */
  lemma RefreshFutexIdle(n: Node)
    requires Inv(n)
    ensures RefreshFutex(n) == n
  {
    var r := RefreshFutex(n).threads;
    forall i | 0 <= i < |r| ensures r[i] == n.threads[i] {
      assert Futex.IsWaiting(n.futex, i + 1) <==> WaitsOnFutex(n.threads, i + 1);
    }
    assert r == n.threads;
  }

  lemma RecheckKeeps(n: Node, ready: SysCall -> bool)
    requires Base(n)
    ensures var r := Sync(n.(threads :=
              seq(|n.threads|, i requires 0 <= i < |n.threads| => Rechecked(n.threads[i], ready))));
            Base(r) && (Inv(n) ==> Inv(r))
  {
    var r := seq(|n.threads|, i requires 0 <= i < |n.threads| => Rechecked(n.threads[i], ready));
    assert forall i :: 0 <= i < |r| ==> r[i] == Rechecked(n.threads[i], ready);
    assert Shape(r) && PendingsOk(r);
    if Inv(n) {
      forall t: int ensures Futex.IsWaiting(n.futex, t) <==> WaitsOnFutex(r, t) {
        assert Futex.IsWaiting(n.futex, t) <==> WaitsOnFutex(n.threads, t);
      }
    }
  }

  /** The table has 64 places, and a place is set exactly for a live thread whose call waits. */
  predicate TableShows(n: Node) {
    && |n.blocked| == 64
    && forall i :: 0 <= i < 64 ==>
         (n.blocked[i] <==>
            && i < |n.threads| && n.threads[i].alive && n.threads[i].pending.Some?
            && n.threads[i].pending.value.phase == Waiting)
  }

  /** An I/O call of a live thread that has no result yet may be retried exactly when its
      descriptor is ready, and waits and blocks its thread exactly when it is not. */
  predicate IoFollows(t: Thread, blocked: bool, ready: SysCall -> bool) {
    t.alive && t.pending.Some? && t.pending.value.reason == ForIo && t.pending.value.phase != Ready ==>
      var p := t.pending.value;
      && p.phase == (if ready(p.call) then Retry else Waiting)
      && (blocked <==> !ready(p.call))
  }

  /** A futex call of a live thread waits only while its thread is in the queues. */
  predicate FutexFollows(t: Thread, f: Futex.Registry) {
    t.alive && FutexWaiting(t.pending) ==> Futex.IsWaiting(f, t.tid)
  }

  predicate AllFollowReadiness(n: Node, ready: SysCall -> bool) {
    && |n.threads| <= |n.blocked|
    && forall i :: 0 <= i < |n.threads| ==>
         IoFollows(n.threads[i], n.blocked[i], ready) && FutexFollows(n.threads[i], n.futex)
  }

  lemma SyncShows(n: Node)
    ensures TableShows(Sync(n))
  {
  }

  /** What a refresh leaves, in the words of the readiness it was given. */
  lemma RefreshFollows(n: Node, ready: SysCall -> bool)
    requires |n.threads| <= MAX_THREADS
    ensures TableShows(RefreshPending(n, ready)) && AllFollowReadiness(RefreshPending(n, ready), ready)
  {
    var woken, r := RefreshFutex(n), RefreshPending(n, ready);
    forall i | 0 <= i < |r.threads|
      ensures IoFollows(r.threads[i], r.blocked[i], ready) && FutexFollows(r.threads[i], r.futex)
    {
      assert woken.threads[i] == Woken(n.futex, n.threads[i]);
      assert r.threads[i] == Rechecked(woken.threads[i], ready);
    }
  }

  /** Granting or withdrawing retries. */
  lemma RefreshKeeps(n: Node, ready: SysCall -> bool)
    requires Base(n)
    ensures Base(RefreshPending(n, ready)) && RefreshPending(n, ready).futex == n.futex
    ensures Inv(n) ==> Inv(RefreshPending(n, ready))
  {
    RefreshFutexBase(n);
    RecheckKeeps(RefreshFutex(n), ready);
    if Inv(n) {
      RefreshFutexIdle(n);
    }
  }
}
