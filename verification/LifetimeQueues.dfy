/** When the futex queues stay in step with the unfinished calls, and what happens when a
    waiter is put at address zero. */
module LifetimeQueues {
  import opened Common
  import opened Deadline
  import opened Pending
  import opened Lifetime
  import opened LifetimeSound
  import Futex

  // ---- The exact condition -----------------------------------------------------------

  /** The call a thread makes does not put a waiter at address zero. */
  predicate OrderlyTrap(n: Node, k: nat, t: Trap) {
    t.call.nr == SYS_futex && TimeoutRead(t) ==> Futex.Orderly(n.futex, k + 1, FutexCall(t))
  }

  /** Only an action in which a guest makes a call can be disorderly. */
  predicate OrderlyEvent(n: Node, e: Event) {
    e.Run? && e.actor < |n.threads| && n.threads[e.actor].pending.None? ==> OrderlyTrap(n, e.actor, e.trap)
  }

  /** Enough for it in every state: the word at address zero cannot be read, and a requeue
      names a second address. */
  predicate Sane(t: Trap) {
    t.call.nr == SYS_futex ==>
      && (t.call.args[0] == 0 ==> t.word.None?)
      && (Futex.IsRequeue(Low32(t.call.args[1])) ==> t.call.args[4] != 0)
  }

  lemma SaneIsOrderly(n: Node, k: nat, t: Trap)
    requires Sane(t)
    ensures OrderlyTrap(n, k, t)
  {
  }

  /** The two ways an action ends: with the queues in step, or with their indexes at odds. */
  ghost predicate Split(orderly: bool, n: Node) {
    if orderly then Inv(n) else !Futex.Consistent(n.futex)
  }

  lemma FutexWaitKeepsInv(n: Node, k: nat, t: Trap, reply: Futex.Reply)
    requires Inv(n) && Idle(n, k) && t.call.nr == SYS_futex && TimeoutRead(t)
    requires Futex.HandleFutex(n.futex, k + 1, FutexCall(t)) == Ok(reply)
    requires Futex.IsWait(Low32(t.call.args[1])) && reply.result == 0
    requires Futex.Orderly(n.futex, k + 1, FutexCall(t))
    ensures HandleFutexTrap(n, n.threads[k].physical, t).Ok? &&
            Inv(HandleFutexTrap(n, n.threads[k].physical, t).value.node)
  {
    FindsThread(n.threads, k);
    Futex.HandleFutexConsistentIff(n.futex, k + 1, FutexCall(t));
    var m := FutexWaitSound(n, k, t, reply);
    UpdateKeeps(n, k, Some(Fresh(t.call, ForFutex, FutexDeadline(n.clock, t).value)), reply.registry);
    RefreshFutexIdle(m);
  }

  lemma FutexWakeKeepsInv(n: Node, f: Futex.Registry)
    requires Inv(n) && Futex.Consistent(f) && forall u: int :: Futex.IsWaiting(f, u) ==> Futex.IsWaiting(n.futex, u)
    ensures Inv(RefreshFutex(n.(futex := f)))
  {
    forall u: int | Futex.IsWaiting(f, u) ensures WaitsOnFutex(n.threads, u) {
      assert Futex.IsWaiting(n.futex, u);
    }
    RefreshFutexRestores(n.(futex := f));
  }

  lemma HandleFutexKeepsInvIff(n: Node, k: nat, t: Trap)
    requires Inv(n) && Idle(n, k) && t.call.nr == SYS_futex && HandleFutexTrap(n, n.threads[k].physical, t).Ok?
    ensures Split(OrderlyTrap(n, k, t), HandleFutexTrap(n, n.threads[k].physical, t).value.node)
  {
    FindsThread(n.threads, k);
    if TimeoutRead(t) {
      var reply := Futex.HandleFutex(n.futex, k + 1, FutexCall(t)).value;
      Futex.HandleFutexConsistentIff(n.futex, k + 1, FutexCall(t));
      if Futex.IsWait(Low32(t.call.args[1])) && reply.result == 0 {
        var m := FutexWaitSound(n, k, t, reply);
        if OrderlyTrap(n, k, t) {
          FutexWaitKeepsInv(n, k, t, reply);
        }
      } else if OrderlyTrap(n, k, t) {
        FutexWakeKeepsInv(n, reply.registry);
      }
    }
  }

  lemma HandleKeepsInvIff(n: Node, k: nat, t: Trap)
    requires Inv(n) && Idle(n, k) && Handle(n, n.threads[k].physical, t).Ok?
    ensures Split(OrderlyTrap(n, k, t), Handle(n, n.threads[k].physical, t).value.node)
  {
    var nr := t.call.nr;
    if SupportsPendingIo(nr) {
      HandleIoSound(n, k, t);
    } else if nr == SYS_nanosleep || nr == SYS_clock_nanosleep {
      HandleSleepSound(n, k, t);
    } else if nr == SYS_pselect6 {
      HandleSelectSound(n, k, t);
    } else if nr == SYS_futex {
      HandleFutexKeepsInvIff(n, k, t);
    }
  }

  lemma ExpireKeepsInv(n: Node, k: nat, ready: SysCall -> bool)
    requires Inv(n) && TimeoutOffered(n, k, ready) && ExpireActor(n, k, ready).Ok?
    ensures Inv(ExpireActor(n, k, ready).value.node)
  {
    var d := n.threads[k].pending.value.deadline.value;
    TimeoutClockIsLeast(n.clock, d, n.clock);
    var m := n.(clock := PendingTimeoutClock(n.clock, d).value);
    ExpireReady(m, k);
    CompleteKeeps(ExpireSyscall(m, k + 1).value, n.threads[k].physical, None);
  }

  lemma PerformKeepsInvIff(n: Node, e: Event)
    requires Inv(n) && Perform(n, e).Ok?
    ensures Split(OrderlyEvent(n, e), Perform(n, e).value.node)
  {
    match e {
      case Run(k, retry, t, _) =>
        CompleteSound(n, k, retry);
        if n.threads[k].pending.None? {
          HandleKeepsInvIff(n, k, t);
        }
      case Expire(k, ready) => ExpireKeepsInv(n, k, ready);
    }
  }

  /** An action keeps the queues in step with the calls if and only if the guest does not, in
      it, put a waiter at address zero: neither by a wait there nor by a requeue that moves
      somebody there. */
  lemma StepKeepsInvIff(n: Node, e: Event)
    requires Inv(n) && Step(n, e).Ok?
    ensures Inv(Step(n, e).value.node) <==> OrderlyEvent(n, e)
  {
    PerformKeepsInvIff(n, e);
    PerformSound(n, e);
    RefreshKeeps(Perform(n, e).value.node, e.ready);
    assert Step(n, e).value.node == RefreshPending(Perform(n, e).value.node, e.ready);
  }

  // ---- Over runs ---------------------------------------------------------------------

  predicate OrderlyRun(n: Node, es: seq<Event>, os: seq<Outcome>)
    requires |es| == |os|
    decreases |es|
  {
    es == [] || (OrderlyEvent(n, es[0]) && OrderlyRun(os[0].node, es[1..], os[1..]))
  }

  ghost predicate AllInv(os: seq<Outcome>) {
    forall i :: 0 <= i < |os| ==> Inv(os[i].node)
  }

  lemma AllInvSplit(os: seq<Outcome>)
    requires os != []
    ensures AllInv(os) <==> Inv(os[0].node) && AllInv(os[1..])
  {
    assert forall i :: 1 <= i < |os| ==> os[i] == os[1..][i - 1];
  }

  /** The queues are in step with the calls in every state of a run if and only if every
      action of the run is orderly. */
  lemma {:induction false} RunKeepsInvIff(n: Node, es: seq<Event>, os: seq<Outcome>)
    requires Inv(n) && IsRun(n, es, os)
    ensures AllInv(os) <==> OrderlyRun(n, es, os)
    decreases |es|
  {
    if es != [] {
      StepKeepsInvIff(n, es[0]);
      AllInvSplit(os);
      if Inv(os[0].node) {
        RunKeepsInvIff(os[0].node, es[1..], os[1..]);
      }
    }
  }

  /** Every state of an orderly run passes the check of saved states. */
  lemma OrderlyRunValidates(n: Node, es: seq<Event>, os: seq<Outcome>, i: nat)
    requires Inv(n) && IsRun(n, es, os) && OrderlyRun(n, es, os) && i < |os|
    ensures Inv(os[i].node) && Validated(os[i].node.threads, os[i].node.futex)
  {
    RunKeepsInvIff(n, es, os);
    ValidatedIsExact(os[i].node.threads, os[i].node.futex);
  }

  // ---- A waiter at address zero ------------------------------------------------------

  lemma QueueAtZero(f: Futex.Registry, from: Futex.Address, n: nat, isPrivate: bool)
    requires Futex.Consistent(f) && Futex.Taken(Futex.QueueOf(f, from), n, Futex.MoveMatch(isPrivate)) != []
    ensures var moved := Futex.Taken(Futex.QueueOf(f, from), n, Futex.MoveMatch(isPrivate));
            && Futex.QueueOf(Futex.Move(f, from, 0, n, Futex.MoveMatch(isPrivate)), 0) == Futex.MoveTo(0, moved)
            && moved[0].isPrivate == isPrivate
  {
    var moved := Futex.Taken(Futex.QueueOf(f, from), n, Futex.MoveMatch(isPrivate));
    assert from in f.queues && Futex.QueueOf(f, 0) == [];
    Futex.LeftKeepsQueue(Futex.QueueOf(f, from), n, Futex.MoveMatch(isPrivate));
    assert moved[0] in moved;
    assert Futex.QueueOf(f, 0) + Futex.MoveTo(0, moved) == Futex.MoveTo(0, moved);
  }

  /** The first waiter moved to address zero by a requeue heads the queue there, although its
      thread no longer counts as waiting. */
  lemma MovedToZero(f: Futex.Registry, from: Futex.Address, nrWake: nat, nrRequeue: nat, isPrivate: bool)
    requires Futex.Consistent(f) && Futex.Requeued(f, from, nrWake, nrRequeue, isPrivate).1 != []
    ensures var f' := Futex.Requeue(f, from, 0, nrWake, nrRequeue, isPrivate);
            var w := Futex.Requeued(f, from, nrWake, nrRequeue, isPrivate).1[0];
            && Futex.IsWaiting(f, w.tid) && !Futex.IsWaiting(f', w.tid)
            && Futex.QueueOf(f', 0) != [] && Futex.QueueOf(f', 0)[0] == w.(uaddr := 0) && w.isPrivate == isPrivate
  {
    var moved := Futex.Requeued(f, from, nrWake, nrRequeue, isPrivate).1;
    Futex.RequeueConsistentIff(f, from, 0, nrWake, nrRequeue, isPrivate);
    assert Futex.Holds(moved, moved[0].tid);
    var matches := Futex.WakeMatch(0xffff_ffff, isPrivate);
    Futex.WakeConsistent(f, from, nrWake, matches);
    var f1 := Futex.Wake(f, from, nrWake, matches);
    assert Futex.QueueOf(f1, from) == Futex.Left(Futex.QueueOf(f, from), nrWake, matches);
    QueueAtZero(f1, from, nrRequeue, isPrivate);
  }

  /** Moved on from there it counts as waiting again. */
  lemma MovedFromZero(f: Futex.Registry, to: Futex.Address, isPrivate: bool)
    requires Futex.QueueOf(f, 0) != [] && Futex.QueueOf(f, 0)[0].isPrivate == isPrivate && to != 0
    ensures Futex.IsWaiting(Futex.Requeue(f, 0, to, 0, 1, isPrivate), Futex.QueueOf(f, 0)[0].tid)
  {
    var queue := Futex.QueueOf(f, 0);
    var f1 := Futex.Wake(f, 0, 0, Futex.WakeMatch(0xffff_ffff, isPrivate));
    assert Futex.QueueOf(f1, 0) == queue;
    var taken := Futex.Taken(queue, 1, Futex.MoveMatch(isPrivate));
    assert taken[0] == queue[0] && queue[0].tid in Futex.TidsOf(taken);
  }

  /** The call that moves one waiter from address zero to address 16. */
  function MoveOn(isPrivate: bool): Trap {
    var op := if isPrivate then Futex.FUTEX_REQUEUE + 128 else Futex.FUTEX_REQUEUE;
    Trap(SysCall(SYS_futex, [0, op, 0, 1, 16, 0]), 0, false, None, false, 0, None)
  }

  /** The thread has no call that still waits or may be retried. */
  predicate Done(t: Thread) {
    t.pending.Some? ==> t.pending.value.phase == Ready
  }

  /** What a waiter put at address zero leaves: thread `i` is done, yet heads the queue there. */
  predicate Stray(n: Node, i: nat, isPrivate: bool) {
    && i < |n.threads| && Done(n.threads[i])
    && Futex.QueueOf(n.futex, 0) != [] && Futex.QueueOf(n.futex, 0)[0].tid == i + 1
    && Futex.QueueOf(n.futex, 0)[0].isPrivate == isPrivate
  }

  lemma MoveOnReply(f: Futex.Registry, tid: int, isPrivate: bool) returns (reply: Futex.Reply)
    ensures MoveOn(isPrivate).call.nr == SYS_futex && !Futex.IsWait(Low32(MoveOn(isPrivate).call.args[1]))
    ensures Futex.HandleFutex(f, tid, FutexCall(MoveOn(isPrivate))) == Ok(reply)
    ensures reply.registry == Futex.Requeue(f, 0, 16, 0, 1, isPrivate)
  {
    assert Futex.PrivateFlag(Low32(MoveOn(isPrivate).call.args[1])) == isPrivate;
    reply := Futex.HandleFutex(f, tid, FutexCall(MoveOn(isPrivate))).value;
  }

  /** A futex call that does not wait leaves the state its reply gives. */
  lemma FutexStep(n: Node, k: nat, t: Trap, ready: SysCall -> bool, reply: Futex.Reply)
    requires Idle(n, k) && t.call.nr == SYS_futex && !Futex.IsWait(Low32(t.call.args[1]))
    requires Futex.HandleFutex(n.futex, k + 1, FutexCall(t)) == Ok(reply)
    ensures var r := Step(n, Run(k, None, t, ready));
            && r.Ok? && r.value.actor == k && r.value.node.futex == reply.registry
            && r.value.node == Refreshed(n.(futex := reply.registry), ready)
  {
    FindsThread(n.threads, k);
    assert Handle(n, n.threads[k].physical, t) == HandleFutexTrap(n, n.threads[k].physical, t);
  }

  function Refreshed(n: Node, ready: SysCall -> bool): Node {
    RefreshPending(RefreshFutex(n), ready)
  }

  /** A thread without an unfinished call, or with a result, is left alone. */
  lemma RefreshSettled(n: Node, i: nat, ready: SysCall -> bool)
    requires i < |n.threads| && Done(n.threads[i])
    ensures |Refreshed(n, ready).threads| == |n.threads| && Refreshed(n, ready).threads[i] == n.threads[i]
  {
  }

  lemma RefreshWoken(n: Node, i: nat, ready: SysCall -> bool)
    requires i < |n.threads| && n.threads[i].alive && FutexWaiting(n.threads[i].pending) &&
             !Futex.IsWaiting(n.futex, n.threads[i].tid)
    ensures |Refreshed(n, ready).threads| == |n.threads|
    ensures var p := Refreshed(n, ready).threads[i].pending; p.Some? && p.value.phase == Ready
  {
  }

  lemma RefreshedBase(n: Node, ready: SysCall -> bool)
    requires Base(n)
    ensures Base(Refreshed(n, ready)) && Refreshed(n, ready).futex == n.futex
  {
    RefreshFutexBase(n);
    RefreshKeeps(RefreshFutex(n), ready);
  }

  lemma DoneYetWaiting(n: Node, k: nat, i: nat, t: Trap, reply: Futex.Reply, ready: SysCall -> bool)
    requires Idle(n, k) && t.call.nr == SYS_futex && !Futex.IsWait(Low32(t.call.args[1]))
    requires Futex.HandleFutex(n.futex, k + 1, FutexCall(t)) == Ok(reply) && Futex.IsWaiting(reply.registry, i + 1)
    requires i < |n.threads| && Done(n.threads[i])
    ensures var r := Step(n, Run(k, None, t, ready));
            r.Ok? && !Validated(r.value.node.threads, r.value.node.futex)
  {
    FutexStep(n, k, t, ready, reply);
    RefreshSettled(n.(futex := reply.registry), i, ready);
    assert !ThreadOk(reply.registry, n.threads[i]);
  }

  /** From such a state one more call of any idle thread leads to a state that the check of
      saved states rejects: a thread is in a queue while no call of it waits. */
  lemma StrayBreaksCheck(n: Node, k: nat, i: nat, isPrivate: bool, ready: SysCall -> bool)
    requires Idle(n, k) && Stray(n, i, isPrivate)
    ensures var r := Step(n, Run(k, None, MoveOn(isPrivate), ready));
            r.Ok? && !Validated(r.value.node.threads, r.value.node.futex)
  {
    var reply := MoveOnReply(n.futex, k + 1, isPrivate);
    MovedFromZero(n.futex, 16, isPrivate);
    DoneYetWaiting(n, k, i, MoveOn(isPrivate), reply, ready);
  }

  lemma LeavesStray(n: Node, k: nat, f: Futex.Registry, w: Futex.Waiter, ready: SysCall -> bool)
    requires Inv(n) && Idle(n, k) && Futex.IsWaiting(n.futex, w.tid) && !Futex.IsWaiting(f, w.tid)
    requires Futex.QueueOf(f, 0) != [] && Futex.QueueOf(f, 0)[0] == w
    ensures w.tid > 0
    ensures var m := Refreshed(n.(futex := f), ready); Idle(m, k) && Stray(m, w.tid - 1, w.isPrivate)
  {
    assert WaitsOnFutex(n.threads, w.tid);
    RefreshedBase(n.(futex := f), ready);
    RefreshSettled(n.(futex := f), k, ready);
    RefreshWoken(n.(futex := f), w.tid - 1, ready);
  }

  lemma RequeueToZero(n: Node, k: nat, t: Trap, ready: SysCall -> bool) returns (m: Node, i: nat)
    requires Inv(n) && Idle(n, k) && Futex.IsRequeue(Low32(t.call.args[1])) && !OrderlyTrap(n, k, t)
    ensures Step(n, Run(k, None, t, ready)).Ok? && Step(n, Run(k, None, t, ready)).value.node == m
    ensures Idle(m, k) && Stray(m, i, Futex.PrivateFlag(Low32(t.call.args[1])))
  {
    var c := FutexCall(t);
    var reply := Futex.HandleFutex(n.futex, k + 1, c).value;
    Futex.HandledRegistry(n.futex, k + 1, c);
    MovedToZero(n.futex, c.uaddr, c.val, Futex.Signed32(c.fourth), Futex.PrivateFlag(c.op));
    FutexStep(n, k, t, ready, reply);
    var w := Futex.QueueOf(reply.registry, 0)[0];
    LeavesStray(n, k, reply.registry, w, ready);
    m, i := Refreshed(n.(futex := reply.registry), ready), w.tid - 1;
  }

  /** A requeue that moves somebody to address zero is accepted, yet it leaves a state from
      which one more call of the same thread leads to a state that the check of saved states
      rejects: a thread is in a queue while its call is complete. */
  lemma RequeueToZeroBreaksCheck(n: Node, k: nat, t: Trap, ready: SysCall -> bool, ready': SysCall -> bool)
    requires Inv(n) && Idle(n, k) && Futex.IsRequeue(Low32(t.call.args[1])) && !OrderlyTrap(n, k, t)
    ensures var first := Step(n, Run(k, None, t, ready));
            && first.Ok?
            && var again := MoveOn(Futex.PrivateFlag(Low32(t.call.args[1])));
               var second := Step(first.value.node, Run(k, None, again, ready'));
               second.Ok? && !Validated(second.value.node.threads, second.value.node.futex)
  {
    var m, i := RequeueToZero(n, k, t, ready);
    StrayBreaksCheck(m, k, i, Futex.PrivateFlag(Low32(t.call.args[1])), ready');
  }

  lemma AddedAtZero(f: Futex.Registry, w: Futex.Waiter)
    requires Futex.Consistent(f) && w.uaddr == 0
    ensures var f' := Futex.AddWaiter(f, w); Futex.QueueOf(f', 0) == [w] && !Futex.IsWaiting(f', w.tid)
  {
    assert Futex.QueueOf(f, 0) == [];
  }

  /** A registered wait at address zero is complete at once, yet its thread stays in the queue. */
  lemma WaitAtZero(n: Node, k: nat, t: Trap, ready: SysCall -> bool) returns (m: Node)
    requires Inv(n) && Idle(n, k) && Futex.IsWait(Low32(t.call.args[1])) && !OrderlyTrap(n, k, t)
    ensures Step(n, Run(k, None, t, ready)).Ok? && Step(n, Run(k, None, t, ready)).value.node == m
    ensures Base(m) && Stray(m, k, Futex.PrivateFlag(Low32(t.call.args[1]))) && m.threads[k].alive
    ensures m.threads[k].pending.Some?
  {
    var c := FutexCall(t);
    var reply := Futex.HandleFutex(n.futex, k + 1, c).value;
    Futex.HandledRegistry(n.futex, k + 1, c);
    AddedAtZero(n.futex, Futex.WaiterOf(k + 1, c));
    var x := FutexWaitSound(n, k, t, reply);
    FindsThread(n.threads, k);
    assert Handle(n, n.threads[k].physical, t) == Ok(Suspended(RefreshFutex(x)));
    RefreshWoken(x, k, ready);
    RefreshFutexBase(x);
    RefreshKeeps(RefreshFutex(x), ready);
    RefreshLeaves(RefreshFutex(x), ready, k);
    m := Refreshed(x, ready);
  }

  /** After it, a requeue from there by any other idle thread leads to a rejected state. */
  lemma WaitAtZeroBreaksCheck(n: Node, k: nat, t: Trap, j: nat, ready: SysCall -> bool, ready': SysCall -> bool)
    requires Inv(n) && Idle(n, k) && Futex.IsWait(Low32(t.call.args[1])) && !OrderlyTrap(n, k, t)
    requires Idle(n, j) && j != k
    ensures var first := Step(n, Run(k, None, t, ready));
            && first.Ok?
            && var next := MoveOn(Futex.PrivateFlag(Low32(t.call.args[1])));
               var second := Step(first.value.node, Run(j, None, next, ready'));
               second.Ok? && !Validated(second.value.node.threads, second.value.node.futex)
  {
    var e := Run(k, None, t, ready);
    var m := WaitAtZero(n, k, t, ready);
    StepSound(n, e);
    var o := Step(n, e).value;
    assert Follows(n.threads[j], o.node.threads[j], o, j);
    StrayBreaksCheck(m, j, k, Futex.PrivateFlag(Low32(t.call.args[1])), ready');
  }

  // ---- The condition is exact for the check -------------------------------------------

  lemma MoveOnIsOrderly(n: Node, k: nat, isPrivate: bool, ready: SysCall -> bool)
    ensures OrderlyEvent(n, Run(k, None, MoveOn(isPrivate), ready))
  {
    SaneIsOrderly(n, k, MoveOn(isPrivate));
  }

  /** A thread whose call is complete gets its result and is idle; the queues stay as they are. */
  lemma ReadyReturns(n: Node, k: nat, t: Trap, ready: SysCall -> bool) returns (o: Outcome)
    requires Base(n) && k < |n.threads| && n.threads[k].alive && n.threads[k].pending.Some? && Done(n.threads[k])
    ensures Step(n, Run(k, None, t, ready)) == Ok(o) && OrderlyEvent(n, Run(k, None, t, ready))
    ensures Idle(o.node, k) && o.node.futex == n.futex
  {
    FindsThread(n.threads, k);
    CompleteSound(n, k, None);
    o := Step(n, Run(k, None, t, ready)).value;
    StepSound(n, Run(k, None, t, ready));
    assert Follows(n.threads[k], o.node.threads[k], o, k);
  }

  lemma RetryIgnored(n: Node, k: nat, retry: Option<Int64>, t: Trap, ready: SysCall -> bool)
    requires Idle(n, k)
    ensures Step(n, Run(k, retry, t, ready)) == Step(n, Run(k, None, t, ready))
  {
    FindsThread(n.threads, k);
  }

  lemma OneStep(n: Node, e: Event, o: Outcome)
    requires Step(n, e) == Ok(o) && OrderlyEvent(n, e)
    ensures IsRun(n, [e], [o]) && OrderlyRun(n, [e], [o]) && End(n, [o]) == o.node
  {
    assert [e][1..] == [] && [o][1..] == [];
  }

  lemma StepThen(n: Node, e: Event, o: Outcome, es: seq<Event>, os: seq<Outcome>)
    requires Step(n, e) == Ok(o) && OrderlyEvent(n, e) && IsRun(o.node, es, os) && OrderlyRun(o.node, es, os)
    ensures IsRun(n, [e] + es, [o] + os) && OrderlyRun(n, [e] + es, [o] + os) && End(n, [o] + os) == End(o.node, os)
  {
    assert ([e] + es)[1..] == es && ([o] + os)[1..] == os;
  }

  lemma StrayRun(m: Node, k: nat, i: nat, isPrivate: bool, ready: SysCall -> bool)
    returns (es: seq<Event>, os: seq<Outcome>)
    requires Idle(m, k) && Stray(m, i, isPrivate)
    ensures IsRun(m, es, os) && OrderlyRun(m, es, os) && !Validated(End(m, os).threads, End(m, os).futex)
  {
    var e := Run(k, None, MoveOn(isPrivate), ready);
    StrayBreaksCheck(m, k, i, isPrivate, ready);
    MoveOnIsOrderly(m, k, isPrivate, ready);
    var o := Step(m, e).value;
    OneStep(m, e, o);
    es, os := [e], [o];
  }

  /** From every disorderly action the acting thread alone, itself orderly from then on, can
      lead the process to a state that the check rejects. */
  lemma DisorderlyBreaksCheck(n: Node, e: Event) returns (es: seq<Event>, os: seq<Outcome>)
    requires Inv(n) && Step(n, e).Ok? && !OrderlyEvent(n, e)
    ensures var m := Step(n, e).value.node;
            IsRun(m, es, os) && OrderlyRun(m, es, os) && !Validated(End(m, os).threads, End(m, os).futex)
  {
    var k, t, ready := e.actor, e.trap, e.ready;
    var isPrivate := Futex.PrivateFlag(Low32(t.call.args[1]));
    RetryIgnored(n, k, e.retry, t, ready);
    if Futex.IsWait(Low32(t.call.args[1])) {
      var m := WaitAtZero(n, k, t, ready);
      var o := ReadyReturns(m, k, t, ready);
      es, os := StrayRun(o.node, k, k, isPrivate, ready);
      StepThen(m, Run(k, None, t, ready), o, es, os);
      es, os := [Run(k, None, t, ready)] + es, [o] + os;
    } else {
      var m, i := RequeueToZero(n, k, t, ready);
      es, os := StrayRun(m, k, i, isPrivate, ready);
    }
  }

  lemma {:induction false} OrderlyRunKeepsInv(n: Node, es: seq<Event>, os: seq<Outcome>)
    requires Inv(n) && IsRun(n, es, os) && OrderlyRun(n, es, os)
    ensures Inv(End(n, os))
    decreases |es|
  {
    if es != [] {
      StepKeepsInvIff(n, es[0]);
      OrderlyRunKeepsInv(os[0].node, es[1..], os[1..]);
    }
  }

  /** If the run is one and orderly, the check accepts the state it ends in. */
  predicate Accepted(m: Node, es: seq<Event>, os: seq<Outcome>) {
    IsRun(m, es, os) && OrderlyRun(m, es, os) ==> Validated(End(m, os).threads, End(m, os).futex)
  }

  lemma OrderlyRunAccepted(m: Node, es: seq<Event>, os: seq<Outcome>)
    requires Inv(m)
    ensures Accepted(m, es, os)
  {
    if IsRun(m, es, os) && OrderlyRun(m, es, os) {
      OrderlyRunKeepsInv(m, es, os);
      ValidatedIsExact(End(m, os).threads, End(m, os).futex);
    }
  }

  /** From a state in step the check accepts all that orderly runs lead to. */
  lemma InStepIsAccepted(m: Node)
    requires Inv(m)
    ensures forall es, os :: Accepted(m, es, os)
  {
    forall es, os ensures Accepted(m, es, os) {
      OrderlyRunAccepted(m, es, os);
    }
  }

  /** An action is orderly if and only if no orderly run after it leads to a state that the
      check of saved states rejects. */
  lemma OrderlyIffAccepted(n: Node, e: Event)
    requires Inv(n) && Step(n, e).Ok?
    ensures OrderlyEvent(n, e) <==> forall es, os :: Accepted(Step(n, e).value.node, es, os)
  {
    if OrderlyEvent(n, e) {
      StepKeepsInvIff(n, e);
      InStepIsAccepted(Step(n, e).value.node);
    } else {
      var es, os := DisorderlyBreaksCheck(n, e);
      assert !Accepted(Step(n, e).value.node, es, os);
    }
  }

  function FutexTrap(args: Args, word: Option<Futex.Word>): Trap {
    Trap(SysCall(SYS_futex, args), 0, false, None, false, 0, word)
  }

  /** A wait at address 8, by the first thread. */
  const WAIT: Trap := FutexTrap([8, Futex.FUTEX_WAIT, 5, 0, 0, 0], Some(5))

  /** A requeue of one waiter from address 8 to address zero. */
  const TO_ZERO: Trap := FutexTrap([8, Futex.FUTEX_REQUEUE, 0, 1, 0, 0], None)

  lemma WaitStep(n: Node, k: nat, t: Trap, ready: SysCall -> bool, reply: Futex.Reply)
    requires Idle(n, k) && t.call.nr == SYS_futex && TimeoutRead(t) && Futex.IsWait(Low32(t.call.args[1]))
    requires Futex.HandleFutex(n.futex, k + 1, FutexCall(t)) == Ok(reply) && reply.result == 0
    ensures var r := Step(n, Run(k, None, t, ready)); r.Ok? && r.value.node.futex == reply.registry
  {
    FindsThread(n.threads, k);
    var m := FutexWaitSound(n, k, t, reply);
    assert Handle(n, n.threads[k].physical, t) == Ok(Suspended(RefreshFutex(m)));
  }

  const WAITER: Futex.Waiter := Futex.Waiter(1, 8, 5, 0xffff_ffff, false)

  lemma WaitCall()
    ensures FutexCall(WAIT) == Futex.Call(8, Futex.FUTEX_WAIT, 5, 0, 0, 0, Some(5))
    ensures TimeoutRead(WAIT) && Futex.IsWait(Low32(WAIT.call.args[1]))
  {
  }

  lemma WaitReply()
    ensures Futex.HandleFutex(Futex.EMPTY, 1, Futex.Call(8, Futex.FUTEX_WAIT, 5, 0, 0, 0, Some(5)))
            == Ok(Futex.Reply(0, Futex.AddWaiter(Futex.EMPTY, WAITER)))
  {
  }

  lemma MovesWaiter(f: Futex.Registry)
    requires Futex.QueueOf(f, 8) == [WAITER]
    ensures Futex.IsRequeue(Low32(TO_ZERO.call.args[1])) && TimeoutRead(TO_ZERO)
    ensures !Futex.Orderly(f, 2, FutexCall(TO_ZERO))
  {
    var queue := Futex.QueueOf(f, 8);
    assert Futex.Left(queue, 0, Futex.WakeMatch(0xffff_ffff, false)) == queue;
    assert Futex.Taken(queue, 1, Futex.MoveMatch(false)) == [queue[0]];
  }

  lemma FirstWaits(n: Node, ready: SysCall -> bool)
    requires Inv(n) && Idle(n, 0) && Idle(n, 1) && n.futex == Futex.EMPTY
    ensures var r := Step(n, Run(0, None, WAIT, ready));
            r.Ok? && Inv(r.value.node) && Idle(r.value.node, 1) && !OrderlyTrap(r.value.node, 1, TO_ZERO)
  {
    var e := Run(0, None, WAIT, ready);
    WaitCall();
    WaitReply();
    WaitStep(n, 0, WAIT, ready, Futex.Reply(0, Futex.AddWaiter(Futex.EMPTY, WAITER)));
    StepKeepsInvIff(n, e);
    StepSound(n, e);
    var o := Step(n, e).value;
    assert Follows(n.threads[1], o.node.threads[1], o, 1);
    MovesWaiter(o.node.futex);
  }

  /** From any state with empty queues and two idle threads, three calls lead to a state that
      the check rejects: a wait, the requeue to zero and the requeue from zero. */
  lemma ThreeCallsBreakCheck(n: Node, ready: SysCall -> bool)
    requires Inv(n) && Idle(n, 0) && Idle(n, 1) && n.futex == Futex.EMPTY
    ensures var a := Step(n, Run(0, None, WAIT, ready));
            a.Ok? && var b := Step(a.value.node, Run(1, None, TO_ZERO, ready));
            b.Ok? && var c := Step(b.value.node, Run(1, None, MoveOn(false), ready));
            c.Ok? && !Validated(c.value.node.threads, c.value.node.futex)
  {
    FirstWaits(n, ready);
    ToZeroBreaksCheck(Step(n, Run(0, None, WAIT, ready)).value.node, ready);
  }

  lemma ToZeroBreaksCheck(n: Node, ready: SysCall -> bool)
    requires Inv(n) && Idle(n, 1) && !OrderlyTrap(n, 1, TO_ZERO)
    ensures var b := Step(n, Run(1, None, TO_ZERO, ready));
            b.Ok? && var c := Step(b.value.node, Run(1, None, MoveOn(false), ready));
            c.Ok? && !Validated(c.value.node.threads, c.value.node.futex)
  {
    assert Low32(TO_ZERO.call.args[1]) == Futex.FUTEX_REQUEUE && !Futex.PrivateFlag(Futex.FUTEX_REQUEUE);
    RequeueToZeroBreaksCheck(n, 1, TO_ZERO, ready, ready);
  }
}
