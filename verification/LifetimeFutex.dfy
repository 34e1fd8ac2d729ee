/** Which waiting calls a futex call completes, told by the words of the calls themselves. */
module LifetimeFutex {
  import opened Common
  import opened Deadline
  import opened Pending
  import opened Lifetime
  import opened LifetimeSound
  import opened LifetimeQueues
  import Futex

  /** The words of a futex call, as the guest made it. */
  function WordsOf(call: SysCall): Futex.Call {
    var a := call.args;
    Futex.Call(a[0], Low32(a[1]), Int(a[2]), a[3], a[4], Low32(a[5]), None)
  }

  /** The calls by which threads wait on a futex. */
  function WaitingCalls(threads: seq<Thread>): map<int, Futex.Call> {
    map t | 1 <= t <= |threads| && WaitsOnFutex(threads, t) :: WordsOf(threads[t - 1].pending.value.call)
  }

  /** Each waiter in the queues is there by the call that its thread waits in. */
  predicate QueuesHoldCalls(n: Node) {
    Futex.Registered(n.futex, WaitingCalls(n.threads))
  }

  // ---- Every orderly action keeps it ---------------------------------------------------

  predicate SameWords(a: Futex.Call, b: Futex.Call) {
    a.op == b.op && a.val3 == b.val3
  }

  lemma SameWordsSameWaiter(w: Futex.Waiter, calls: map<int, Futex.Call>, calls': map<int, Futex.Call>)
    requires Futex.WaiterFrom(w, calls) && w.tid in calls' && SameWords(calls[w.tid], calls'[w.tid])
    ensures Futex.WaiterFrom(w, calls')
  {
  }

  lemma QueuedWaits(f: Futex.Registry, threads: seq<Thread>, a: Futex.Address, w: Futex.Waiter)
    requires Futex.Consistent(f) && QueuesAgree(threads, f) && a in f.queues && w in f.queues[a]
    ensures Futex.IsWaiting(f, w.tid) && WaitsOnFutex(threads, w.tid)
  {
    assert Futex.Holds(f.queues[a], w.tid) && Futex.QueueAt(f.queues[a], a);
  }

  /** Whoever is in the queues and in the record waits in the call that the record says. */
  ghost predicate WaitIn(threads: seq<Thread>, f: Futex.Registry, calls: map<int, Futex.Call>) {
    forall t :: Futex.IsWaiting(f, t) && t in calls && WaitsOnFutex(threads, t) ==>
      SameWords(calls[t], WordsOf(threads[t - 1].pending.value.call))
  }

  lemma HeldByThread(f: Futex.Registry, threads: seq<Thread>, calls: map<int, Futex.Call>, w: Futex.Waiter)
    requires Futex.IsWaiting(f, w.tid) && WaitsOnFutex(threads, w.tid) && WaitIn(threads, f, calls)
    requires Futex.WaiterFrom(w, calls)
    ensures Futex.WaiterFrom(w, WaitingCalls(threads))
  {
    SameWordsSameWaiter(w, calls, WaitingCalls(threads));
  }

  /** The record is right where the threads wait in the calls it says. */
  lemma HeldByThreads(f: Futex.Registry, threads: seq<Thread>, calls: map<int, Futex.Call>)
    requires Futex.Consistent(f) && QueuesAgree(threads, f) && Futex.Registered(f, calls) && WaitIn(threads, f, calls)
    ensures Futex.Registered(f, WaitingCalls(threads))
  {
    forall a | a in f.queues ensures Futex.AllFrom(f.queues[a], WaitingCalls(threads)) {
      assert Futex.AllFrom(f.queues[a], calls);
      forall w | w in f.queues[a] ensures Futex.WaiterFrom(w, WaitingCalls(threads)) {
        QueuedWaits(f, threads, a, w);
        HeldByThread(f, threads, calls, w);
      }
    }
  }

  /** The queues after an action: a timeout takes its thread out of them, a futex call leaves
      them as it says, and nothing else touches them. */
  function QueuesAfter(n: Node, e: Event): Futex.Registry
    requires e.actor < |n.threads|
  {
    var before := n.threads[e.actor].pending;
    if e.Expire? then
      if before.Some? && before.value.reason == ForFutex then Futex.WakeThread(n.futex, e.actor + 1) else n.futex
    else if before.None? && e.trap.call.nr == SYS_futex && TimeoutRead(e.trap) then
      var r := Futex.HandleFutex(n.futex, e.actor + 1, FutexCall(e.trap));
      if r.Ok? then r.value.registry else n.futex
    else n.futex
  }

  lemma RunQueues(n: Node, k: nat, retry: Option<Int64>, t: Trap, ready: SysCall -> bool)
    requires Base(n) && k < |n.threads| && n.threads[k].alive && RunActor(n, k, retry, t).Ok?
    ensures RunActor(n, k, retry, t).value.node.futex == QueuesAfter(n, Run(k, retry, t, ready))
  {
    CompleteSound(n, k, retry);
    if n.threads[k].pending.None? {
      HandleQueues(n, k, t);
    }
  }

  lemma HandleQueues(n: Node, k: nat, t: Trap)
    requires Idle(n, k) && Handle(n, n.threads[k].physical, t).Ok?
    ensures Handle(n, n.threads[k].physical, t).value.node.futex ==
            if t.call.nr == SYS_futex && TimeoutRead(t)
            then Futex.HandleFutex(n.futex, k + 1, FutexCall(t)).value.registry else n.futex
  {
    FindsThread(n.threads, k);
    if t.call.nr == SYS_futex && TimeoutRead(t) {
      var reply := Futex.HandleFutex(n.futex, k + 1, FutexCall(t)).value;
      if Futex.IsWait(Low32(t.call.args[1])) && reply.result == 0 {
        var m := FutexWaitSound(n, k, t, reply);
      }
    }
  }

  lemma ExpireQueues(n: Node, k: nat, ready: SysCall -> bool)
    requires Base(n) && TimeoutOffered(n, k, ready)
    ensures ExpireActor(n, k, ready).Ok?
    ensures ExpireActor(n, k, ready).value.node.futex == QueuesAfter(n, Expire(k, ready))
  {
    var d := n.threads[k].pending.value.deadline.value;
    OfferedTimeoutCompletes(n, k, ready);
    TimeoutClockIsLeast(n.clock, d, n.clock);
    var m := n.(clock := PendingTimeoutClock(n.clock, d).value);
    FindsThread(m.threads, k);
    ExpireReady(m, k);
    CompleteSound(ExpireSyscall(m, k + 1).value, k, None);
  }

  lemma StepQueues(n: Node, e: Event)
    requires Base(n) && Step(n, e).Ok?
    ensures Step(n, e).value.node.futex == QueuesAfter(n, e)
  {
    match e {
      case Run(k, retry, t, ready) => RunQueues(n, k, retry, t, ready);
      case Expire(k, ready) => ExpireQueues(n, k, ready);
    }
    PerformSound(n, e);
    RefreshKeeps(Perform(n, e).value.node, e.ready);
  }

  /** The record of the waiting calls, with the one the actor makes. */
  function CallsWith(n: Node, e: Event): map<int, Futex.Call> {
    if e.Run? && e.trap.call.nr == SYS_futex then WaitingCalls(n.threads)[e.actor + 1 := FutexCall(e.trap)]
    else WaitingCalls(n.threads)
  }

  lemma QueuesAfterRegistered(n: Node, e: Event)
    requires Inv(n) && QueuesHoldCalls(n) && e.actor < |n.threads|
    ensures Futex.Registered(QueuesAfter(n, e), CallsWith(n, e)) ||
            Futex.Registered(QueuesAfter(n, e), WaitingCalls(n.threads))
  {
    if e.Expire? {
      Futex.WakeThreadKeepsRegistered(n.futex, e.actor + 1, WaitingCalls(n.threads));
    } else if Futex.HandleFutex(n.futex, e.actor + 1, FutexCall(e.trap)).Ok? {
      Futex.HandleFutexKeepsRegistered(n.futex, e.actor + 1, FutexCall(e.trap), WaitingCalls(n.threads));
    }
  }

  /** Before the action the thread waited in the call, or in it makes the call. */
  predicate WaitedIn(n: Node, e: Event, i: nat, call: SysCall)
    requires i < |n.threads|
  {
    if i == e.actor then e.Run? && n.threads[i].pending.None? && call == e.trap.call
    else FutexWaiting(n.threads[i].pending) && n.threads[i].pending.value.call == call
  }

  /** A thread that waits on a futex after an action waited in the same call before, or has
      just made it. */
  lemma WaitsInItsCall(n: Node, e: Event, i: nat)
    requires Base(n) && Step(n, e).Ok? && i < |n.threads|
    requires WaitsOnFutex(Step(n, e).value.node.threads, i + 1)
    ensures WaitedIn(n, e, i, Step(n, e).value.node.threads[i].pending.value.call)
  {
    var o := Step(n, e).value;
    StepSound(n, e);
    var b, a := n.threads[i], o.node.threads[i];
    assert Follows(b, a, o, i) && (b.pending.Some? ==> PendingOk(b.pending.value));
    if i == e.actor {
      ActorWaits(n, e);
    } else {
      assert Outstanding(b) == Outstanding(b) + Made(o, i) == Returned(o, i) + Outstanding(a) == Outstanding(a);
      assert b.pending.Some? && SameCall(b.pending.value, a.pending.value);
    }
  }

  lemma ActorWaits(n: Node, e: Event)
    requires Base(n) && Step(n, e).Ok? && e.actor < |Step(n, e).value.node.threads|
    requires FutexWaiting(Step(n, e).value.node.threads[e.actor].pending)
    ensures e.Run? && n.threads[e.actor].pending.None?
    ensures Step(n, e).value.node.threads[e.actor].pending.value.call == e.trap.call
  {
    var k, o := e.actor, Step(n, e).value;
    StepSound(n, e);
    StepEnabled(n, e);
    var b, a := n.threads[k], o.node.threads[k];
    assert Follows(b, a, o, k) && (b.pending.Some? ==> PendingOk(b.pending.value));
    match e {
      case Expire(_, ready) => OfferedTimeoutCompletes(n, k, ready);
      case Run(_, retry, t, _) => RunSound(n, k, retry, t);
    }
    assert |Outstanding(b) + Made(o, k)| == |Returned(o, k) + Outstanding(a)|;
    if b.pending.None? {
      assert Made(o, k) == Outstanding(b) + Made(o, k) == Returned(o, k) + Outstanding(a);
      assert (Returned(o, k) + Outstanding(a))[|Returned(o, k)|] == a.pending.value.call;
    }
  }

  lemma RecordedCall(n: Node, e: Event, calls: map<int, Futex.Call>, i: nat, call: SysCall)
    requires (calls == WaitingCalls(n.threads) || calls == CallsWith(n, e)) && i + 1 in calls && i < |n.threads|
    requires WaitedIn(n, e, i, call)
    ensures SameWords(calls[i + 1], WordsOf(call))
  {
    if i == e.actor {
      assert i + 1 !in WaitingCalls(n.threads) && calls[i + 1] == FutexCall(e.trap);
    } else {
      assert calls[i + 1] == WordsOf(n.threads[i].pending.value.call);
    }
  }

  lemma RecordedCalls(n: Node, e: Event, calls: map<int, Futex.Call>, m: Node)
    requires (calls == WaitingCalls(n.threads) || calls == CallsWith(n, e)) && |m.threads| == |n.threads|
    requires forall i :: 0 <= i < |n.threads| && FutexWaiting(m.threads[i].pending) ==>
               WaitedIn(n, e, i, m.threads[i].pending.value.call)
    ensures WaitIn(m.threads, m.futex, calls)
  {
    forall t | Futex.IsWaiting(m.futex, t) && t in calls && WaitsOnFutex(m.threads, t)
      ensures SameWords(calls[t], WordsOf(m.threads[t - 1].pending.value.call))
    {
      RecordedCall(n, e, calls, t - 1, m.threads[t - 1].pending.value.call);
    }
  }

  lemma StepWaitIn(n: Node, e: Event, calls: map<int, Futex.Call>)
    requires Base(n) && Step(n, e).Ok? && (calls == WaitingCalls(n.threads) || calls == CallsWith(n, e))
    ensures var m := Step(n, e).value.node; WaitIn(m.threads, m.futex, calls)
  {
    var m := Step(n, e).value.node;
    assert |m.threads| == |n.threads| by {
      StepSound(n, e);
    }
    forall i | 0 <= i < |n.threads| && FutexWaiting(m.threads[i].pending)
      ensures WaitedIn(n, e, i, m.threads[i].pending.value.call)
    {
      WaitsInItsCall(n, e, i);
    }
    RecordedCalls(n, e, calls, m);
  }

  /** Every orderly action keeps each waiter with the call that its thread waits in. */
  lemma StepKeepsCalls(n: Node, e: Event)
    requires Inv(n) && QueuesHoldCalls(n) && Step(n, e).Ok? && OrderlyEvent(n, e)
    ensures QueuesHoldCalls(Step(n, e).value.node)
  {
    var m := Step(n, e).value.node;
    StepKeepsInvIff(n, e);
    StepQueues(n, e);
    QueuesAfterRegistered(n, e);
    if Futex.Registered(m.futex, WaitingCalls(n.threads)) {
      StepWaitIn(n, e, WaitingCalls(n.threads));
      HeldByThreads(m.futex, m.threads, WaitingCalls(n.threads));
    } else {
      StepWaitIn(n, e, CallsWith(n, e));
      HeldByThreads(m.futex, m.threads, CallsWith(n, e));
    }
  }

  /** So it holds in every state of an orderly run. */
  lemma {:induction false} RunKeepsCalls(n: Node, es: seq<Event>, os: seq<Outcome>, i: nat)
    requires Inv(n) && QueuesHoldCalls(n) && IsRun(n, es, os) && OrderlyRun(n, es, os) && i < |os|
    ensures QueuesHoldCalls(os[i].node)
    decreases |es|
  {
    StepKeepsInvIff(n, es[0]);
    StepKeepsCalls(n, es[0]);
    if i > 0 {
      RunKeepsCalls(os[0].node, es[1..], os[1..], i - 1);
    }
  }

  // ---- What a futex call does to the calls of others -------------------------------------

  /** An idle thread makes a futex call that is carried out. */
  predicate MakesFutexCall(n: Node, e: Event) {
    && e.Run? && e.actor < |n.threads| && n.threads[e.actor].alive && n.threads[e.actor].pending.None?
    && e.trap.call.nr == SYS_futex && TimeoutRead(e.trap)
    && var r := Futex.HandleFutex(n.futex, e.actor + 1, FutexCall(e.trap));
       r.Ok? && r.value.result >= 0
  }

  /** The queues change as the words of the calls say. */
  lemma QueuesByWords(n: Node, e: Event)
    requires Inv(n) && QueuesHoldCalls(n) && MakesFutexCall(n, e) && Step(n, e).Ok?
    ensures var c := FutexCall(e.trap);
            Futex.DoneByWords(n.futex, e.actor + 1, c, WaitingCalls(n.threads),
                              Futex.HandleFutex(n.futex, e.actor + 1, c).value.result, Step(n, e).value.node.futex)
  {
    StepQueues(n, e);
    Futex.CallIsDone(n.futex, e.actor + 1, FutexCall(e.trap), WaitingCalls(n.threads));
  }

  lemma WakeReturns(n: Node, e: Event)
    requires Base(n) && MakesFutexCall(n, e) && Step(n, e).Ok? && Futex.WakeWord(FutexCall(e.trap))
    ensures Step(n, e).value.returned ==
            Some(Return(e.trap.call, Futex.HandleFutex(n.futex, e.actor + 1, FutexCall(e.trap)).value.result))
    ensures OrderlyEvent(n, e)
  {
    Futex.WordsAgree(FutexCall(e.trap));
    FindsThread(n.threads, e.actor);
  }

  /** A futex call that waited, after other threads acted. */
  lemma WaitOrDone(p: PendingSyscall, q: PendingSyscall, waits: bool)
    requires SameCall(p, q) && PendingOk(p) && PendingOk(q)
    requires FutexWaiting(Some(p)) && (FutexWaiting(Some(q)) <==> waits)
    ensures q == if waits then p else p.(phase := Ready, result := 0)
  {
  }

  lemma KeepsItsCall(n: Node, e: Event, i: nat)
    requires Base(n) && Step(n, e).Ok? && i < |n.threads| && i != e.actor && n.threads[i].pending.Some?
    ensures var m := Step(n, e).value.node;
            && i < |m.threads| && m.threads[i].pending.Some?
            && PendingOk(m.threads[i].pending.value) && PendingOk(n.threads[i].pending.value)
            && SameCall(n.threads[i].pending.value, m.threads[i].pending.value)
  {
    var o := Step(n, e).value;
    StepSound(n, e);
    var b, a := n.threads[i], o.node.threads[i];
    assert Follows(b, a, o, i);
    assert Outstanding(b) == Outstanding(b) + Made(o, i) == Returned(o, i) + Outstanding(a) == Outstanding(a);
  }

  /** What is left of the call of a thread that does not act, in the queues or out of them. */
  lemma CallAfter(n: Node, e: Event, i: nat)
    requires Inv(n) && Step(n, e).Ok? && OrderlyEvent(n, e) && i < |n.threads| && i != e.actor
    requires FutexWaiting(n.threads[i].pending)
    ensures var p, m := n.threads[i].pending.value, Step(n, e).value.node;
            && i < |m.threads|
            && m.threads[i].pending ==
               Some(if Futex.IsWaiting(m.futex, i + 1) then p else p.(phase := Ready, result := 0))
  {
    var m := Step(n, e).value.node;
    KeepsItsCall(n, e, i);
    WaitsWhileQueued(n, e, i);
    WaitOrDone(n.threads[i].pending.value, m.threads[i].pending.value, Futex.IsWaiting(m.futex, i + 1));
  }

  lemma WaitsWhileQueued(n: Node, e: Event, i: nat)
    requires Inv(n) && Step(n, e).Ok? && OrderlyEvent(n, e) && i < |Step(n, e).value.node.threads|
    ensures var m := Step(n, e).value.node;
            Futex.IsWaiting(m.futex, i + 1) <==> FutexWaiting(m.threads[i].pending)
  {
    StepKeepsInvIff(n, e);
    AgreeAt(Step(n, e).value.node, i);
  }

  lemma AgreeAt(m: Node, i: nat)
    requires QueuesAgree(m.threads, m.futex) && i < |m.threads|
    ensures Futex.IsWaiting(m.futex, i + 1) <==> FutexWaiting(m.threads[i].pending)
  {
    assert Futex.IsWaiting(m.futex, i + 1) <==> WaitsOnFutex(m.threads, i + 1);
  }

  /** How many a wake wakes at most. */
  function WakeCount(call: SysCall): nat {
    if Int(call.args[2]) < 1 then 1 else Int(call.args[2])
  }

  /** The thread queued at place `i` stays in the queues unless it is its turn. */
  ghost predicate LeavesInTurn(n: Node, t: Trap, i: nat, f': Futex.Registry, result: int) {
    var queue := Futex.QueueOf(n.futex, t.call.args[0]);
    var count, met := WakeCount(t.call), Futex.Met(WaitingCalls(n.threads), FutexCall(t));
    && i < |queue| && (Futex.IsWaiting(f', queue[i].tid) <==> !Futex.InTurn(queue, count, met, i))
    && result == Futex.Least(count, Futex.Matching(queue, met))
  }

  lemma WakeLeavesInTurn(n: Node, e: Event, i: nat)
    requires Inv(n) && QueuesHoldCalls(n) && MakesFutexCall(n, e) && Step(n, e).Ok?
    requires Futex.WakeWord(FutexCall(e.trap)) && i < |Futex.QueueOf(n.futex, e.trap.call.args[0])|
    ensures LeavesInTurn(n, e.trap, i, Step(n, e).value.node.futex,
                         Futex.HandleFutex(n.futex, e.actor + 1, FutexCall(e.trap)).value.result)
  {
    QueuesByWords(n, e);
    var queue, m := Futex.QueueOf(n.futex, e.trap.call.args[0]), Step(n, e).value.node;
    assert Futex.WokenInTurn(queue, WakeCount(e.trap.call), Futex.Met(WaitingCalls(n.threads), FutexCall(e.trap)), i,
                             m.futex, Futex.QueueOf(m.futex, e.trap.call.args[0]));
  }

  lemma QueuedThread(n: Node, k: nat, a: Futex.Address, i: nat)
    requires Inv(n) && Idle(n, k) && i < |Futex.QueueOf(n.futex, a)|
    ensures var j := Futex.QueueOf(n.futex, a)[i].tid - 1;
            0 <= j < |n.threads| && j != k && FutexWaiting(n.threads[j].pending)
  {
    QueuedWaits(n.futex, n.threads, a, Futex.QueueOf(n.futex, a)[i]);
  }

  /** The call of a thread waits on as long as the thread is in the queues. */
  predicate WaitsOn(n: Node, tid: int, m: Node) {
    && 1 <= tid <= |n.threads| == |m.threads| && FutexWaiting(n.threads[tid - 1].pending)
    && var p := n.threads[tid - 1].pending.value;
       m.threads[tid - 1].pending ==
       Some(if Futex.IsWaiting(m.futex, tid) then p else p.(phase := Ready, result := 0))
  }

  lemma QueuedWaitsOn(n: Node, e: Event, a: Futex.Address, i: nat)
    requires Inv(n) && Idle(n, e.actor) && Step(n, e).Ok? && OrderlyEvent(n, e) && i < |Futex.QueueOf(n.futex, a)|
    ensures WaitsOn(n, Futex.QueueOf(n.futex, a)[i].tid, Step(n, e).value.node)
  {
    QueuedThread(n, e.actor, a, i);
    SameThreads(n, e);
    CallAfter(n, e, Futex.QueueOf(n.futex, a)[i].tid - 1);
  }

  lemma SameThreads(n: Node, e: Event)
    requires Base(n) && Step(n, e).Ok?
    ensures |Step(n, e).value.node.threads| == |n.threads|
  {
    StepSound(n, e);
  }

  /** The thread queued at place `i` has its call completed with success if it is its turn, and
      otherwise left as it was; the guest is returned the number of those whose turn it is. */
  ghost predicate WokenAsMet(n: Node, t: Trap, i: nat, m: Node, returned: Option<Return>) {
    var queue := Futex.QueueOf(n.futex, t.call.args[0]);
    var count, met := WakeCount(t.call), Futex.Met(WaitingCalls(n.threads), FutexCall(t));
    && i < |queue| && 1 <= queue[i].tid <= |n.threads| == |m.threads|
    && var before, after := n.threads[queue[i].tid - 1].pending, m.threads[queue[i].tid - 1].pending;
       && FutexWaiting(before)
       && after == Some(if Futex.InTurn(queue, count, met, i) then before.value.(phase := Ready, result := 0)
                        else before.value)
       && returned == Some(Return(t.call, Futex.Least(count, Futex.Matching(queue, met))))
  }

  /** A wake, as the threads see it: of the threads queued at its address, those whose calls it
      meets and that have fewer than `val`, or than one, such before them get their calls
      completed with success; the calls of the others stay as they are; and the guest is
      returned the number of the completed. */
  lemma WakeCompletesInTurn(n: Node, e: Event, i: nat)
    requires Inv(n) && QueuesHoldCalls(n) && MakesFutexCall(n, e) && Step(n, e).Ok?
    requires Futex.WakeWord(FutexCall(e.trap)) && i < |Futex.QueueOf(n.futex, e.trap.call.args[0])|
    ensures WokenAsMet(n, e.trap, i, Step(n, e).value.node, Step(n, e).value.returned)
  {
    var o, result := Step(n, e).value, Futex.HandleFutex(n.futex, e.actor + 1, FutexCall(e.trap)).value.result;
    WakeReturns(n, e);
    QueuedWaitsOn(n, e, e.trap.call.args[0], i);
    WakeLeavesInTurn(n, e, i);
    TurnTold(n, e.trap, i, o.node, o.returned, result);
  }

  lemma TurnTold(n: Node, t: Trap, i: nat, m: Node, returned: Option<Return>, result: int)
    requires LeavesInTurn(n, t, i, m.futex, result) && returned == Some(Return(t.call, result))
    requires WaitsOn(n, Futex.QueueOf(n.futex, t.call.args[0])[i].tid, m)
    ensures WokenAsMet(n, t, i, m, returned)
  {
  }
}
