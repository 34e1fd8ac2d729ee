/** The bookkeeping of unfinished calls as it is kept in place: thread slots, futex queues
    and the table of blocked threads, each updated by its own loop. */
module ProcessState {
  import opened Common
  import opened Deadline
  import opened Pending
  import opened Lifetime
  import opened LifetimeSound
  import opened LifetimeQueues
  import Futex

  class Process {
    var threads: seq<Thread>
    var clock: Timeval
    const futex: Futex.FutexState
    const blocked: array<bool>

    ghost predicate Valid()
      reads this
    {
      blocked.Length == MAX_THREADS
    }

    function Now(): Node
      reads this, futex, blocked
    {
      Node(threads, futex.Now(), blocked[..], clock)
    }

    constructor (threads: seq<Thread>, clock: Timeval)
      requires Shape(threads) && ValidClock(clock) && forall i :: 0 <= i < |threads| ==> threads[i].pending.None?
      ensures Valid() && fresh(futex) && fresh(blocked) && Inv(Now()) && Now().threads == threads &&
              Now().clock == clock
    {
      this.threads, this.clock := threads, clock;
      futex := new Futex.FutexState();
      blocked := new bool[MAX_THREADS](_ => false);
      new;
      assert blocked[..] == BlockedTable(threads);
      assert QueuesAgree(threads, futex.Now());
    }

    method FindActor(physical: int) returns (k: Option<nat>)
      ensures k == ActorFrom(threads, physical, 0)
    {
      var i := 0;
      while i < |threads|
        invariant 0 <= i <= |threads| && ActorFrom(threads, physical, i) == ActorFrom(threads, physical, 0)
      {
        if threads[i].alive && threads[i].physical == physical {
          return Some(i);
        }
        i := i + 1;
      }
      k := None;
    }

    method FindThread(tid: int) returns (k: Option<nat>)
      ensures k == ThreadFrom(threads, tid, 0)
    {
      var i := 0;
      while i < |threads|
        invariant 0 <= i <= |threads| && ThreadFrom(threads, tid, i) == ThreadFrom(threads, tid, 0)
      {
        if threads[i].tid == tid && threads[i].alive {
          return Some(i);
        }
        i := i + 1;
      }
      k := None;
    }

    /** Recompute the whole table from the threads. */
    method SyncPendingBlocked()
      requires Valid()
      modifies blocked
      ensures Now() == Sync(old(Now())) && TableShows(Now())
    {
      var slot := 0;
      while slot < MAX_THREADS
        invariant 0 <= slot <= MAX_THREADS && Now().(blocked := []) == old(Now()).(blocked := [])
        invariant forall i :: 0 <= i < slot ==> blocked[i] == (i < |threads| && IsBlocked(threads[i]))
      {
        blocked[slot] := slot < |threads| && IsBlocked(threads[slot]);
        slot := slot + 1;
      }
      assert blocked[..] == BlockedTable(threads);
      SyncShows(old(Now()));
    }

    method SuspendSyscall(physical: int, call: SysCall, reason: Reason) returns (ok: bool)
      requires Valid()
      modifies this`threads, blocked
      ensures var r := Pending.SuspendSyscall(old(Now()), physical, call, reason);
              ok == r.Ok? && Now() == if ok then r.value else old(Now())
    {
      var found := FindActor(physical);
      if found.None? {
        return false;
      }
      var k := found.value;
      var before := threads[k].pending;
      if before.Some? && (before.value.phase != Retry || before.value.reason != reason || before.value.call != call) {
        return false;
      }
      var pending := PendingSyscall(Waiting, reason, call, 0, None);
      if before.Some? {
        pending := pending.(deadline := before.value.deadline);
      }
      threads := threads[k := threads[k].(pending := Some(pending))];
      SyncPendingBlocked();
      ok := true;
    }

    method ReadySyscall(tid: int, result: Int64) returns (ok: bool)
      requires Valid()
      modifies this`threads, blocked, futex
      ensures var r := Pending.ReadySyscall(old(Now()), tid, result);
              ok == r.Ok? && Now() == if ok then r.value else old(Now())
    {
      var found := FindThread(tid);
      if found.None? {
        return false;
      }
      var k := found.value;
      if threads[k].pending.None? || threads[k].pending.value.phase == Ready {
        return false;
      }
      var pending := threads[k].pending.value;
      if pending.reason == ForFutex {
        var _ := futex.RemoveWaiter(tid);
      }
      threads := threads[k := threads[k].(pending := Some(pending.(phase := Ready, result := result)))];
      SyncPendingBlocked();
      ok := true;
    }

    method SetPendingDeadline(tid: int, d: PendingDeadline) returns (ok: bool)
      modifies this`threads
      ensures var r := Pending.SetPendingDeadline(old(Now()), tid, d);
              ok == r.Ok? && Now() == if ok then r.value else old(Now())
    {
      var found := FindThread(tid);
      if found.None? {
        return false;
      }
      var k := found.value;
      if threads[k].pending.None? || threads[k].pending.value.phase == Ready ||
        !TimedPendingOk(threads[k].pending.value, d) {
        return false;
      }
      threads := threads[k := threads[k].(pending := Some(threads[k].pending.value.(deadline := Some(d))))];
      ok := true;
    }

    method ExpirePendingSyscall(tid: int) returns (ok: bool)
      requires Valid()
      modifies this`threads, blocked, futex
      ensures var r := ExpireSyscall(old(Now()), tid);
              ok == r.Ok? && Now() == if ok then r.value else old(Now())
    {
      var found := FindThread(tid);
      if found.None? || threads[found.value].pending.None? {
        return false;
      }
      var pending := threads[found.value].pending.value;
      if pending.phase == Ready || pending.deadline.None? || !Due(clock, pending.deadline.value) {
        return false;
      }
      ok := ReadySyscall(tid, pending.deadline.value.timeoutResult);
    }

    /** `handled` says that the actor had an unfinished call; `returned` is what the guest
        then gets, unless the call waits again. */
    method CompletePendingSyscall(physical: int, retry: Option<Int64>)
      returns (ok: bool, handled: bool, returned: Option<(SysCall, Int64)>)
      requires Valid()
      modifies this`threads, blocked
      ensures var r := CompleteSyscall(old(Now()), physical, retry);
              && ok == r.Ok?
              && handled == (r.Ok? && !r.value.NothingPending?)
              && returned == (if r.Ok? && r.value.Completed? then Some((r.value.call, r.value.rval)) else None)
              && Now() == if handled then r.value.node else old(Now())
    {
      ok, handled, returned := false, false, None;
      if threads == [] {
        return true, false, None;
      }
      var found := FindActor(physical);
      if found.None? {
        return;
      }
      var k := found.value;
      if threads[k].pending.None? {
        return true, false, None;
      }
      var pending := threads[k].pending.value;
      if pending.phase == Waiting || (pending.phase == Retry && pending.reason != ForIo) {
        return;
      }
      if pending.phase == Retry && retry.None? {
        threads := threads[k := threads[k].(pending := Some(pending.(phase := Waiting, result := 0)))];
      } else {
        returned := Some((pending.call, if pending.phase == Retry then retry.value else pending.result));
        threads := threads[k := threads[k].(pending := None)];
      }
      SyncPendingBlocked();
      ok, handled := true, true;
    }

    method RefreshFutexPending()
      requires Valid()
      modifies this`threads, blocked
      ensures Now() == RefreshFutex(old(Now()))
    {
      var i := 0;
      while i < |threads|
        invariant 0 <= i <= |threads| && |threads| == |old(threads)| &&
                  Now().(threads := []) == old(Now()).(threads := [])
        invariant forall j :: 0 <= j < i ==> threads[j] == Woken(futex.Now(), old(threads)[j])
        invariant forall j :: i <= j < |threads| ==> threads[j] == old(threads)[j]
      {
        var t := threads[i];
        if t.alive && t.pending.Some? && t.pending.value.reason == ForFutex && t.pending.value.phase == Waiting &&
           !Futex.IsWaiting(futex.Now(), t.tid) {
          threads := threads[i := t.(pending := Some(t.pending.value.(phase := Ready, result := 0)))];
        }
        i := i + 1;
      }
      assert threads == RefreshFutex(old(Now())).threads;
      SyncPendingBlocked();
    }

    method RefreshPendingSyscalls(ready: SysCall -> bool)
      requires Valid()
      modifies this`threads, blocked
      ensures Now() == RefreshPending(old(Now()), ready)
      ensures |threads| <= MAX_THREADS ==> TableShows(Now()) && AllFollowReadiness(Now(), ready)
    {
      RefreshFutexPending();
      ghost var woken := threads;
      var i := 0;
      while i < |threads|
        invariant 0 <= i <= |threads| && |threads| == |woken|
        invariant Now().(threads := woken) == RefreshFutex(old(Now()))
        invariant forall j :: 0 <= j < i ==> threads[j] == Rechecked(woken[j], ready)
        invariant forall j :: i <= j < |threads| ==> threads[j] == woken[j]
      {
        var t := threads[i];
        if t.alive && t.pending.Some? && t.pending.value.reason == ForIo && t.pending.value.phase != Ready {
          var phase := if ready(t.pending.value.call) then Retry else Waiting;
          threads := threads[i := t.(pending := Some(t.pending.value.(phase := phase)))];
        }
        i := i + 1;
      }
      assert threads == RefreshPending(old(Now()), ready).threads;
      SyncPendingBlocked();
      if |threads| <= MAX_THREADS {
        RefreshFollows(old(Now()), ready);
      }
    }

    method QueueIsLive(queue: seq<Futex.Waiter>) returns (ok: bool)
      ensures ok <==> forall i :: 0 <= i < |queue| ==> LiveTid(threads, queue[i].tid)
    {
      var i := 0;
      while i < |queue|
        invariant 0 <= i <= |queue| && forall j :: 0 <= j < i ==> LiveTid(threads, queue[j].tid)
      {
        var found := FindThread(queue[i].tid);
        if found.None? {
          return false;
        }
        i := i + 1;
      }
      ok := true;
    }

    /** The check a saved state must pass. */
    method ValidatePendingSyscalls() returns (ok: bool)
      ensures ok == Validated(threads, futex.Now())
    {
      var i := 0;
      while i < |threads|
        invariant 0 <= i <= |threads| && forall j :: 0 <= j < i ==> ThreadOk(futex.Now(), threads[j])
      {
        if !ThreadOk(futex.Now(), threads[i]) {
          return false;
        }
        i := i + 1;
      }
      var todo := futex.waiters.Keys;
      while todo != {}
        invariant todo <= futex.waiters.Keys
        invariant forall a, i :: a in futex.waiters.Keys - todo && 0 <= i < |futex.waiters[a]| ==>
                  LiveTid(threads, futex.waiters[a][i].tid)
        decreases |todo|
      {
        var a :| a in todo;
        ok := QueueIsLive(futex.waiters[a]);
        if !ok {
          return;
        }
        todo := todo - {a};
      }
      ok := true;
    }

    // ---- Handlers: `ok` is false where an exception ends the transition ----------------

    /** Suspend the actor's call and set its deadline. */
    method AdmitCall(physical: int, call: SysCall, reason: Reason, deadline: Option<PendingDeadline>) returns (ok: bool)
      requires Valid()
      modifies this`threads, blocked
      ensures var r := Admit(old(Now()), physical, call, reason, deadline);
              ok == r.Ok? && (ok ==> Now() == r.value)
    {
      ok := SuspendSyscall(physical, call, reason);
      if !ok || deadline.None? {
        return;
      }
      var k := FindActor(physical);
      SuspendKeepsActor(old(Now()), physical, call, reason);
      ok := SetPendingDeadline(threads[k.value].tid, deadline.value);
    }

    method AdmitCallUntil(physical: int, call: SysCall, reason: Reason, clockId: int, t: Timespec, relative: bool,
                          timeoutResult: Int64)
      returns (ok: bool)
      requires Valid()
      modifies this`threads, blocked
      ensures var r := AdmitUntil(old(Now()), physical, call, reason, clockId, t, relative, timeoutResult);
              ok == r.Ok? && (ok ==> Now() == r.value)
    {
      var d := MakePendingDeadline(clock, clockId, t.sec, t.nsec, relative, timeoutResult);
      if d.Err? {
        return false;
      }
      ok := AdmitCall(physical, call, reason, Some(d.value));
    }

    /** `answer` is the result handed back at once; without one the call is suspended. */
    ghost predicate Matches(r: Result<Handled>, ok: bool, answer: Option<int>)
      reads this, futex, blocked
    {
      && ok == r.Ok?
      && (ok ==> Now() == r.value.node && answer == if r.value.Answered? then Some(r.value.rval) else None)
    }

    method FinishIoCall(physical: int, t: Trap) returns (ok: bool, answer: Option<int>)
      requires Valid()
      modifies this`threads, blocked
      ensures Matches(HandleIo(old(Now()), physical, t), ok, answer)
    {
      answer := None;
      var suspend := IoShouldSuspend(t);
      if suspend.Err? {
        return false, None;
      }
      if !suspend.value {
        return true, Some(t.result);
      }
      var wait := IoTimeout(t);
      if wait.Err? {
        return false, None;
      }
      if wait.value.None? {
        ok := AdmitCall(physical, t.call, ForIo, None);
      } else {
        ok := AdmitCallUntil(physical, t.call, ForIo, CLOCK_MONOTONIC, wait.value.value, true, 0);
      }
    }

    method SleepCall(physical: int, t: Trap) returns (ok: bool, answer: Option<int>)
      requires Valid()
      modifies this`threads, blocked
      ensures Matches(HandleSleep(old(Now()), physical, t), ok, answer)
    {
      var a := t.call.args;
      var clockId := if t.call.nr == SYS_nanosleep then CLOCK_MONOTONIC else Int(a[0]);
      var flags := if t.call.nr == SYS_nanosleep then 0 else Int(a[1]);
      if clockId != CLOCK_REALTIME && clockId != CLOCK_MONOTONIC {
        return false, None;
      }
      if flags != 0 && flags != 1 {
        return true, Some(-EINVAL);
      }
      if t.timeout.None? {
        return true, Some(-EFAULT);
      }
      if !ValidTimespec(t.timeout.value) {
        return true, Some(-EINVAL);
      }
      var d := MakePendingDeadline(clock, clockId, t.timeout.value.sec, t.timeout.value.nsec, flags == 0, 0);
      if d.Err? {
        return false, None;
      }
      if Due(clock, d.value) {
        return true, Some(0);
      }
      ok := AdmitCall(physical, t.call, ForTimer, Some(d.value));
      answer := None;
    }

    method StartPselectTimer(physical: int, t: Trap) returns (ok: bool, answer: Option<int>)
      requires Valid()
      modifies this`threads, blocked
      ensures Matches(HandleSelect(old(Now()), physical, t), ok, answer)
    {
      var a := t.call.args;
      if (a[5] != 0 && !t.maskAccepted) || OverlapsScratch(a[4]) {
        return false, None;
      }
      if a[4] != 0 && t.timeout.None? {
        return true, Some(-EFAULT);
      }
      var wait := if a[4] == 0 then Timespec(0, 0) else t.timeout.value;
      if !ValidTimespec(wait) || Int(a[0]) < 0 {
        return true, Some(-EINVAL);
      }
      if Int(a[0]) != 0 && t.scan != 0 {
        return true, Some(t.scan);
      }
      answer := None;
      if a[4] == 0 {
        ok := AdmitCall(physical, t.call, ForTimer, None);
      } else if Zero(wait) {
        return true, Some(0);
      } else {
        ok := AdmitCallUntil(physical, t.call, ForTimer, CLOCK_MONOTONIC, wait, true, 0);
      }
    }

    method HandleFutexCall(physical: int, t: Trap) returns (ok: bool, answer: Option<int>)
      requires Valid()
      modifies this`threads, blocked, futex
      ensures Matches(HandleFutexTrap(old(Now()), physical, t), ok, answer)
    {
      if FutexTimed(t.call) {
        if t.timeout.None? {
          return true, Some(-EFAULT);
        }
        if !ValidTimespec(t.timeout.value) {
          return true, Some(-EINVAL);
        }
      }
      var k := FindActor(physical);
      if k.None? {
        return false, None;
      }
      var deadline := FutexDeadline(clock, t);
      if deadline.Err? {
        return false, None;
      }
      var result := futex.Dispatch(threads[k.value].tid, FutexCall(t));
      if result.None? {
        return false, None;
      }
      if Futex.IsWait(Low32(t.call.args[1])) && result.value == 0 {
        ok := AdmitCall(physical, t.call, ForFutex, deadline.value);
        answer := None;
        if !ok {
          return;
        }
      } else {
        ok, answer := true, Some(result.value);
      }
      RefreshFutexPending();
    }

    method HandleCall(physical: int, t: Trap) returns (ok: bool, answer: Option<int>)
      requires Valid()
      modifies this`threads, blocked, futex
      ensures Matches(Handle(old(Now()), physical, t), ok, answer)
    {
      var nr := t.call.nr;
      if SupportsPendingIo(nr) {
        ok, answer := FinishIoCall(physical, t);
      } else if nr == SYS_nanosleep || nr == SYS_clock_nanosleep {
        ok, answer := SleepCall(physical, t);
      } else if nr == SYS_pselect6 {
        ok, answer := StartPselectTimer(physical, t);
      } else if nr == SYS_futex {
        ok, answer := HandleFutexCall(physical, t);
      } else {
        ok, answer := true, Some(t.result);
      }
    }

    // ---- One action ------------------------------------------------------------------

    /** The object is as the action leaves it, and the caller learns of the call and return. */
    ghost predicate EndsAs(r: Result<Outcome>, actor: nat, ok: bool, made: Option<SysCall>, returned: Option<Return>)
      reads this, futex, blocked
    {
      ok == r.Ok? && (ok ==> r.value == Outcome(actor, Now(), made, returned))
    }

    method RunThread(k: nat, retry: Option<Int64>, t: Trap)
      returns (ok: bool, made: Option<SysCall>, returned: Option<Return>)
      requires Valid() && k < |threads|
      modifies this`threads, blocked, futex
      ensures EndsAs(RunActor(old(Now()), k, retry, t), k, ok, made, returned)
    {
      made, returned := None, None;
      var physical := threads[k].physical;
      var handled, result;
      ok, handled, result := CompletePendingSyscall(physical, retry);
      if !ok {
        return;
      }
      if handled {
        returned := if result.None? then None else Some(Return(result.value.0, result.value.1));
        return;
      }
      var answer;
      ok, answer := HandleCall(physical, t);
      made := Some(t.call);
      returned := if answer.None? then None else Some(Return(t.call, answer.value));
    }

    /** The timeout of a waiting thread: move the clock, finish the call, return its result. */
    method ExpireThread(k: nat, ready: SysCall -> bool) returns (ok: bool, returned: Option<Return>)
      requires Valid()
      modifies this`threads, this`clock, blocked, futex
      ensures EndsAs(ExpireActor(old(Now()), k, ready), k, ok, None, returned)
    {
      ok, returned := false, None;
      if !TimeoutOffered(Now(), k, ready) {
        return;
      }
      var moment := PendingTimeoutClock(clock, threads[k].pending.value.deadline.value);
      if moment.Err? {
        return;
      }
      clock := moment.value;
      var physical := threads[k].physical;
      var expired := ExpirePendingSyscall(threads[k].tid);
      if !expired {
        return;
      }
      var done, handled, result := CompletePendingSyscall(physical, None);
      if !done || !handled || result.None? {
        return;
      }
      ok, returned := true, Some(Return(result.value.0, result.value.1));
    }

    method Act(e: Event) returns (ok: bool, made: Option<SysCall>, returned: Option<Return>)
      requires Valid()
      modifies this`threads, this`clock, blocked, futex
      ensures EndsAs(Perform(old(Now()), e), e.actor, ok, made, returned)
    {
      ok, made, returned := false, None, None;
      if e.actor >= |threads| || !threads[e.actor].alive {
        return;
      }
      match e {
        case Run(k, retry, t, _) => ok, made, returned := RunThread(k, retry, t);
        case Expire(k, ready) => ok, returned := ExpireThread(k, ready);
      }
    }

    /** One whole action, in place.  What is promised of the state of the system holds of the
        object: its calls stay well formed, none is lost or repeated, and its queues stay in
        step with them if and only if no waiter is put at address zero. */
    method Transition(e: Event) returns (ok: bool, made: Option<SysCall>, returned: Option<Return>)
      requires Valid() && Base(Now())
      modifies this`threads, this`clock, blocked, futex
      ensures EndsAs(Step(old(Now()), e), e.actor, ok, made, returned)
      ensures ok ==> Base(Now()) && GoodOutcome(old(Now()), Outcome(e.actor, Now(), made, returned))
      ensures ok ==> TableShows(Now()) && AllFollowReadiness(Now(), e.ready)
      ensures ok && old(Inv(Now())) ==> (Inv(Now()) <==> OrderlyEvent(old(Now()), e))
    {
      ok, made, returned := Act(e);
      if !ok {
        return;
      }
      RefreshPendingSyscalls(e.ready);
      StepSound(old(Now()), e);
      StepFollowsReadiness(old(Now()), e);
      if old(Inv(Now())) {
        StepKeepsInvIff(old(Now()), e);
      }
    }
  }

  lemma SuspendKeepsActor(n: Node, physical: int, call: SysCall, reason: Reason)
    requires SuspendSyscall(n, physical, call, reason).Ok?
    ensures var m := SuspendSyscall(n, physical, call, reason).value;
            && ActorFrom(m.threads, physical, 0) == ActorFrom(n.threads, physical, 0)
            && forall i :: 0 <= i < |n.threads| ==> m.threads[i].tid == n.threads[i].tid
  {
    SameActor(n.threads, SuspendSyscall(n, physical, call, reason).value.threads, physical, 0);
  }

  lemma {:induction false} SameActor(a: seq<Thread>, b: seq<Thread>, physical: int, i: nat)
    requires |a| == |b| && i <= |a| && forall j :: 0 <= j < |a| ==>
             a[j].alive == b[j].alive && a[j].physical == b[j].physical
    ensures ActorFrom(a, physical, i) == ActorFrom(b, physical, i)
    decreases |a| - i
  {
    if i < |a| {
      SameActor(a, b, physical, i + 1);
    }
  }
}
