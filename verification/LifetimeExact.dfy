/** When a call is suspended, and what it is answered with otherwise. */
module LifetimeExact {
  import opened Common
  import opened Deadline
  import opened Pending
  import opened Lifetime
  import opened LifetimeSound
  import opened LifetimeTime
  import Futex

  /** The call is suspended for the given reason: no other thread changes, the actor waits in
      it, and the guest gets no answer yet. */
  predicate SuspendsFor(n: Node, k: nat, t: Trap, reason: Reason, r: Result<Handled>) {
    && r.Ok? && r.value.Suspended? && SuspendedAsAsked(n, k, t, r.value.node)
    && k < |n.threads| && r.value.node.futex == n.futex && r.value.node.clock == n.clock
    && r.value.node.threads ==
       n.threads[k := n.threads[k].(pending := r.value.node.threads[k].pending)]
    && r.value.node.threads[k].pending.value.reason == reason
  }

  lemma AdmitSuspends(n: Node, k: nat, t: Trap, reason: Reason, deadline: Option<PendingDeadline>)
    requires Idle(n, k) && DeadlineAllowed(t.call, reason, deadline)
    requires (reason == ForTimer <==> TimerCall(t.call.nr)) && WaitsAsAsked(n.clock, t, deadline) &&
             !CompleteAtOnce(t.call)
    ensures SuspendsFor(n, k, t, reason, Suspending(Admit(n, n.threads[k].physical, t.call, reason, deadline)))
  {
    AdmitForm(n, k, t.call, reason, deadline);
    AdmittedAsAsked(n, k, t, reason, deadline);
  }

  // ---- Input and output --------------------------------------------------------------

  /** read, write, accept, recvfrom and accept4, and the three ways to wait for epoll events. */
  predicate IoNumber(nr: int) {
    nr == 0 || nr == 1 || nr == 43 || nr == 45 || nr == 288 || nr == 232 || nr == 281 || nr == 441
  }

  /** The attempt found nothing, and the caller is prepared to wait: no events and a timeout
      other than zero, or data not there on a blocking descriptor and no `MSG_DONTWAIT`. */
  predicate WouldBlock(t: Trap) {
    var nr, a := t.call.nr, t.call.args;
    if nr == 232 || nr == 281 then t.result == 0 && Int(a[3]) != 0
    else if nr == 441 then t.result == 0 && (a[3] == 0 || t.timeout != Some(Timespec(0, 0)))
    else t.result == -11 && t.blocking && (nr == 45 ==> a[3] / 64 % 2 == 0)
  }

  /** An I/O call that would block is suspended; every other is answered with its result. */
  lemma IoSuspendsIff(n: Node, k: nat, t: Trap)
    requires Idle(n, k) && IoNumber(t.call.nr) && Readable(t)
    ensures var r := Handle(n, n.threads[k].physical, t);
            && (WouldBlock(t) <==> SuspendsFor(n, k, t, ForIo, r))
            && (!WouldBlock(t) <==> r == Ok(Answered(n, t.result)))
  {
    if WouldBlock(t) {
      match IoTimeout(t).value {
        case None => AdmitSuspends(n, k, t, ForIo, None);
        case Some(wait) =>
          MadeDeadline(n, CLOCK_MONOTONIC, wait, true, 0);
          MadeAsAsked(n.clock, CLOCK_MONOTONIC, wait, true, 0);
          var d := MakePendingDeadline(n.clock, CLOCK_MONOTONIC, wait.sec, wait.nsec, true, 0).value;
          AdmitSuspends(n, k, t, ForIo, Some(d));
      }
    }
  }

  // ---- Sleeps ------------------------------------------------------------------------

  /** The clock and the flags of a sleep; a plain one is relative to the monotonic clock. */
  function SleepClock(t: Trap): int { if t.call.nr == 35 then 1 else Int(t.call.args[0]) }
  function SleepFlags(t: Trap): int { if t.call.nr == 35 then 0 else Int(t.call.args[1]) }

  predicate KnownFlags(t: Trap) { SleepFlags(t) == 0 || SleepFlags(t) == 1 }

  predicate IsTime(t: Option<Timespec>) {
    t.Some? && t.value.sec >= 0 && 0 <= t.value.nsec < 1_000_000_000
  }

  /** The moment a sleep waits for is past already. */
  predicate SleepIsOver(now: Timeval, t: Trap) {
    Asked(t).Some? && Micros(now) * 1000 >= WaitEnd(now, Asked(t).value)
  }

  /** On another clock a sleep fails; with other flags, or a time that is none, it is answered
      with -22; where the time cannot be read with -14; with 0 where it is over already; and
      it is suspended in every other case. */
  lemma SleepSuspendsIff(n: Node, k: nat, t: Trap)
    requires Idle(n, k) && (t.call.nr == 35 || t.call.nr == 230) && Readable(t)
    ensures var r := Handle(n, n.threads[k].physical, t);
            && (r == Err <==> SleepClock(t) != 0 && SleepClock(t) != 1)
            && (r.Ok? ==>
                  && (r == Ok(Answered(n, -22)) <==> !KnownFlags(t) || (t.timeout.Some? && !IsTime(t.timeout)))
                  && (r == Ok(Answered(n, -14)) <==> KnownFlags(t) && t.timeout.None?)
                  && (r == Ok(Answered(n, 0)) <==> KnownFlags(t) && IsTime(t.timeout) && SleepIsOver(n.clock, t))
                  && (SuspendsFor(n, k, t, ForTimer, r) <==>
                        KnownFlags(t) && IsTime(t.timeout) && !SleepIsOver(n.clock, t)))
  {
    var clock, flags := SleepClock(t), SleepFlags(t);
    if 0 <= clock <= 1 && KnownFlags(t) && IsTime(t.timeout) {
      MadeDeadline(n, clock, t.timeout.value, flags == 0, 0);
      MadeAsAsked(n.clock, clock, t.timeout.value, flags == 0, 0);
      var d := MakePendingDeadline(n.clock, clock, t.timeout.value.sec, t.timeout.value.nsec, flags == 0, 0).value;
      DueIsComparison(n.clock, d);
      if !Due(n.clock, d) {
        AdmitSuspends(n, k, t, ForTimer, Some(d));
      }
    }
  }

  // ---- Select ------------------------------------------------------------------------

  /** The call is one that can be carried out: its signal mask is acceptable and its timeout
      does not lie in the page used for passing arguments. */
  predicate SelectAllowed(t: Trap) {
    (t.call.args[5] == 0 || t.maskAccepted) && !OverlapsScratch(t.call.args[4])
  }

  /** The timeout could be read or is not given, and it and the number of descriptors are in
      range. */
  predicate SelectFaults(t: Trap) { t.call.args[4] != 0 && t.timeout.None? }
  predicate SelectInvalid(t: Trap) {
    (t.call.args[4] != 0 && t.timeout.Some? && !IsTime(t.timeout)) || Int(t.call.args[0]) < 0
  }

  predicate SelectFinds(t: Trap) { Int(t.call.args[0]) != 0 && t.scan != 0 }
  predicate SelectPolls(t: Trap) { t.call.args[4] != 0 && t.timeout == Some(Timespec(0, 0)) }

  /** Ready descriptors are answered with their number; without any, a timeout of zero is
      answered with 0 and every other call is suspended. */
  lemma SelectSuspendsIff(n: Node, k: nat, t: Trap)
    requires Idle(n, k) && t.call.nr == 270 && SelectAllowed(t)
    ensures var r := Handle(n, n.threads[k].physical, t);
            && (SelectFaults(t) ==> r == Ok(Answered(n, -14)))
            && (!SelectFaults(t) && SelectInvalid(t) ==> r == Ok(Answered(n, -22)))
            && (!SelectFaults(t) && !SelectInvalid(t) ==>
                  && (SelectFinds(t) ==> r == Ok(Answered(n, t.scan)))
                  && (!SelectFinds(t) && SelectPolls(t) ==> r == Ok(Answered(n, 0))))
            && (SuspendsFor(n, k, t, ForTimer, r) <==>
                  !SelectFaults(t) && !SelectInvalid(t) && !SelectFinds(t) && !SelectPolls(t))
  {
    if !SelectFaults(t) && !SelectInvalid(t) && !SelectFinds(t) && !SelectPolls(t) {
      if t.call.args[4] == 0 {
        AdmitSuspends(n, k, t, ForTimer, None);
      } else {
        var wait := t.timeout.value;
        MadeDeadline(n, CLOCK_MONOTONIC, wait, true, 0);
        MadeAsAsked(n.clock, CLOCK_MONOTONIC, wait, true, 0);
        var d := MakePendingDeadline(n.clock, CLOCK_MONOTONIC, wait.sec, wait.nsec, true, 0).value;
        AdmitSuspends(n, k, t, ForTimer, Some(d));
      }
    }
  }

  // ---- Futex calls ---------------------------------------------------------------------

  /** The call does what the queues say, and is suspended exactly when it joins them. */
  predicate AsQueuesSay(c: Futex.Call, h: Result<Futex.Reply>, r: Result<Handled>) {
    && (r.Ok? <==> h.Ok?)
    && (r.Ok? ==>
          && r.value.node.futex == h.value.registry
          && (r.value.Suspended? <==> Futex.WaitWord(c) && h.value.result == 0)
          && (r.value.Answered? ==> r.value.rval == h.value.result))
  }

  lemma FutexFollowsQueues(n: Node, k: nat, t: Trap)
    requires Idle(n, k) && t.call.nr == SYS_futex && TimeoutRead(t)
    ensures AsQueuesSay(FutexCall(t), Futex.HandleFutex(n.futex, k + 1, FutexCall(t)),
                        HandleFutexTrap(n, n.threads[k].physical, t))
  {
    FindsThread(n.threads, k);
    Futex.WordsAgree(FutexCall(t));
    var op, h := Low32(t.call.args[1]), Futex.HandleFutex(n.futex, k + 1, FutexCall(t));
    if FutexTimed(t.call) {
      MadeDeadline(n, if Futex.RealtimeFlag(op) then CLOCK_REALTIME else CLOCK_MONOTONIC, t.timeout.value,
                   Futex.Command(op) == Futex.FUTEX_WAIT, -ETIMEDOUT);
    }
    if h.Ok? && Futex.IsWait(op) && h.value.result == 0 {
      var m := FutexWaitSound(n, k, t, h.value);
    }
  }

  /** A futex call whose timeout cannot be read is answered with -14, and one whose timeout is
      no time with -22; any other does what the queues say. */
  lemma FutexSuspendsIff(n: Node, k: nat, t: Trap)
    requires Idle(n, k) && t.call.nr == 202
    ensures var r, c := Handle(n, n.threads[k].physical, t), FutexCall(t);
            var timed := Futex.WaitWord(c) && t.call.args[3] != 0;
            if timed && t.timeout.None? then r == Ok(Answered(n, -14))
            else if timed && !IsTime(t.timeout) then r == Ok(Answered(n, -22))
            else AsQueuesSay(c, Futex.HandleFutex(n.futex, k + 1, c), r)
  {
    Futex.WordsAgree(FutexCall(t));
    if TimeoutRead(t) {
      FutexFollowsQueues(n, k, t);
    }
  }
}
