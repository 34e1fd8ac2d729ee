/** The two-thread bakery lock, one shared read or write per step, under sequential
    consistency and with unbounded tickets.  The maximum and the spin condition read the
    shared cells again each time they mention them. */
module Bakery {
  type Tid = i: int | 0 <= i < 2

  /** Where a thread stands. */
  datatype Pc =
    | Idle         // about to set its entering flag
    | ReadFirst    // about to read number[0] for the comparison in max
    | ReadSecond   // about to read number[1]
    | ReadMax      // about to read the larger one again
    | Take         // about to write its ticket
    | Leave        // about to clear its entering flag
    | WaitDoor     // spinning on the other's entering flag
    | SpinZero     // about to read the other's ticket, to test it against zero
    | SpinLess1    // about to read the other's ticket, for the comparison <
    | SpinLess2    // about to read its own ticket
    | SpinEqual1   // about to read the other's ticket, for the comparison ==
    | SpinEqual2   // about to read its own ticket
    | Critical     // between lock and unlock
    | Unlock       // about to clear its ticket

  /** The registers of a thread: the values read for max, and the other's ticket last read. */
  datatype Thread = Thread(pc: Pc, first: nat, second: nat, larger: nat, other: nat)

  datatype State = State(thread0: Thread, thread1: Thread, number0: nat, number1: nat, entering0: bool,
                         entering1: bool) {
    function Of(i: Tid): Thread { if i == 0 then thread0 else thread1 }
    function Number(i: Tid): nat { if i == 0 then number0 else number1 }
    function Entering(i: Tid): bool { if i == 0 then entering0 else entering1 }
    function At(i: Tid): Pc { Of(i).pc }
    function With(i: Tid, t: Thread): State { if i == 0 then this.(thread0 := t) else this.(thread1 := t) }
    function SetNumber(i: Tid, n: nat): State { if i == 0 then this.(number0 := n) else this.(number1 := n) }
    function SetEntering(i: Tid, b: bool): State { if i == 0 then this.(entering0 := b) else this.(entering1 := b) }
    function Goto(i: Tid, pc: Pc): State { With(i, Of(i).(pc := pc)) }
  }

  function Other(i: Tid): Tid { 1 - i }

  const INIT := State(Thread(Idle, 0, 0, 0, 0), Thread(Idle, 0, 0, 0, 0), 0, 0, false, false)

  /** One step of thread `i`.  Without `choosing` the uses of the entering flags are compiled
      out. */
  function Step(choosing: bool, s: State, i: Tid): State {
    var t, j := s.Of(i), Other(i);
    match t.pc
    case Idle => (if choosing then s.SetEntering(i, true) else s).Goto(i, ReadFirst)
    case ReadFirst => s.With(i, t.(first := s.number0, pc := ReadSecond))
    case ReadSecond => s.With(i, t.(second := s.number1, pc := ReadMax))
    case ReadMax => s.With(i, t.(larger := if t.first > t.second then s.number0 else s.number1, pc := Take))
    case Take => s.SetNumber(i, t.larger + 1).Goto(i, Leave)
    case Leave => (if choosing then s.SetEntering(i, false) else s).Goto(i, WaitDoor)
    case WaitDoor => if choosing && s.Entering(j) then s else s.Goto(i, SpinZero)
    case SpinZero => s.Goto(i, if s.Number(j) == 0 then Critical else SpinLess1)
    case SpinLess1 => s.With(i, t.(other := s.Number(j), pc := SpinLess2))
    case SpinLess2 => s.Goto(i, if t.other < s.Number(i) then SpinZero else SpinEqual1)
    case SpinEqual1 => s.With(i, t.(other := s.Number(j), pc := SpinEqual2))
    case SpinEqual2 => s.Goto(i, if t.other == s.Number(i) && j < i then SpinZero else Critical)
    case Critical => s.Goto(i, Unlock)
    case Unlock => s.SetNumber(i, 0).Goto(i, Idle)
  }

  /** The state after the threads of `schedule` have taken their steps, from `s`. */
  function RunFrom(choosing: bool, s: State, schedule: seq<Tid>): State {
    if schedule == [] then s
    else Step(choosing, RunFrom(choosing, s, schedule[..|schedule| - 1]), schedule[|schedule| - 1])
  }

  /** Between the return of lock and the write that unlocks. */
  predicate InCritical(s: State, i: Tid) {
    s.At(i) == Critical || s.At(i) == Unlock
  }

  // ---- Mutual exclusion -----------------------------------------------------------

  predicate InDoorway(pc: Pc) {
    pc == ReadFirst || pc == ReadSecond || pc == ReadMax || pc == Take || pc == Leave
  }

  /** The thread holds a ticket. */
  predicate HasTicket(pc: Pc) {
    !(pc == Idle || pc == ReadFirst || pc == ReadSecond || pc == ReadMax || pc == Take)
  }

  predicate Spinning(pc: Pc) {
    pc == SpinZero || pc == SpinLess1 || pc == SpinLess2 || pc == SpinEqual1 || pc == SpinEqual2
  }

  /** The thread has seen the other outside the doorway since it took its ticket. */
  predicate PastDoor(pc: Pc) {
    Spinning(pc) || pc == Critical || pc == Unlock
  }

  predicate CellsAgree(s: State, i: Tid) {
    && s.Entering(i) == InDoorway(s.At(i))
    && (s.Number(i) > 0 <==> HasTicket(s.At(i)))
  }

  /** What thread `j` has read so far in the doorway is the ticket of thread `i`. */
  predicate ReadsTicketOf(s: State, j: Tid, i: Tid) {
    var t := s.Of(j);
    match t.pc
    case ReadSecond => i == 0 ==> t.first == s.Number(i)
    case ReadMax => if i == 0 then t.first == s.Number(i) && t.second == 0 else t.first == 0 && t.second == s.Number(i)
    case Take => t.larger == s.Number(i)
    case _ => true
  }

  /** Thread `i` goes before thread `j`. */
  predicate Before(s: State, i: Tid, j: Tid) {
    s.Number(i) < s.Number(j) || (s.Number(i) == s.Number(j) && i < j)
  }

  /** How far thread `i`'s tests have shown that it goes first. */
  predicate TestsAgree(s: State, i: Tid, j: Tid) {
    HasTicket(s.At(j)) ==>
      var t := s.Of(i);
      match t.pc
      case SpinLess2 => t.other >= s.Number(i) ==> s.Number(j) >= s.Number(i)
      case SpinEqual1 => s.Number(j) >= s.Number(i)
      case SpinEqual2 => s.Number(j) >= s.Number(i) && (s.Number(j) == s.Number(i) ==> t.other == s.Number(i))
      case Critical => Before(s, i, j)
      case Unlock => Before(s, i, j)
      case _ => true
  }

  /** In the doorway a thread reads its own cell as zero. */
  predicate OwnReadsZero(s: State, i: Tid) {
    && (i == 0 && (s.At(i) == ReadSecond || s.At(i) == ReadMax) ==> s.Of(i).first == 0)
    && (i == 1 && s.At(i) == ReadMax ==> s.Of(i).second == 0)
  }

  predicate InvOf(s: State, i: Tid) {
    && CellsAgree(s, i) && OwnReadsZero(s, i)
    && (PastDoor(s.At(i)) ==> ReadsTicketOf(s, Other(i), i) && TestsAgree(s, i, Other(i)))
  }

  predicate Inv(s: State) {
    InvOf(s, 0) && InvOf(s, 1)
  }

  lemma StepKeepsCells(s: State, i: Tid)
    requires CellsAgree(s, i) && OwnReadsZero(s, i)
    ensures CellsAgree(Step(true, s, i), i) && OwnReadsZero(Step(true, s, i), i)
    ensures Step(true, s, i).Of(Other(i)) == s.Of(Other(i)) && Step(true, s, i).Number(Other(i)) == s.Number(Other(i))
  {
  }

  /** A thread that goes on testing learns no more than is true. */
  lemma StepKeepsOwnTests(s: State, i: Tid)
    requires CellsAgree(s, i) && CellsAgree(s, Other(i))
    requires PastDoor(s.At(i)) ==> TestsAgree(s, i, Other(i))
    ensures PastDoor(Step(true, s, i).At(i)) ==> TestsAgree(Step(true, s, i), i, Other(i))
  {
    StepKeepsFrame(s, i);
    StepKeepsCellsNumber(s, i);
  }

  lemma StepKeepsOwnReads(s: State, i: Tid)
    requires CellsAgree(s, i) && CellsAgree(s, Other(i))
    requires PastDoor(s.At(i)) ==> ReadsTicketOf(s, Other(i), i)
    ensures PastDoor(Step(true, s, i).At(i)) ==> ReadsTicketOf(Step(true, s, i), Other(i), i)
  {
    StepKeepsFrame(s, i);
    StepKeepsCellsNumber(s, i);
  }

  lemma StepKeepsOwn(s: State, i: Tid)
    requires Inv(s)
    ensures InvOf(Step(true, s, i), i)
  {
    assert InvOf(s, i) && InvOf(s, Other(i));
    StepKeepsCells(s, i);
    StepKeepsOwnTests(s, i);
    StepKeepsOwnReads(s, i);
  }

  /** While thread `j` is past the door, thread `i` reads its ticket in the doorway. */
  lemma StepKeepsReads(s: State, i: Tid)
    requires CellsAgree(s, i) && OwnReadsZero(s, i) && CellsAgree(s, Other(i))
    requires PastDoor(s.At(Other(i))) && ReadsTicketOf(s, i, Other(i))
    ensures ReadsTicketOf(Step(true, s, i), i, Other(i))
  {
  }

  /** What thread `j` has tested stays true when thread `i` moves. */
  lemma StepKeepsTests(s: State, i: Tid)
    requires CellsAgree(s, i) && CellsAgree(s, Other(i))
    requires PastDoor(s.At(Other(i))) && ReadsTicketOf(s, i, Other(i)) && TestsAgree(s, Other(i), i)
    ensures TestsAgree(Step(true, s, i), Other(i), i)
  {
    StepKeepsCellsNumber(s, i);
  }

  lemma StepKeepsOther(s: State, i: Tid)
    requires Inv(s)
    ensures InvOf(Step(true, s, i), Other(i))
  {
    var j := Other(i);
    StepKeepsFrame(s, i);
    assert InvOf(s, i) && InvOf(s, j);
    if PastDoor(s.At(j)) {
      StepKeepsReads(s, i);
      StepKeepsTests(s, i);
    }
  }

  lemma StepKeepsFrame(s: State, i: Tid)
    ensures Step(true, s, i).Of(Other(i)) == s.Of(Other(i))
    ensures Step(true, s, i).Number(Other(i)) == s.Number(Other(i)) &&
            Step(true, s, i).Entering(Other(i)) == s.Entering(Other(i))
  {
  }

  lemma StepKeepsInv(s: State, i: Tid)
    requires Inv(s)
    ensures Inv(Step(true, s, i))
  {
    StepKeepsOwn(s, i);
    StepKeepsOther(s, i);
  }

  /** Every interleaving keeps the invariant. */
  lemma {:induction false} RunKeepsInv(s: State, schedule: seq<Tid>)
    requires Inv(s)
    ensures Inv(RunFrom(true, s, schedule))
    decreases schedule
  {
    if schedule != [] {
      RunKeepsInv(s, schedule[..|schedule| - 1]);
      StepKeepsInv(RunFrom(true, s, schedule[..|schedule| - 1]), schedule[|schedule| - 1]);
    }
  }

  /** Mutual exclusion: in every interleaving, the threads are never between lock and unlock
      at once. */
  lemma MutualExclusion(schedule: seq<Tid>)
    ensures var s := RunFrom(true, INIT, schedule); !(InCritical(s, 0) && InCritical(s, 1))
  {
    RunKeepsInv(INIT, schedule);
  }

  // ---- First come, first served ---------------------------------------------------

  predicate Waiting(pc: Pc) {
    pc == WaitDoor || Spinning(pc)
  }

  /** Thread `j` came to the doorway after thread `i` left it: `j` is on its way to a larger
      ticket or spins behind `i`. */
  predicate Behind(s: State, j: Tid, i: Tid) {
    var t := s.Of(j);
    && Waiting(s.At(i))
    && ReadsTicketOf(s, j, i)
    && (HasTicket(t.pc) ==> s.Number(j) > s.Number(i))
    && (t.pc == Idle || InDoorway(t.pc) || t.pc == WaitDoor || t.pc == SpinZero || t.pc == SpinLess1
        || (t.pc == SpinLess2 && t.other == s.Number(i)))
  }

  /** A thread that starts on the doorway while the other waits is behind it. */
  lemma StartsBehind(s: State, i: Tid)
    requires Inv(s) && Waiting(s.At(i)) && s.At(Other(i)) == Idle
    ensures Behind(s, Other(i), i)
  {
  }

  lemma LeaderMoves(s: State, i: Tid)
    requires CellsAgree(s, i) && Behind(s, Other(i), i)
    ensures Step(true, s, i).At(i) == Critical || Behind(Step(true, s, i), Other(i), i)
  {
    StepKeepsFrame(s, i);
    StepKeepsCellsNumber(s, i);
  }

  lemma FollowerMoves(s: State, j: Tid)
    requires CellsAgree(s, j) && OwnReadsZero(s, j) && CellsAgree(s, Other(j)) && Behind(s, j, Other(j))
    ensures Behind(Step(true, s, j), j, Other(j))
  {
    StepKeepsFrame(s, j);
  }

  lemma StaysBehind(s: State, i: Tid, k: Tid)
    requires Inv(s) && Behind(s, Other(i), i)
    ensures Step(true, s, k).At(i) == Critical || Behind(Step(true, s, k), Other(i), i)
  {
    assert InvOf(s, i) && InvOf(s, Other(i));
    if k == i {
      LeaderMoves(s, i);
    } else {
      FollowerMoves(s, k);
    }
  }

  /** Thread `i` is not in its critical section at any point of the run. */
  predicate NeverEnters(s: State, schedule: seq<Tid>, i: Tid) {
    forall n :: 0 <= n <= |schedule| ==> !InCritical(RunFrom(true, s, schedule[..n]), i)
  }

  lemma {:induction false} BehindAllAlong(s: State, i: Tid, schedule: seq<Tid>)
    requires Inv(s) && Behind(s, Other(i), i) && NeverEnters(s, schedule, i)
    ensures Behind(RunFrom(true, s, schedule), Other(i), i)
    decreases schedule
  {
    if schedule != [] {
      var front := schedule[..|schedule| - 1];
      forall n | 0 <= n <= |front| ensures !InCritical(RunFrom(true, s, front[..n]), i) {
        assert front[..n] == schedule[..n];
      }
      BehindAllAlong(s, i, front);
      RunKeepsInv(s, front);
      StaysBehind(RunFrom(true, s, front), i, schedule[|schedule| - 1]);
      assert schedule[..|schedule|] == schedule;
    }
  }

  /** First come, first served: once thread `i` has left the doorway while the other has not
      begun it, the other does not enter before `i` has entered. */
  lemma FirstComeFirstServed(before: seq<Tid>, i: Tid, after: seq<Tid>)
    requires var s := RunFrom(true, INIT, before);
             Waiting(s.At(i)) && s.At(Other(i)) == Idle && NeverEnters(s, after, i)
    ensures !InCritical(RunFrom(true, RunFrom(true, INIT, before), after), Other(i))
  {
    RunKeepsInv(INIT, before);
    StartsBehind(RunFrom(true, INIT, before), i);
    BehindAllAlong(RunFrom(true, INIT, before), i, after);
  }

  // ---- Progress -------------------------------------------------------------------

  /** The other thread is in the doorway, or holds the ticket that goes first. */
  predicate Blocked(s: State, i: Tid) {
    && Waiting(s.At(i))
    && ((s.At(i) == WaitDoor && s.Entering(Other(i))) || (s.Number(Other(i)) != 0 && Before(s, Other(i), i)))
  }

  /** In every reachable state some thread can go on. */
  lemma NeverBothBlocked(schedule: seq<Tid>)
    ensures var s := RunFrom(true, INIT, schedule); !(Blocked(s, 0) && Blocked(s, 1))
  {
    RunKeepsInv(INIT, schedule);
  }

  /** Which thread to run so that some thread gets to its critical section. */
  function Choose(s: State): Tid {
    if s.At(0) == Unlock || InDoorway(s.At(0)) then 0
    else if s.At(1) == Unlock || InDoorway(s.At(1)) then 1
    else if s.At(1) == Idle then 0
    else if s.At(0) == Idle then 1
    else if Before(s, 0, 1) then 0
    else 1
  }

  /** The steps thread `i` needs, run as `Choose` says. */
  function Rank(s: State, i: Tid): nat {
    var t := s.Of(i);
    match t.pc
    case Unlock => 30
    case Idle => 20
    case ReadFirst => 19
    case ReadSecond => 18
    case ReadMax => 17
    case Take => 16
    case Leave => 15
    case WaitDoor => 14
    case SpinLess1 => if s.Number(Other(i)) == 0 then 11 else 7
    case SpinLess2 => if t.other < s.Number(i) then 10 else 6
    case SpinEqual2 => if t.other == s.Number(i) && Other(i) < i then 10 else 4
    case SpinZero => 9
    case SpinEqual1 => 5
    case Critical => 0
  }

  predicate SomeoneCritical(s: State) {
    s.At(0) == Critical || s.At(1) == Critical
  }

  lemma RunnerProgresses(s: State, i: Tid)
    requires CellsAgree(s, i) && s.At(i) != Critical && !Blocked(s, i)
    requires HasTicket(s.At(i)) && s.At(i) != Leave && s.At(i) != Unlock ==>
             s.Number(Other(i)) == 0 || Before(s, i, Other(i))
    ensures var s' := Step(true, s, i); Rank(s', i) < Rank(s, i)
    ensures s.At(i) == Unlock ==> Rank(Step(true, s, i), i) + 10 == Rank(s, i)
  {
  }

  /** The other thread's rank depends on this one's cell only through its being zero. */
  lemma BystanderRank(s: State, i: Tid)
    requires CellsAgree(s, i)
    ensures Rank(Step(true, s, i), Other(i)) <= Rank(s, Other(i)) + if s.At(i) == Unlock then 4 else 0
  {
    StepKeepsCellsNumber(s, i);
  }

  lemma StepKeepsCellsNumber(s: State, i: Tid)
    requires CellsAgree(s, i)
    ensures Step(true, s, i).Of(Other(i)) == s.Of(Other(i)) && Step(true, s, i).Number(Other(i)) == s.Number(Other(i))
    ensures s.At(i) != Take && s.At(i) != Unlock ==> Step(true, s, i).Number(i) == s.Number(i)
    ensures s.At(i) == Take ==> Step(true, s, i).Number(i) > 0
  {
  }

  lemma ChosenStepProgresses(s: State)
    requires Inv(s) && !SomeoneCritical(s)
    ensures var s' := Step(true, s, Choose(s));
            SomeoneCritical(s') || Rank(s', 0) + Rank(s', 1) < Rank(s, 0) + Rank(s, 1)
  {
    var i := Choose(s);
    RunnerProgresses(s, i);
    BystanderRank(s, i);
  }

  /** From every reachable state some schedule takes a thread into its critical section. */
  lemma {:induction false} CanEnter(s: State) returns (schedule: seq<Tid>)
    requires Inv(s)
    ensures SomeoneCritical(RunFrom(true, s, schedule)) && |schedule| <= Rank(s, 0) + Rank(s, 1)
    decreases Rank(s, 0) + Rank(s, 1)
  {
    schedule := [];
    if !SomeoneCritical(s) {
      var i, s' := Choose(s), Step(true, s, Choose(s));
      StepKeepsInv(s, i);
      ChosenStepProgresses(s);
      if SomeoneCritical(s') {
        schedule := [i];
        assert RunFrom(true, s, [i][..0]) == s;
      } else {
        var rest := CanEnter(s');
        schedule := [i] + rest;
        RunCons(s, i, rest);
      }
    }
  }

  lemma {:induction false} RunCons(s: State, i: Tid, rest: seq<Tid>)
    ensures RunFrom(true, s, [i] + rest) == RunFrom(true, Step(true, s, i), rest)
    decreases rest
  {
    if rest == [] {
      assert [i] + rest == [i] && [i][..0] == [];
    } else {
      RunCons(s, i, rest[..|rest| - 1]);
      assert ([i] + rest)[..|rest|] == [i] + rest[..|rest| - 1];
    }
  }

  /** Deadlock freedom over all runs. */
  lemma NoDeadlock(before: seq<Tid>) returns (after: seq<Tid>)
    ensures SomeoneCritical(RunFrom(true, RunFrom(true, INIT, before), after)) && |after| <= 60
  {
    RunKeepsInv(INIT, before);
    after := CanEnter(RunFrom(true, INIT, before));
  }

  // ---- What being blocked means ---------------------------------------------------

  /** Thread `i` takes `n` steps alone. */
  function Alone(s: State, i: Tid, n: nat): State {
    if n == 0 then s else Step(true, Alone(s, i, n - 1), i)
  }

  lemma BlockedSpins(s: State, i: Tid)
    requires Inv(s) && Blocked(s, i)
    ensures Blocked(Step(true, s, i), i)
  {
    assert InvOf(s, i) && InvOf(s, Other(i));
    StepKeepsFrame(s, i);
    StepKeepsCellsNumber(s, i);
  }

  lemma {:induction false} BlockedForGood(s: State, i: Tid, n: nat)
    requires Inv(s) && Blocked(s, i)
    ensures Inv(Alone(s, i, n)) && Blocked(Alone(s, i, n), i)
  {
    if n > 0 {
      BlockedForGood(s, i, n - 1);
      StepKeepsInv(Alone(s, i, n - 1), i);
      BlockedSpins(Alone(s, i, n - 1), i);
    }
  }

  /** A waiting thread that is not blocked gets on. */
  lemma UnblockedProgresses(s: State, i: Tid)
    requires Inv(s) && Waiting(s.At(i)) && !Blocked(s, i)
    ensures var s' := Step(true, s, i);
            Rank(s', i) < Rank(s, i) && (s'.At(i) == Critical || (Waiting(s'.At(i)) && !Blocked(s', i)))
  {
    assert InvOf(s, i) && InvOf(s, Other(i));
    RunnerProgresses(s, i);
    StepKeepsFrame(s, i);
    StepKeepsCellsNumber(s, i);
  }

  lemma {:induction false} AloneCons(s: State, i: Tid, n: nat)
    ensures Alone(Step(true, s, i), i, n) == Alone(s, i, n + 1)
  {
    if n > 0 {
      AloneCons(s, i, n - 1);
    }
  }

  lemma {:induction false} UnblockedEnters(s: State, i: Tid) returns (n: nat)
    requires Inv(s) && Waiting(s.At(i)) && !Blocked(s, i)
    ensures Alone(s, i, n).At(i) == Critical
    decreases Rank(s, i)
  {
    UnblockedProgresses(s, i);
    StepKeepsInv(s, i);
    var s' := Step(true, s, i);
    if s'.At(i) == Critical {
      n := 1;
      assert Alone(s, i, 0) == s;
    } else {
      n := UnblockedEnters(s', i);
      AloneCons(s, i, n);
      n := n + 1;
    }
  }

  /** A waiting thread is blocked if and only if no number of steps of its own takes it into
      its critical section. */
  lemma BlockedIffStuck(s: State, i: Tid)
    requires Inv(s) && Waiting(s.At(i))
    ensures Blocked(s, i) <==> forall n: nat :: Alone(s, i, n).At(i) != Critical
  {
    if Blocked(s, i) {
      forall n: nat ensures Alone(s, i, n).At(i) != Critical {
        BlockedForGood(s, i, n);
      }
    } else {
      var n := UnblockedEnters(s, i);
    }
  }

  // ---- Bounded overtaking -----------------------------------------------------------

  /** Whether the step of thread `k` takes thread `j` into its critical section. */
  function EntersNow(s: State, k: Tid, j: Tid): nat {
    if s.At(j) != Critical && Step(true, s, k).At(j) == Critical then 1 else 0
  }

  /** How often thread `j` enters its critical section in a run. */
  function Entries(s: State, schedule: seq<Tid>, j: Tid): nat {
    if schedule == [] then 0
    else
      var front, k := schedule[..|schedule| - 1], schedule[|schedule| - 1];
      Entries(s, front, j) + EntersNow(RunFrom(true, s, front), k, j)
  }

  /** How far thread `j` is with overtaking the waiting thread `i`: not yet in, in, or done
      and behind. */
  predicate Overtaking(s: State, i: Tid, entries: nat) {
    && Waiting(s.At(i)) && entries <= 1
    && (entries == 1 ==> InCritical(s, Other(i)) || Behind(s, Other(i), i))
  }

  lemma OwnStepWaits(s: State, i: Tid)
    requires Waiting(s.At(i))
    ensures Step(true, s, i).At(i) == Critical || Waiting(Step(true, s, i).At(i))
    ensures Step(true, s, i).Of(Other(i)) == s.Of(Other(i))
  {
  }

  lemma OvertakingOwn(s: State, i: Tid, entries: nat)
    requires Inv(s) && Overtaking(s, i, entries) && Step(true, s, i).At(i) != Critical
    ensures Overtaking(Step(true, s, i), i, entries)
  {
    OwnStepWaits(s, i);
    if entries == 1 && Behind(s, Other(i), i) {
      StaysBehind(s, i, i);
    }
  }

  lemma OvertakingOther(s: State, i: Tid, entries: nat)
    requires Inv(s) && Overtaking(s, i, entries)
    ensures var s', j := Step(true, s, Other(i)), Other(i);
            Overtaking(s', i, entries + EntersNow(s, j, j))
  {
    var j := Other(i);
    StepKeepsFrame(s, j);
    if entries == 1 {
      if Behind(s, j, i) {
        StaysBehind(s, i, j);
      } else if s.At(j) == Unlock {
        StepKeepsInv(s, j);
        StartsBehind(Step(true, s, j), i);
      }
    }
  }

  lemma OvertakingStep(s: State, i: Tid, k: Tid, entries: nat)
    requires Inv(s) && Overtaking(s, i, entries) && Step(true, s, k).At(i) != Critical
    ensures Overtaking(Step(true, s, k), i, entries + EntersNow(s, k, Other(i)))
  {
    if k == i {
      OvertakingOwn(s, i, entries);
      OwnStepWaits(s, i);
    } else {
      OvertakingOther(s, i, entries);
    }
  }

  /** A waiting thread is overtaken at most once: as long as it has not entered, the other
      enters no second time. */
  lemma {:induction false} OvertakenAtMostOnce(s: State, i: Tid, schedule: seq<Tid>)
    requires Inv(s) && Waiting(s.At(i)) && NeverEnters(s, schedule, i)
    ensures Entries(s, schedule, Other(i)) <= 1
    ensures Overtaking(RunFrom(true, s, schedule), i, Entries(s, schedule, Other(i)))
    decreases schedule
  {
    if schedule != [] {
      var front := schedule[..|schedule| - 1];
      forall n | 0 <= n <= |front| ensures !InCritical(RunFrom(true, s, front[..n]), i) {
        assert front[..n] == schedule[..n];
      }
      OvertakenAtMostOnce(s, i, front);
      RunKeepsInv(s, front);
      assert schedule[..|schedule|] == schedule;
      OvertakingStep(RunFrom(true, s, front), i, schedule[|schedule| - 1], Entries(s, front, Other(i)));
    }
  }

  // ---- No starvation ------------------------------------------------------------------

  function DoorRank(pc: Pc): nat {
    match pc
    case ReadFirst => 5
    case ReadSecond => 4
    case ReadMax => 3
    case Take => 2
    case _ => 1
  }

  /** How much thread `j` can still do before it can only spin behind the waiting thread `i`. */
  function Delay(s: State, i: Tid): nat {
    var j := Other(i);
    if s.At(j) == Idle then 7
    else if InDoorway(s.At(j)) then (if Behind(s, j, i) then 1 else 60) + DoorRank(s.At(j))
    else if s.At(j) == Critical then 29
    else if s.At(j) == Unlock then 28
    else if Before(s, i, j) then 1
    else 40 + Rank(s, j)
  }

  /** What is left to happen before thread `i` enters. */
  function Distance(s: State, i: Tid): nat {
    16 * Delay(s, i) + if Blocked(s, i) then 15 else Rank(s, i)
  }

  /** The thread whose next step brings thread `i` nearer to entering. */
  function Needed(s: State, i: Tid): Tid {
    if Blocked(s, i) then Other(i) else i
  }

  /** The delay depends on thread `i` only through its ticket and its waiting. */
  lemma SameDelay(s: State, i: Tid, s': State)
    requires Waiting(s.At(i)) && Waiting(s'.At(i)) && s'.Of(Other(i)) == s.Of(Other(i))
    requires s'.Number(i) == s.Number(i) && s'.Number(Other(i)) == s.Number(Other(i))
    ensures Delay(s', i) == Delay(s, i)
  {
  }

  lemma OwnStepNears(s: State, i: Tid)
    requires Inv(s) && Waiting(s.At(i)) && Step(true, s, i).At(i) != Critical
    ensures var s' := Step(true, s, i);
            && Waiting(s'.At(i)) && Delay(s', i) == Delay(s, i) && Blocked(s', i) == Blocked(s, i)
            && (!Blocked(s, i) ==> Rank(s', i) < Rank(s, i))
  {
    assert InvOf(s, i);
    OwnStepWaits(s, i);
    StepKeepsCellsNumber(s, i);
    SameDelay(s, i, Step(true, s, i));
    if Blocked(s, i) {
      BlockedSpins(s, i);
    } else {
      UnblockedProgresses(s, i);
    }
  }

  /** The other thread spins behind `i`. */
  lemma SpinsBehind(s: State, i: Tid)
    requires Inv(s) && Waiting(s.At(i)) && Waiting(s.At(Other(i))) && Before(s, i, Other(i))
    ensures var s' := Step(true, s, Other(i));
            Waiting(s'.At(Other(i))) && s'.Number(Other(i)) == s.Number(Other(i)) && !Blocked(s, i) && !Blocked(s', i)
  {
    var j := Other(i);
    assert InvOf(s, i) && InvOf(s, j);
    BlockedSpins(s, j);
    StepKeepsFrame(s, j);
    StepKeepsCellsNumber(s, j);
  }

  lemma OvertakerMoves(s: State, i: Tid)
    requires Inv(s) && Waiting(s.At(i)) && Waiting(s.At(Other(i))) && !Before(s, i, Other(i))
    ensures Delay(Step(true, s, Other(i)), i) < Delay(s, i)
  {
    var j := Other(i);
    assert InvOf(s, i) && InvOf(s, j);
    UnblockedProgresses(s, j);
    StepKeepsFrame(s, j);
    StepKeepsCellsNumber(s, j);
  }

  lemma DoorwayMoves(s: State, i: Tid)
    requires Inv(s) && Waiting(s.At(i)) && InDoorway(s.At(Other(i)))
    ensures Delay(Step(true, s, Other(i)), i) < Delay(s, i)
  {
    var j := Other(i);
    assert InvOf(s, i) && InvOf(s, j);
    StepKeepsFrame(s, j);
    if Behind(s, j, i) {
      FollowerMoves(s, j);
    }
  }

  lemma PasserMoves(s: State, i: Tid)
    requires Inv(s) && Waiting(s.At(i)) && !Waiting(s.At(Other(i)))
    ensures Delay(Step(true, s, Other(i)), i) < Delay(s, i)
  {
    var j := Other(i);
    if InDoorway(s.At(j)) {
      DoorwayMoves(s, i);
    } else if s.At(j) == Idle {
      assert InvOf(s, i) && InvOf(s, j);
      StartsBehind(s, i);
      FollowerMoves(s, j);
    }
  }

  lemma OtherStepNears(s: State, i: Tid)
    requires Inv(s) && Waiting(s.At(i))
    ensures var s' := Step(true, s, Other(i));
            && s'.Of(i) == s.Of(i)
            && (Delay(s', i) < Delay(s, i) ||
                (!Blocked(s, i) && !Blocked(s', i) && Delay(s', i) == Delay(s, i) && Rank(s', i) == Rank(s, i)))
  {
    var j := Other(i);
    StepKeepsFrame(s, j);
    if !Waiting(s.At(j)) {
      PasserMoves(s, i);
    } else if Before(s, i, j) {
      SpinsBehind(s, i);
    } else {
      OvertakerMoves(s, i);
    }
  }

  /** Thread `i` still waits and is no farther from entering than before, nearer if the thread
      that moved was the needed one. */
  predicate Approaches(s: State, i: Tid, k: Tid, s': State) {
    && Waiting(s'.At(i)) && Distance(s', i) <= Distance(s, i)
    && (k == Needed(s, i) ==> Distance(s', i) < Distance(s, i))
    && (Distance(s', i) == Distance(s, i) ==> Needed(s', i) == Needed(s, i))
  }

  /** A smaller delay outweighs the rank, which otherwise decides. */
  lemma Nearer(s: State, i: Tid, k: Tid, s': State)
    requires Waiting(s.At(i)) && Waiting(s'.At(i))
    requires || Delay(s', i) < Delay(s, i)
             || (&& Delay(s', i) == Delay(s, i) && Blocked(s', i) == Blocked(s, i)
                 && if Blocked(s, i) then k == i
                    else Rank(s', i) <= Rank(s, i) && (k == i ==> Rank(s', i) < Rank(s, i)))
    ensures Approaches(s, i, k, s')
  {
    assert Rank(s', i) <= 15;
  }

  /** No step takes a waiting thread farther from entering, and one of the needed thread takes
      it nearer. */
  lemma StepNears(s: State, i: Tid, k: Tid)
    requires Inv(s) && Waiting(s.At(i)) && Step(true, s, k).At(i) != Critical
    ensures Approaches(s, i, k, Step(true, s, k))
  {
    if k == i {
      OwnStepNears(s, i);
    } else {
      OtherStepNears(s, i);
    }
    Nearer(s, i, k, Step(true, s, k));
  }

  predicate Takes(schedule: nat -> Tid, trace: nat -> State, n: nat) {
    trace(n + 1) == Step(true, trace(n), schedule(n))
  }

  /** The states an endless schedule leads through. */
  ghost predicate IsTrace(schedule: nat -> Tid, trace: nat -> State) {
    trace(0) == INIT && forall n: nat :: Takes(schedule, trace, n)
  }

  ghost predicate RunsFrom(schedule: nat -> Tid, k: Tid, n: nat) {
    exists m: nat :: m >= n && schedule(m) == k
  }

  /** Each thread is run again and again. */
  ghost predicate Fair(schedule: nat -> Tid) {
    forall k: Tid, n: nat :: RunsFrom(schedule, k, n)
  }

  lemma {:induction false} TraceInv(schedule: nat -> Tid, trace: nat -> State, n: nat)
    requires IsTrace(schedule, trace)
    ensures Inv(trace(n))
  {
    if n > 0 {
      TraceInv(schedule, trace, n - 1);
      assert Takes(schedule, trace, n - 1);
      StepKeepsInv(trace(n - 1), schedule(n - 1));
    }
  }

  lemma TraceNears(schedule: nat -> Tid, trace: nat -> State, i: Tid, n: nat)
    requires IsTrace(schedule, trace) && Waiting(trace(n).At(i)) && trace(n + 1).At(i) != Critical
    ensures Waiting(trace(n + 1).At(i)) && Distance(trace(n + 1), i) <= Distance(trace(n), i)
    ensures schedule(n) == Needed(trace(n), i) ==> Distance(trace(n + 1), i) < Distance(trace(n), i)
    ensures Distance(trace(n + 1), i) == Distance(trace(n), i) ==> Needed(trace(n + 1), i) == Needed(trace(n), i)
  {
    TraceInv(schedule, trace, n);
    assert Takes(schedule, trace, n);
    StepNears(trace(n), i, schedule(n));
  }

  /** By the time the needed thread has run, the waiting thread is in or nearer. */
  lemma {:induction false} NearerBy(schedule: nat -> Tid, trace: nat -> State, i: Tid, n: nat, m: nat)
    returns (next: nat)
    requires IsTrace(schedule, trace) && Waiting(trace(n).At(i)) && n <= m && schedule(m) == Needed(trace(n), i)
    ensures next > n
    ensures trace(next).At(i) == Critical ||
            (Waiting(trace(next).At(i)) && Distance(trace(next), i) < Distance(trace(n), i))
    decreases m - n
  {
    next := n + 1;
    if trace(n + 1).At(i) != Critical {
      TraceNears(schedule, trace, i, n);
      if Distance(trace(n + 1), i) == Distance(trace(n), i) {
        next := NearerBy(schedule, trace, i, n + 1, m);
      }
    }
  }

  lemma {:induction false} WaitingEnters(schedule: nat -> Tid, trace: nat -> State, i: Tid, n: nat) returns (m: nat)
    requires IsTrace(schedule, trace) && Fair(schedule) && Waiting(trace(n).At(i))
    ensures m > n && trace(m).At(i) == Critical
    decreases Distance(trace(n), i)
  {
    var k := Needed(trace(n), i);
    assert RunsFrom(schedule, k, n);
    m :| m >= n && schedule(m) == k;
    m := NearerBy(schedule, trace, i, n, m);
    if trace(m).At(i) != Critical {
      m := WaitingEnters(schedule, trace, i, m);
    }
  }

  /** Outside the waiting loops every step of a thread's own leads on. */
  lemma OwnStepLeadsOn(s: State, i: Tid, k: Tid)
    requires s.At(i) != Critical && !Waiting(s.At(i))
    ensures if k == i then Rank(Step(true, s, k), i) < Rank(s, i) else Step(true, s, k).Of(i) == s.Of(i)
  {
  }

  lemma {:induction false} LeadsOnBy(schedule: nat -> Tid, trace: nat -> State, i: Tid, n: nat, m: nat)
    returns (next: nat)
    requires IsTrace(schedule, trace) && trace(n).At(i) != Critical && !Waiting(trace(n).At(i))
    requires n <= m && schedule(m) == i
    ensures next > n && Rank(trace(next), i) < Rank(trace(n), i)
    decreases m - n
  {
    assert Takes(schedule, trace, n);
    OwnStepLeadsOn(trace(n), i, schedule(n));
    next := n + 1;
    if schedule(n) != i {
      next := LeadsOnBy(schedule, trace, i, n + 1, m);
    }
  }

  /** No starvation: whenever both threads are run again and again, a thread gets in, from
      wherever it stands and whatever the order of the steps. */
  lemma {:induction false} NoStarvation(schedule: nat -> Tid, trace: nat -> State, i: Tid, n: nat) returns (m: nat)
    requires IsTrace(schedule, trace) && Fair(schedule)
    ensures m >= n && trace(m).At(i) == Critical
    decreases Rank(trace(n), i)
  {
    m := n;
    if Waiting(trace(n).At(i)) {
      m := WaitingEnters(schedule, trace, i, n);
    } else if trace(n).At(i) != Critical {
      assert RunsFrom(schedule, i, n);
      m :| m >= n && schedule(m) == i;
      m := LeadsOnBy(schedule, trace, i, n, m);
      m := NoStarvation(schedule, trace, i, m);
    }
  }

  // ---- Without the entering flags -------------------------------------------------

  /** Extend a schedule by one step. */
  lemma Extend(schedule: seq<Tid>, s: State, i: Tid) returns (schedule': seq<Tid>, s': State)
    requires RunFrom(false, INIT, schedule) == s
    ensures schedule' == schedule + [i] && s' == Step(false, s, i) && RunFrom(false, INIT, schedule') == s'
  {
    schedule', s' := schedule + [i], Step(false, s, i);
    assert schedule'[..|schedule'| - 1] == schedule;
  }

  /** The flags are needed: with them compiled out both threads can take ticket 1 and enter. */
  lemma ExclusionNeedsChoosing() returns (schedule: seq<Tid>)
    ensures var s := RunFrom(false, INIT, schedule); s.At(0) == Critical && s.At(1) == Critical
  {
    var s := INIT;
    schedule := [];
    schedule, s := Extend(schedule, s, 0);
    schedule, s := Extend(schedule, s, 0);
    schedule, s := Extend(schedule, s, 0);
    schedule, s := Extend(schedule, s, 0);
    assert s.thread0 == Thread(Take, 0, 0, 0, 0);
    schedule, s := Extend(schedule, s, 1);
    schedule, s := Extend(schedule, s, 1);
    schedule, s := Extend(schedule, s, 1);
    schedule, s := Extend(schedule, s, 1);
    schedule, s := Extend(schedule, s, 1);
    schedule, s := Extend(schedule, s, 1);
    schedule, s := Extend(schedule, s, 1);
    schedule, s := Extend(schedule, s, 1);
    assert s == State(Thread(Take, 0, 0, 0, 0), Thread(Critical, 0, 0, 0, 0), 0, 1, false, false);
    schedule, s := Extend(schedule, s, 0);
    schedule, s := Extend(schedule, s, 0);
    schedule, s := Extend(schedule, s, 0);
    schedule, s := Extend(schedule, s, 0);
    schedule, s := Extend(schedule, s, 0);
    schedule, s := Extend(schedule, s, 0);
    schedule, s := Extend(schedule, s, 0);
    schedule, s := Extend(schedule, s, 0);
  }
}
