/** The futex wait queues: waiters in order of arrival at each address, and a second index
    from a thread to the address it waits on. */
module Futex {
  import opened Common

  type Address = a: int | 0 <= a < 0x1_0000_0000_0000_0000
  type Tid = int

  datatype Waiter = Waiter(tid: Tid, uaddr: Address, expected: int, bitset: bv32, isPrivate: bool)

  /** `queues` is ordered by arrival; `where` is the fast lookup. */
  datatype Registry = Registry(queues: map<Address, seq<Waiter>>, where: map<Tid, Address>)

  const EMPTY := Registry(map[], map[])

  /** Address zero stands for "not waiting". */
  predicate IsWaiting(f: Registry, tid: Tid) {
    tid in f.where && f.where[tid] != 0
  }

  predicate Holds(queue: seq<Waiter>, tid: Tid) {
    exists i :: 0 <= i < |queue| && queue[i].tid == tid
  }

  predicate DistinctTids(queue: seq<Waiter>) {
    forall i, j :: 0 <= i < j < |queue| ==> queue[i].tid != queue[j].tid
  }

  predicate QueueAt(queue: seq<Waiter>, a: Address) {
    a != 0 && queue != [] && DistinctTids(queue) && forall i :: 0 <= i < |queue| ==> queue[i].uaddr == a
  }

  /** The two indexes agree: each waiting thread is in exactly one queue, once, at the
      address the lookup gives; no queue is empty or at address zero. */
  ghost predicate Consistent(f: Registry) {
    && (forall a :: a in f.queues ==> QueueAt(f.queues[a], a))
    && (forall a, t :: a in f.queues && Holds(f.queues[a], t) ==> t in f.where && f.where[t] == a)
    && (forall t :: t in f.where ==> f.where[t] in f.queues && Holds(f.queues[f.where[t]], t))
  }

  // ---- Taking the first waiters that match ----------------------------------------

  /** The first `n` waiters of the queue that match. */
  function Taken(queue: seq<Waiter>, n: nat, matches: Waiter -> bool): seq<Waiter> {
    if queue == [] || n == 0 then []
    else if matches(queue[0]) then [queue[0]] + Taken(queue[1..], n - 1, matches)
    else Taken(queue[1..], n, matches)
  }

  /** The queue without them, in unchanged order. */
  function Left(queue: seq<Waiter>, n: nat, matches: Waiter -> bool): seq<Waiter> {
    if queue == [] || n == 0 then queue
    else if matches(queue[0]) then Left(queue[1..], n - 1, matches)
    else [queue[0]] + Left(queue[1..], n, matches)
  }

  function Matching(queue: seq<Waiter>, matches: Waiter -> bool): nat {
    if queue == [] then 0 else (if matches(queue[0]) then 1 else 0) + Matching(queue[1..], matches)
  }

  lemma {:induction false} TakenCount(queue: seq<Waiter>, n: nat, matches: Waiter -> bool)
    ensures |Taken(queue, n, matches)| == if n <= Matching(queue, matches) then n else Matching(queue, matches)
    ensures |Taken(queue, n, matches)| + |Left(queue, n, matches)| == |queue|
    decreases queue
  {
    if queue != [] && n != 0 {
      TakenCount(queue[1..], if matches(queue[0]) then n - 1 else n, matches);
    }
  }

  lemma HoldsCons(w: Waiter, rest: seq<Waiter>, t: Tid)
    ensures Holds([w] + rest, t) <==> w.tid == t || Holds(rest, t)
  {
    if w.tid == t {
      assert ([w] + rest)[0].tid == t;
    } else if Holds(rest, t) {
      var i :| 0 <= i < |rest| && rest[i].tid == t;
      assert ([w] + rest)[i + 1].tid == t;
    }
  }

  lemma HoldsSplit(queue: seq<Waiter>, t: Tid)
    requires queue != []
    ensures Holds(queue, t) <==> queue[0].tid == t || Holds(queue[1..], t)
  {
    assert queue == [queue[0]] + queue[1..];
    HoldsCons(queue[0], queue[1..], t);
  }

  /** A thread of the queue is taken or left, not both. */
  lemma {:induction false} TakenOrLeft(queue: seq<Waiter>, n: nat, matches: Waiter -> bool, t: Tid)
    requires DistinctTids(queue)
    ensures Holds(queue, t) <==> Holds(Taken(queue, n, matches), t) || Holds(Left(queue, n, matches), t)
    ensures !(Holds(Taken(queue, n, matches), t) && Holds(Left(queue, n, matches), t))
    decreases queue
  {
    if queue != [] && n != 0 {
      var w, rest := queue[0], queue[1..];
      var n' := if matches(w) then n - 1 else n;
      TakenOrLeft(rest, n', matches, t);
      HoldsSplit(queue, t);
      HoldsCons(w, Taken(rest, n', matches), t);
      HoldsCons(w, Left(rest, n', matches), t);
    }
  }

  /** Every taken or left waiter is one of the queue's, and the order is kept. */
  lemma {:induction false} LeftKeepsQueue(queue: seq<Waiter>, n: nat, matches: Waiter -> bool)
    requires DistinctTids(queue)
    ensures DistinctTids(Left(queue, n, matches)) && DistinctTids(Taken(queue, n, matches))
    ensures forall w :: w in Left(queue, n, matches) ==> w in queue
    ensures forall w :: w in Taken(queue, n, matches) ==> w in queue && matches(w)
    decreases queue
  {
    if queue != [] && n != 0 {
      var rest := queue[1..];
      var n' := if matches(queue[0]) then n - 1 else n;
      LeftKeepsQueue(rest, n', matches);
      assert queue == [queue[0]] + rest;
      assert forall w :: w in rest ==> w.tid != queue[0].tid;
    }
  }

  /** First come, first woken: a waiter is taken only if every matching waiter before it is. */
  lemma {:induction false} TakenInOrder(queue: seq<Waiter>, n: nat, matches: Waiter -> bool, i: nat, j: nat)
    requires DistinctTids(queue) && i < j < |queue| && matches(queue[i])
    requires queue[j] in Taken(queue, n, matches)
    ensures queue[i] in Taken(queue, n, matches)
    decreases queue
  {
    var rest := queue[1..];
    var n' := if matches(queue[0]) then n - 1 else n;
    assert queue == [queue[0]] + rest;
    if i > 0 {
      assert rest[i - 1] == queue[i] && rest[j - 1] == queue[j] && queue[j] != queue[0];
      assert DistinctTids(rest) && queue[j] in Taken(rest, n', matches);
      TakenInOrder(rest, n', matches, i - 1, j - 1);
    }
  }

  function Least(a: nat, b: nat): nat { if a < b then a else b }

  /** Where each waiter goes: with fewer than `n` matching ones before it, a matching waiter is
      taken, in its turn; every other moves up by the number taken before it. */
  lemma {:induction false} TakenLeftAt(queue: seq<Waiter>, n: nat, matches: Waiter -> bool, i: nat)
    requires i < |queue|
    ensures var before := Matching(queue[..i], matches);
            if matches(queue[i]) && before < n then
              before < |Taken(queue, n, matches)| && Taken(queue, n, matches)[before] == queue[i]
            else
              0 <= i - Least(before, n) < |Left(queue, n, matches)| &&
              Left(queue, n, matches)[i - Least(before, n)] == queue[i]
    decreases queue
  {
    if n == 0 {
      assert Left(queue, n, matches) == queue;
    } else if i > 0 {
      var rest := queue[1..];
      assert queue[..i][1..] == rest[..i - 1] && rest[i - 1] == queue[i];
      TakenLeftAt(rest, if matches(queue[0]) then n - 1 else n, matches, i - 1);
    }
  }

  lemma {:induction false} MatchingAgree(queue: seq<Waiter>, m: Waiter -> bool, m': Waiter -> bool)
    requires forall w :: w in queue ==> (m(w) <==> m'(w))
    ensures Matching(queue, m) == Matching(queue, m')
    decreases queue
  {
    if queue != [] {
      MatchingAgree(queue[1..], m, m');
    }
  }

  lemma {:induction false} TakenAgree(queue: seq<Waiter>, n: nat, m: Waiter -> bool, m': Waiter -> bool)
    requires forall w :: w in queue ==> (m(w) <==> m'(w))
    ensures Taken(queue, n, m) == Taken(queue, n, m') && Left(queue, n, m) == Left(queue, n, m')
    decreases queue
  {
    if queue != [] && n != 0 {
      TakenAgree(queue[1..], if m(queue[0]) then n - 1 else n, m, m');
    }
  }

  /** Taking in two goes is taking at once. */
  lemma {:induction false} TakenTwice(queue: seq<Waiter>, n: nat, k: nat, matches: Waiter -> bool)
    ensures Taken(queue, n + k, matches) == Taken(queue, n, matches) + Taken(Left(queue, n, matches), k, matches)
    decreases queue
  {
    if queue == [] || n == 0 {
      assert [] + Taken(queue, k, matches) == Taken(queue, k, matches);
    } else if matches(queue[0]) {
      TakenTwice(queue[1..], n - 1, k, matches);
    } else {
      TakenTwice(queue[1..], n, k, matches);
      TakenSkips(queue[0], Left(queue[1..], n, matches), k, matches);
    }
  }

  lemma {:induction false} LeftTwice(queue: seq<Waiter>, n: nat, k: nat, matches: Waiter -> bool)
    ensures Left(queue, n + k, matches) == Left(Left(queue, n, matches), k, matches)
    decreases queue
  {
    if queue != [] && n != 0 {
      if matches(queue[0]) {
        LeftTwice(queue[1..], n - 1, k, matches);
      } else {
        LeftTwice(queue[1..], n, k, matches);
        LeftSkips(queue[0], Left(queue[1..], n, matches), k, matches);
      }
    }
  }

  lemma LeftSkips(w: Waiter, queue: seq<Waiter>, k: nat, matches: Waiter -> bool)
    requires !matches(w)
    ensures Left([w] + queue, k, matches) == [w] + Left(queue, k, matches)
  {
    assert ([w] + queue)[1..] == queue;
  }

  lemma TakenSkips(w: Waiter, queue: seq<Waiter>, k: nat, matches: Waiter -> bool)
    requires !matches(w)
    ensures Taken([w] + queue, k, matches) == Taken(queue, k, matches)
  {
    assert ([w] + queue)[1..] == queue;
  }

  /** A waiter is taken exactly if it matches and fewer than `n` before it do. */
  predicate InTurn(queue: seq<Waiter>, n: nat, matches: Waiter -> bool, i: nat)
    requires i < |queue|
  {
    matches(queue[i]) && Matching(queue[..i], matches) < n
  }

  lemma TakenInTurn(queue: seq<Waiter>, n: nat, matches: Waiter -> bool, i: nat)
    requires DistinctTids(queue) && i < |queue|
    ensures Holds(Taken(queue, n, matches), queue[i].tid) <==> InTurn(queue, n, matches, i)
  {
    TakenLeftAt(queue, n, matches, i);
    TakenOrLeft(queue, n, matches, queue[i].tid);
  }

  // ---- Operations -----------------------------------------------------------------

  function Put(queues: map<Address, seq<Waiter>>, a: Address, queue: seq<Waiter>): map<Address, seq<Waiter>> {
    if queue == [] then queues - {a} else queues[a := queue]
  }

  function QueueOf(f: Registry, a: Address): seq<Waiter> {
    if a in f.queues then f.queues[a] else []
  }

  function TidsOf(queue: seq<Waiter>): set<Tid> {
    set i | 0 <= i < |queue| :: queue[i].tid
  }

  function AddWaiter(f: Registry, w: Waiter): Registry {
    Registry(f.queues[w.uaddr := QueueOf(f, w.uaddr) + [w]], f.where[w.tid := w.uaddr])
  }

  /** Wake up to `n` matching waiters at an address. */
  function Wake(f: Registry, a: Address, n: nat, matches: Waiter -> bool): Registry {
    var queue := QueueOf(f, a);
    if queue == [] then f
    else Registry(Put(f.queues, a, Left(queue, n, matches)), f.where - TidsOf(Taken(queue, n, matches)))
  }

  /** Remove a thread from the queue it is looked up in.  Where the thread is not in that
      queue, the access alone leaves an empty one behind. */
  function WakeThread(f: Registry, tid: Tid): Registry {
    if !IsWaiting(f, tid) then f
    else
      var a := f.where[tid];
      if Holds(QueueOf(f, a), tid) then Wake(f, a, 1, (w: Waiter) => w.tid == tid)
      else f.(queues := f.queues[a := QueueOf(f, a)])
  }

  function MoveTo(a: Address, queue: seq<Waiter>): seq<Waiter> {
    seq(|queue|, (i: int) requires 0 <= i < |queue| => queue[i].(uaddr := a))
  }

  /** Move up to `n` matching waiters to the end of the queue at another address. */
  function Move(f: Registry, from: Address, to: Address, n: nat, matches: Waiter -> bool): Registry {
    var taken, left := Taken(QueueOf(f, from), n, matches), Left(QueueOf(f, from), n, matches);
    if from == to || from !in f.queues then f
    else Registry(Put(Put(f.queues, from, left), to, QueueOf(f, to) + MoveTo(to, taken)),
                  f.where + (map t | t in TidsOf(taken) :: to))
  }

  lemma TidsOfHolds(queue: seq<Waiter>, t: Tid)
    ensures t in TidsOf(queue) <==> Holds(queue, t)
  {
  }

  lemma WakeConsistent(f: Registry, a: Address, n: nat, matches: Waiter -> bool)
    requires Consistent(f)
    ensures Consistent(Wake(f, a, n, matches))
    ensures forall t: Tid :: IsWaiting(Wake(f, a, n, matches), t) <==>
                             IsWaiting(f, t) && !Holds(Taken(QueueOf(f, a), n, matches), t)
  {
    var queue, f' := QueueOf(f, a), Wake(f, a, n, matches);
    var taken, left := Taken(queue, n, matches), Left(queue, n, matches);
    LeftKeepsQueue(queue, n, matches);
    forall t: Tid
      ensures Holds(queue, t) <==> Holds(taken, t) || Holds(left, t)
      ensures !(Holds(taken, t) && Holds(left, t))
      ensures t in TidsOf(taken) <==> Holds(taken, t)
    {
      TakenOrLeft(queue, n, matches, t);
    }
    forall i | 0 <= i < |left| ensures left[i].uaddr == a {
      assert left[i] in queue;
    }
    forall b, t | b in f'.queues && Holds(f'.queues[b], t) ensures t in f'.where && f'.where[t] == b {
      assert b in f.queues && Holds(f.queues[b], t);
      assert Holds(queue, t) ==> a in f.queues && f.where[t] == a;
    }
    forall t | t in f'.where ensures f'.where[t] in f'.queues && Holds(f'.queues[f'.where[t]], t) {
      var b := f.where[t];
      assert Holds(f.queues[b], t);
      if b == a {
        assert Holds(left, t);
      }
    }
  }

  lemma AddConsistent(f: Registry, w: Waiter)
    requires Consistent(f) && !IsWaiting(f, w.tid) && w.uaddr != 0
    ensures Consistent(AddWaiter(f, w))
    ensures forall t: Tid :: IsWaiting(AddWaiter(f, w), t) <==> IsWaiting(f, t) || t == w.tid
  {
    var f', queue := AddWaiter(f, w), QueueOf(f, w.uaddr);
    assert w.tid !in f.where;
    assert !Holds(queue, w.tid);
    forall t ensures Holds(queue + [w], t) <==> Holds(queue, t) || t == w.tid {
      HoldsSnoc(queue, w, t);
    }
    forall t | t in f'.where ensures f'.where[t] in f'.queues && Holds(f'.queues[f'.where[t]], t) {
      assert t != w.tid ==> Holds(f.queues[f.where[t]], t);
    }
  }

  lemma HoldsSnoc(queue: seq<Waiter>, w: Waiter, t: Tid)
    ensures Holds(queue + [w], t) <==> Holds(queue, t) || t == w.tid
  {
    HoldsAppend(queue, [w], t);
    assert Holds([w], t) <==> [w][0].tid == t;
  }

  lemma HoldsAppend(a: seq<Waiter>, b: seq<Waiter>, t: Tid)
    ensures Holds(a + b, t) <==> Holds(a, t) || Holds(b, t)
  {
    if Holds(a, t) {
      var i :| 0 <= i < |a| && a[i].tid == t;
      assert (a + b)[i].tid == t;
    }
    if Holds(b, t) {
      var i :| 0 <= i < |b| && b[i].tid == t;
      assert (a + b)[|a| + i].tid == t;
    }
  }

  /** Waking one thread removes exactly that thread. */
  lemma WakeThreadConsistent(f: Registry, tid: Tid)
    requires Consistent(f)
    ensures Consistent(WakeThread(f, tid))
    ensures forall t: Tid :: IsWaiting(WakeThread(f, tid), t) <==> IsWaiting(f, t) && t != tid
  {
    if IsWaiting(f, tid) {
      var a := f.where[tid];
      var same := (w: Waiter) => w.tid == tid;
      WakeConsistent(f, a, 1, same);
      forall t ensures Holds(Taken(f.queues[a], 1, same), t) <==> t == tid {
        TakenIsThread(f.queues[a], tid, t);
      }
    }
  }

  lemma {:induction false} TakenIsThread(queue: seq<Waiter>, tid: Tid, t: Tid)
    requires Holds(queue, tid)
    ensures Holds(Taken(queue, 1, (w: Waiter) => w.tid == tid), t) <==> t == tid
    decreases queue
  {
    var same := (w: Waiter) => w.tid == tid;
    HoldsSplit(queue, tid);
    if queue[0].tid == tid {
      assert Taken(queue, 1, same) == [queue[0]] + Taken(queue[1..], 0, same);
      HoldsCons(queue[0], [], t);
    } else {
      TakenIsThread(queue[1..], tid, t);
    }
  }

  /** Moving waiters keeps the indexes consistent and every waiter waiting, unless the
      address moved to is zero, which the lookup cannot tell from not waiting. */
  lemma MoveConsistent(f: Registry, from: Address, to: Address, n: nat, matches: Waiter -> bool)
    requires Consistent(f) && to != 0
    ensures Consistent(Move(f, from, to, n, matches))
    ensures forall t: Tid :: IsWaiting(Move(f, from, to, n, matches), t) <==> IsWaiting(f, t)
  {
    var queue := QueueOf(f, from);
    var taken, left := Taken(queue, n, matches), Left(queue, n, matches);
    if taken == [] {
      MoveNobody(f, from, to, n, matches);
    } else if from != to {
      var f' := Move(f, from, to, n, matches);
      var target := QueueOf(f, to) + MoveTo(to, taken);
      LeftKeepsQueue(queue, n, matches);
      forall t: Tid
        ensures ThreadMoved(f, from, to, taken, left, target, t)
      {
        TakenOrLeft(queue, n, matches, t);
        HoldsAppend(QueueOf(f, to), MoveTo(to, taken), t);
        HoldsMoved(to, taken, t);
      }
      assert f'.queues == Put(f.queues, from, left)[to := target];
      MovedWhere(f, from, to, taken);
      MovedTargetOk(f, from, to, taken);
      MovedLeftOk(queue, left, from);
      MovedLookup(f, f', from, to, taken, left, target);
    }
  }

  /** Where nobody is moved nothing changes. */
  lemma MoveNobody(f: Registry, from: Address, to: Address, n: nat, matches: Waiter -> bool)
    requires Consistent(f) && Taken(QueueOf(f, from), n, matches) == []
    ensures Move(f, from, to, n, matches) == f
  {
    var queue := QueueOf(f, from);
    TakenNone(queue, n, matches);
    assert QueueOf(f, to) + MoveTo(to, []) == QueueOf(f, to);
    var none := map t | t in TidsOf([]) :: to;
    assert f.where + none == f.where;
    if from in f.queues {
      assert Put(f.queues, from, queue) == f.queues;
      assert to in f.queues ==> QueueAt(f.queues[to], to);
      assert Put(f.queues, to, QueueOf(f, to)) == f.queues;
    }
  }

  lemma {:induction false} TakenNone(queue: seq<Waiter>, n: nat, matches: Waiter -> bool)
    requires Taken(queue, n, matches) == []
    ensures Left(queue, n, matches) == queue
    decreases queue
  {
    if queue != [] && n != 0 {
      TakenNone(queue[1..], n, matches);
    }
  }

  lemma MovedWhere(f: Registry, from: Address, to: Address, taken: seq<Waiter>)
    requires Consistent(f) && from in f.queues && forall w :: w in taken ==> w in f.queues[from]
    ensures f.where + (map t | t in TidsOf(taken) :: to)
            == map t | t in f.where.Keys :: if t in TidsOf(taken) then to else f.where[t]
  {
    forall t | t in TidsOf(taken) ensures t in f.where {
      var i :| 0 <= i < |taken| && taken[i].tid == t;
      assert taken[i] in f.queues[from];
      assert Holds(f.queues[from], t);
    }
  }

  lemma HoldsMoved(a: Address, queue: seq<Waiter>, t: Tid)
    ensures Holds(MoveTo(a, queue), t) <==> Holds(queue, t)
  {
    if Holds(queue, t) {
      var i :| 0 <= i < |queue| && queue[i].tid == t;
      assert MoveTo(a, queue)[i].tid == t;
    }
  }

  lemma MovedTargetOk(f: Registry, from: Address, to: Address, taken: seq<Waiter>)
    requires Consistent(f) && from in f.queues && from != to && to != 0 && taken != [] && DistinctTids(taken)
    requires forall w :: w in taken ==> w in f.queues[from]
    ensures QueueAt(QueueOf(f, to) + MoveTo(to, taken), to)
  {
    var there, target := QueueOf(f, to), QueueOf(f, to) + MoveTo(to, taken);
    forall i, j | 0 <= i < j < |target| ensures target[i].tid != target[j].tid {
      if j < |there| {
        assert QueueAt(there, to) && target[i] == there[i] && target[j] == there[j];
      } else if i >= |there| {
        assert target[i].tid == taken[i - |there|].tid && target[j].tid == taken[j - |there|].tid;
      } else {
        assert target[i] == there[i] && Holds(there, target[i].tid);
        assert target[j].tid == taken[j - |there|].tid && taken[j - |there|] in f.queues[from];
        assert Holds(f.queues[from], target[j].tid);
        assert f.where[target[i].tid] == to && f.where[target[j].tid] == from;
      }
    }
  }

  lemma MovedLeftOk(queue: seq<Waiter>, left: seq<Waiter>, a: Address)
    requires queue != [] ==> QueueAt(queue, a)
    requires DistinctTids(left) && forall w :: w in left ==> w in queue
    ensures left != [] ==> QueueAt(left, a)
  {
    if left != [] {
      assert left[0] in queue;
      forall i | 0 <= i < |left| ensures left[i].uaddr == a {
        assert left[i] in queue;
      }
    }
  }

  /** How one thread of the two queues is affected by a move. */
  ghost predicate ThreadMoved(f: Registry, from: Address, to: Address, taken: seq<Waiter>, left: seq<Waiter>,
                              target: seq<Waiter>, t: Tid)
    requires from in f.queues
  {
    && (Holds(f.queues[from], t) <==> Holds(taken, t) || Holds(left, t))
    && !(Holds(taken, t) && Holds(left, t))
    && (t in TidsOf(taken) <==> Holds(taken, t))
    && (Holds(target, t) <==> Holds(QueueOf(f, to), t) || Holds(taken, t))
  }

  /** A thread found in a queue after the move is looked up there. */
  lemma MovedForward(f: Registry, f': Registry, from: Address, to: Address, taken: seq<Waiter>, left: seq<Waiter>,
                     target: seq<Waiter>, b: Address, t: Tid)
    requires Consistent(f) && from in f.queues && from != to
    requires f'.queues == Put(f.queues, from, left)[to := target]
    requires f'.where == map t | t in f.where.Keys :: if t in TidsOf(taken) then to else f.where[t]
    requires ThreadMoved(f, from, to, taken, left, target, t)
    requires b in f'.queues && Holds(f'.queues[b], t)
    ensures t in f'.where && f'.where[t] == b
  {
    assert Holds(taken, t) ==> f.where[t] == from;
    if b == to {
      assert !Holds(taken, t) ==> to in f.queues && f.where[t] == to;
    } else if b == from {
      assert f.where[t] == from;
    } else {
      assert f.where[t] == b;
    }
  }

  /** A thread looked up after the move is found in that queue. */
  lemma MovedBackward(f: Registry, f': Registry, from: Address, to: Address, taken: seq<Waiter>, left: seq<Waiter>,
                      target: seq<Waiter>, t: Tid)
    requires Consistent(f) && from in f.queues && from != to
    requires f'.queues == Put(f.queues, from, left)[to := target]
    requires f'.where == map t | t in f.where.Keys :: if t in TidsOf(taken) then to else f.where[t]
    requires ThreadMoved(f, from, to, taken, left, target, t)
    requires t in f'.where
    ensures f'.where[t] in f'.queues && Holds(f'.queues[f'.where[t]], t)
  {
    assert f.where[t] in f.queues && Holds(f.queues[f.where[t]], t);
  }

  lemma MovedLookup(f: Registry, f': Registry, from: Address, to: Address, taken: seq<Waiter>, left: seq<Waiter>,
                    target: seq<Waiter>)
    requires Consistent(f) && from in f.queues && from != to && to != 0
    requires f'.queues == Put(f.queues, from, left)[to := target]
    requires f'.where == map t | t in f.where.Keys :: if t in TidsOf(taken) then to else f.where[t]
    requires QueueAt(target, to) && (left != [] ==> QueueAt(left, from))
    requires forall t :: ThreadMoved(f, from, to, taken, left, target, t)
    ensures Consistent(f')
    ensures forall t: Tid :: IsWaiting(f', t) <==> IsWaiting(f, t)
  {
    forall b, t | b in f'.queues && Holds(f'.queues[b], t) ensures t in f'.where && f'.where[t] == b {
      MovedForward(f, f', from, to, taken, left, target, b, t);
    }
    forall t | t in f'.where ensures f'.where[t] in f'.queues && Holds(f'.queues[f'.where[t]], t) {
      MovedBackward(f, f', from, to, taken, left, target, t);
    }
  }

  /** Requeueing to address zero is accepted by the code and loses the moved waiters: they
      stay in a queue but no longer count as waiting.  A move keeps the indexes consistent
      if and only if the address is not zero or nothing is moved. */
  lemma MoveConsistentIff(f: Registry, from: Address, to: Address, n: nat, matches: Waiter -> bool)
    requires Consistent(f)
    ensures Consistent(Move(f, from, to, n, matches)) <==> to != 0 || Taken(QueueOf(f, from), n, matches) == []
    ensures to == 0 ==> forall t :: Holds(Taken(QueueOf(f, from), n, matches), t) ==>
                                    IsWaiting(f, t) && !IsWaiting(Move(f, from, to, n, matches), t)
  {
    var queue := QueueOf(f, from);
    var taken := Taken(queue, n, matches);
    if to != 0 {
      MoveConsistent(f, from, to, n, matches);
    } else if taken == [] {
      MoveNobody(f, from, to, n, matches);
    } else {
      assert from in f.queues && QueueAt(f.queues[from], from);
      assert 0 in Move(f, from, to, n, matches).queues;
      LeftKeepsQueue(queue, n, matches);
      forall t | Holds(taken, t) ensures IsWaiting(f, t) && !IsWaiting(Move(f, from, to, n, matches), t) {
        var i :| 0 <= i < |taken| && taken[i].tid == t;
        assert taken[i] in queue;
        assert Holds(f.queues[from], t);
      }
    }
  }

  // ---- The system call ------------------------------------------------------------

  const FUTEX_WAIT: int := 0
  const FUTEX_WAKE: int := 1
  const FUTEX_REQUEUE: int := 3
  const FUTEX_CMP_REQUEUE: int := 4
  const FUTEX_WAIT_BITSET: int := 9
  const FUTEX_WAKE_BITSET: int := 10

  /** Bit 7 of an operation word is the private flag, bit 8 selects the real-time clock. */
  predicate PrivateFlag(op: nat) { op / 128 % 2 == 1 }
  predicate RealtimeFlag(op: nat) { op / 256 % 2 == 1 }

  function Command(op: nat): int {
    op - (if PrivateFlag(op) then 128 else 0) - (if RealtimeFlag(op) then 256 else 0)
  }

  type Word = n: int | 0 <= n < 0x1_0000_0000

  /** The low 32 bits as a signed number. */
  function Signed32(n: int): int {
    var low := n % 0x1_0000_0000;
    if low < 0x8000_0000 then low else low - 0x1_0000_0000
  }

  function Positive(n: int): nat { if n < 0 then 0 else n }

  function WakeMatch(bits: bv32, isPrivate: bool): Waiter -> bool {
    (w: Waiter) => w.isPrivate == isPrivate && w.bitset & bits != 0
  }

  function MoveMatch(isPrivate: bool): Waiter -> bool {
    (w: Waiter) => w.isPrivate == isPrivate
  }

  /** Wake `nrWake` waiters at one address and move up to `nrRequeue` of the rest. */
  function Requeue(f: Registry, from: Address, to: Address, nrWake: nat, nrRequeue: nat, isPrivate: bool): Registry {
    Move(Wake(f, from, nrWake, WakeMatch(0xffff_ffff, isPrivate)), from, to, nrRequeue, MoveMatch(isPrivate))
  }

  /** The waiters a requeue wakes, and those it then moves. */
  function Requeued(f: Registry, from: Address, nrWake: nat, nrRequeue: nat, isPrivate: bool)
    : (seq<Waiter>, seq<Waiter>)
  {
    var queue, matches := QueueOf(f, from), WakeMatch(0xffff_ffff, isPrivate);
    (Taken(queue, nrWake, matches), Taken(Left(queue, nrWake, matches), nrRequeue, MoveMatch(isPrivate)))
  }

  /** Requeueing wakes exactly the first waiters and keeps all others waiting, if and only if
      the second address is not zero or nobody is moved to it. */
  lemma RequeueConsistentIff(f: Registry, from: Address, to: Address, nrWake: nat, nrRequeue: nat, isPrivate: bool)
    requires Consistent(f)
    ensures var f' := Requeue(f, from, to, nrWake, nrRequeue, isPrivate);
            var (woken, moved) := Requeued(f, from, nrWake, nrRequeue, isPrivate);
            && (Consistent(f') <==> to != 0 || moved == [])
            && (Consistent(f') ==> forall t: Tid :: IsWaiting(f', t) <==> IsWaiting(f, t) && !Holds(woken, t))
            && (to == 0 ==> forall t: Tid :: Holds(moved, t) ==>
                 IsWaiting(f, t) && !Holds(woken, t) && !IsWaiting(f', t))
  {
    var matches := WakeMatch(0xffff_ffff, isPrivate);
    WakeConsistent(f, from, nrWake, matches);
    var f1 := Wake(f, from, nrWake, matches);
    assert QueueOf(f1, from) == Left(QueueOf(f, from), nrWake, matches);
    MoveConsistentIff(f1, from, to, nrRequeue, MoveMatch(isPrivate));
    if to != 0 {
      MoveConsistent(f1, from, to, nrRequeue, MoveMatch(isPrivate));
    } else if Taken(QueueOf(f1, from), nrRequeue, MoveMatch(isPrivate)) == [] {
      MoveNobody(f1, from, to, nrRequeue, MoveMatch(isPrivate));
    }
  }

  /** What a futex call returns and leaves behind. */
  datatype Reply = Reply(result: int, registry: Registry)

  /** The arguments of a futex call; `word` is the futex word, if it could be read, and
      `fourth` the timeout pointer or second count. */
  datatype Call = Call(uaddr: Address, op: Word, val: int, fourth: Address, uaddr2: Address, val3: Word,
                       word: Option<Word>)

  predicate IsWait(op: nat) { Command(op) == FUTEX_WAIT || Command(op) == FUTEX_WAIT_BITSET }
  predicate IsWake(op: nat) { Command(op) == FUTEX_WAKE || Command(op) == FUTEX_WAKE_BITSET }
  predicate IsRequeue(op: nat) { Command(op) == FUTEX_REQUEUE || Command(op) == FUTEX_CMP_REQUEUE }

  function Bits(c: Call): bv32 {
    if Command(c.op) == FUTEX_WAIT_BITSET || Command(c.op) == FUTEX_WAKE_BITSET then c.val3 as bv32 else 0xffff_ffff
  }

  function WaiterOf(tid: Tid, c: Call): Waiter {
    Waiter(tid, c.uaddr, c.val, Bits(c), PrivateFlag(c.op))
  }

  function HandleFutex(f: Registry, tid: Tid, c: Call): Result<Reply> {
    if !IsWait(c.op) && !IsWake(c.op) && !IsRequeue(c.op) then Err
    else if RealtimeFlag(c.op) && Command(c.op) != FUTEX_WAIT_BITSET then Ok(Reply(-ENOSYS, f))
    else if c.uaddr % 4 != 0 then Ok(Reply(-EINVAL, f))
    else if (Command(c.op) == FUTEX_WAIT_BITSET || Command(c.op) == FUTEX_WAKE_BITSET) && c.val3 == 0
      then Ok(Reply(-EINVAL, f))
    else if IsWait(c.op) then
      if c.fourth != 0 then Err
      else if c.word.None? then Ok(Reply(-EFAULT, f))
      else if c.word.value != c.val % 0x1_0000_0000 then Ok(Reply(-EAGAIN, f))
      else if IsWaiting(f, tid) then Err
      else Ok(Reply(0, AddWaiter(f, WaiterOf(tid, c))))
    else if IsWake(c.op) then
      var n := if c.val < 1 then 1 else c.val;
      var matches := WakeMatch(Bits(c), PrivateFlag(c.op));
      Ok(Reply(|Taken(QueueOf(f, c.uaddr), n, matches)|, Wake(f, c.uaddr, n, matches)))
    else if c.uaddr2 % 4 != 0 || c.val < 0 || Signed32(c.fourth) < 0 then Ok(Reply(-EINVAL, f))
    else if Command(c.op) == FUTEX_CMP_REQUEUE && c.word.None? then Ok(Reply(-EFAULT, f))
    else if Command(c.op) == FUTEX_CMP_REQUEUE && c.word.value != c.val3 then Ok(Reply(-EAGAIN, f))
    else
      var isPrivate := PrivateFlag(c.op);
      var (woken, moved) := Requeued(f, c.uaddr, c.val, Signed32(c.fourth), isPrivate);
      Ok(Reply(|woken| + |moved|, Requeue(f, c.uaddr, c.uaddr2, c.val, Signed32(c.fourth), isPrivate)))
  }

  /** The call does not put a waiter at address zero: a wait that is registered has another
      address, and a requeue that is carried out has another second address or moves nobody. */
  predicate Orderly(f: Registry, tid: Tid, c: Call) {
    var r := HandleFutex(f, tid, c);
    r.Ok? && r.value.result >= 0 ==>
      && (IsWait(c.op) ==> c.uaddr != 0)
      && (IsRequeue(c.op) ==>
            || c.uaddr2 != 0
            || Requeued(f, c.uaddr, Positive(c.val), Positive(Signed32(c.fourth)), PrivateFlag(c.op)).1 == [])
  }

  /** What a call leaves of the set of waiting threads: one that waits adds its thread, any
      other only removes threads. */
  ghost predicate WaitersFollow(f: Registry, tid: Tid, added: bool, f': Registry) {
    if added then !IsWaiting(f, tid) && forall t: Tid :: IsWaiting(f', t) <==> IsWaiting(f, t) || t == tid
    else forall t: Tid :: IsWaiting(f', t) ==> IsWaiting(f, t)
  }

  lemma WaitConsistentIff(f: Registry, w: Waiter)
    requires Consistent(f) && !IsWaiting(f, w.tid)
    ensures Consistent(AddWaiter(f, w)) <==> w.uaddr != 0
    ensures w.uaddr != 0 ==> WaitersFollow(f, w.tid, true, AddWaiter(f, w))
  {
    if w.uaddr != 0 {
      AddConsistent(f, w);
    } else {
      assert 0 in AddWaiter(f, w).queues;
    }
  }

  /** The state a carried-out call leaves behind. */
  lemma HandledRegistry(f: Registry, tid: Tid, c: Call)
    requires HandleFutex(f, tid, c).Ok?
    ensures var r := HandleFutex(f, tid, c).value;
            if r.result < 0 then r.registry == f
            else if IsWait(c.op) then
              !IsWaiting(f, tid) && r.result == 0 && r.registry == AddWaiter(f, WaiterOf(tid, c))
            else if IsWake(c.op) then
              r.registry == Wake(f, c.uaddr, if c.val < 1 then 1 else c.val, WakeMatch(Bits(c), PrivateFlag(c.op)))
            else
              && IsRequeue(c.op) && c.val >= 0 && Signed32(c.fourth) >= 0
              && r.registry == Requeue(f, c.uaddr, c.uaddr2, c.val, Signed32(c.fourth), PrivateFlag(c.op))
  {
  }

  /** A call keeps the indexes consistent if and only if it is orderly, and then the waiting
      threads are as they should be; an error changes nothing. */
  lemma HandleFutexConsistentIff(f: Registry, tid: Tid, c: Call)
    requires Consistent(f) && HandleFutex(f, tid, c).Ok?
    ensures var r := HandleFutex(f, tid, c).value;
            && (Consistent(r.registry) <==> Orderly(f, tid, c))
            && (Orderly(f, tid, c) ==> WaitersFollow(f, tid, IsWait(c.op) && r.result == 0, r.registry))
            && (r.result < 0 ==> r.registry == f)
  {
    HandledRegistry(f, tid, c);
    if HandleFutex(f, tid, c).value.result >= 0 {
      if IsWait(c.op) {
        WaitConsistentIff(f, WaiterOf(tid, c));
      } else if IsWake(c.op) {
        WakeConsistent(f, c.uaddr, if c.val < 1 then 1 else c.val, WakeMatch(Bits(c), PrivateFlag(c.op)));
      } else {
        RequeueConsistentIff(f, c.uaddr, c.uaddr2, c.val, Signed32(c.fourth), PrivateFlag(c.op));
      }
    }
  }

  // ---- In the words of the calls ----------------------------------------------------

  /** At most `n` waiters of a queue stop waiting: those that match and have fewer than `n`
      matching ones before them.  The others keep their order, and no other thread is touched. */
  ghost predicate WakesFirst(f: Registry, a: Address, n: nat, matches: Waiter -> bool, woken: nat, f': Registry) {
    var queue, rest := QueueOf(f, a), QueueOf(f', a);
    && woken == Least(n, Matching(queue, matches)) && |rest| == |queue| - woken
    && (forall i :: 0 <= i < |queue| ==> WokenInTurn(queue, n, matches, i, f', rest))
    && (forall t: Tid :: !Holds(queue, t) ==> (IsWaiting(f', t) <==> IsWaiting(f, t)))
    && (forall b: Address :: b != a ==> QueueOf(f', b) == QueueOf(f, b))
  }

  predicate WokenInTurn(queue: seq<Waiter>, n: nat, matches: Waiter -> bool, i: nat, f': Registry, rest: seq<Waiter>)
    requires i < |queue|
  {
    var before := Matching(queue[..i], matches);
    if matches(queue[i]) && before < n then !IsWaiting(f', queue[i].tid)
    else
      && IsWaiting(f', queue[i].tid)
      && 0 <= i - Least(before, n) < |rest| && rest[i - Least(before, n)] == queue[i]
  }

  lemma WakeIsFirst(f: Registry, a: Address, n: nat, matches: Waiter -> bool)
    requires Consistent(f)
    ensures WakesFirst(f, a, n, matches, |Taken(QueueOf(f, a), n, matches)|, Wake(f, a, n, matches))
  {
    var queue, f' := QueueOf(f, a), Wake(f, a, n, matches);
    WakeConsistent(f, a, n, matches);
    TakenCount(queue, n, matches);
    LeftKeepsQueue(queue, n, matches);
    assert QueueOf(f', a) == Left(queue, n, matches);
    forall i | 0 <= i < |queue| ensures WokenInTurn(queue, n, matches, i, f', QueueOf(f', a)) {
      TakenLeftAt(queue, n, matches, i);
      TakenInTurn(queue, n, matches, i);
      assert Holds(f.queues[a], queue[i].tid);
    }
    forall t: Tid | !Holds(queue, t) ensures IsWaiting(f', t) <==> IsWaiting(f, t) {
      TakenOrLeft(queue, n, matches, t);
    }
  }

  /** The command is the operation word without bits 7 and 8. */
  function CommandOf(op: Word): int {
    op - 128 * (op / 128 % 2) - 256 * (op / 256 % 2)
  }

  /** The bit set of a call: its sixth word for the commands 9 and 10, all ones otherwise. */
  function BitSet(c: Call): bv32 {
    if CommandOf(c.op) == 9 || CommandOf(c.op) == 10 then c.val3 as bv32 else 0xffff_ffff
  }

  /** The two calls both have bit 7 of the operation or both lack it, and their bit sets share
      a bit. */
  predicate Meets(waiting: Call, waking: Call) {
    waiting.op / 128 % 2 == waking.op / 128 % 2 && ShareBit(BitSet(waiting), BitSet(waking))
  }

  predicate ShareBit(a: bv32, b: bv32) { a & b != 0 }

  predicate SameKind(waiting: Call, other: Call) {
    waiting.op / 128 % 2 == other.op / 128 % 2
  }

  /** The waiter was registered by the call that its thread made. */
  predicate WaiterFrom(w: Waiter, calls: map<Tid, Call>) {
    && w.tid in calls && BitSet(calls[w.tid]) != 0
    && w.isPrivate == (calls[w.tid].op / 128 % 2 == 1) && w.bitset == BitSet(calls[w.tid])
  }

  predicate AllFrom(queue: seq<Waiter>, calls: map<Tid, Call>) {
    forall w :: w in queue ==> WaiterFrom(w, calls)
  }

  /** `calls` holds, for each thread in the queues, the call by which it is there. */
  predicate Registered(f: Registry, calls: map<Tid, Call>) {
    forall a :: a in f.queues ==> AllFrom(f.queues[a], calls)
  }

  lemma WakeKeepsRegistered(f: Registry, a: Address, n: nat, matches: Waiter -> bool, calls: map<Tid, Call>)
    requires Consistent(f) && Registered(f, calls)
    ensures Registered(Wake(f, a, n, matches), calls)
  {
    LeftKeepsQueue(QueueOf(f, a), n, matches);
  }

  lemma WakeThreadKeepsRegistered(f: Registry, tid: Tid, calls: map<Tid, Call>)
    requires Consistent(f) && Registered(f, calls)
    ensures Registered(WakeThread(f, tid), calls)
  {
    if IsWaiting(f, tid) {
      WakeKeepsRegistered(f, f.where[tid], 1, (w: Waiter) => w.tid == tid, calls);
    }
  }

  lemma MoveKeepsRegistered(f: Registry, from: Address, to: Address, n: nat, matches: Waiter -> bool,
                            calls: map<Tid, Call>)
    requires Consistent(f) && Registered(f, calls)
    ensures Registered(Move(f, from, to, n, matches), calls)
  {
    var queue := QueueOf(f, from);
    var taken := Taken(queue, n, matches);
    LeftKeepsQueue(queue, n, matches);
    forall w | w in QueueOf(f, to) + MoveTo(to, taken) ensures WaiterFrom(w, calls) {
      if w in MoveTo(to, taken) {
        var i :| 0 <= i < |taken| && w == taken[i].(uaddr := to);
        assert taken[i] in queue;
      }
    }
  }

  lemma WordsAgree(c: Call)
    ensures Command(c.op) == CommandOf(c.op) && Bits(c) == BitSet(c)
    ensures PrivateFlag(c.op) <==> c.op / 128 % 2 == 1
  {
  }

  lemma NewWaiterFrom(tid: Tid, c: Call, calls: map<Tid, Call>)
    requires BitSet(c) != 0
    ensures WaiterFrom(WaiterOf(tid, c), calls[tid := c])
  {
    WordsAgree(c);
  }

  lemma AddKeepsRegistered(f: Registry, w: Waiter, c: Call, calls: map<Tid, Call>)
    requires Consistent(f) && Registered(f, calls) && !IsWaiting(f, w.tid) && WaiterFrom(w, calls[w.tid := c])
    ensures Registered(AddWaiter(f, w), calls[w.tid := c])
  {
    var f' := AddWaiter(f, w);
    forall a, v | a in f'.queues && v in f'.queues[a] ensures WaiterFrom(v, calls[w.tid := c]) {
      if v in QueueOf(f, a) {
        assert AllFrom(f.queues[a], calls);
        assert WaiterFrom(v, calls) && Holds(f.queues[a], v.tid);
      }
    }
  }

  /** Every call keeps the record of who waits by which call; one that waits adds itself. */
  lemma HandleFutexKeepsRegistered(f: Registry, tid: Tid, c: Call, calls: map<Tid, Call>)
    requires Consistent(f) && Registered(f, calls) && HandleFutex(f, tid, c).Ok?
    ensures var r := HandleFutex(f, tid, c).value;
            Registered(r.registry, if IsWait(c.op) && r.result == 0 then calls[tid := c] else calls)
  {
    HandledRegistry(f, tid, c);
    WordsAgree(c);
    if HandleFutex(f, tid, c).value.result >= 0 {
      if IsWait(c.op) {
        NonZeroBits(c);
        NewWaiterFrom(tid, c, calls);
        AddKeepsRegistered(f, WaiterOf(tid, c), c, calls);
      } else if IsWake(c.op) {
        WakeKeepsRegistered(f, c.uaddr, if c.val < 1 then 1 else c.val, WakeMatch(Bits(c), PrivateFlag(c.op)), calls);
      } else {
        var matches := WakeMatch(0xffff_ffff, PrivateFlag(c.op));
        WakeConsistent(f, c.uaddr, c.val, matches);
        WakeKeepsRegistered(f, c.uaddr, c.val, matches, calls);
        MoveKeepsRegistered(Wake(f, c.uaddr, c.val, matches), c.uaddr, c.uaddr2, Signed32(c.fourth),
                            MoveMatch(PrivateFlag(c.op)), calls);
      }
    }
  }

  /** A call that passes the checks has a bit set that is not empty. */
  lemma NonZeroBits(c: Call)
    requires (Command(c.op) == FUTEX_WAIT_BITSET || Command(c.op) == FUTEX_WAKE_BITSET) ==> c.val3 != 0
    ensures BitSet(c) != 0
  {
    WordsAgree(c);
  }

  lemma WakesFirstAgree(f: Registry, a: Address, n: nat, m: Waiter -> bool, m': Waiter -> bool, woken: nat,
                        f': Registry)
    requires WakesFirst(f, a, n, m, woken, f') && forall w :: w in QueueOf(f, a) ==> (m(w) <==> m'(w))
    ensures WakesFirst(f, a, n, m', woken, f')
  {
    var queue := QueueOf(f, a);
    MatchingAgree(queue, m, m');
    forall i | 0 <= i < |queue| ensures WokenInTurn(queue, n, m', i, f', QueueOf(f', a)) {
      MatchingAgree(queue[..i], m, m');
      assert WokenInTurn(queue, n, m, i, f', QueueOf(f', a));
    }
  }

  /** The waiters whose calls a call meets, and those of its kind. */
  function Met(calls: map<Tid, Call>, c: Call): Waiter -> bool {
    (w: Waiter) => w.tid in calls && Meets(calls[w.tid], c)
  }

  function OfKind(calls: map<Tid, Call>, c: Call): Waiter -> bool {
    (w: Waiter) => w.tid in calls && SameKind(calls[w.tid], c)
  }

  lemma MatchIsMet(w: Waiter, calls: map<Tid, Call>, c: Call)
    requires WaiterFrom(w, calls)
    ensures WakeMatch(Bits(c), PrivateFlag(c.op))(w) <==> Met(calls, c)(w)
  {
    WordsAgree(c);
    MatchOfBits(w, Bits(c), PrivateFlag(c.op));
  }

  lemma MatchOfBits(w: Waiter, bits: bv32, isPrivate: bool)
    ensures WakeMatch(bits, isPrivate)(w) <==> w.isPrivate == isPrivate && ShareBit(w.bitset, bits)
  {
    MatchOfFields(w, bits, isPrivate);
    ShareBitMeans(w.bitset, bits);
  }

  lemma MatchOfFields(w: Waiter, bits: bv32, isPrivate: bool)
    ensures WakeMatch(bits, isPrivate)(w) <==> w.isPrivate == isPrivate && w.bitset & bits != 0
  {
  }

  lemma ShareBitMeans(a: bv32, b: bv32)
    ensures ShareBit(a, b) <==> a & b != 0
  {
  }

  lemma MatchIsOfKind(w: Waiter, calls: map<Tid, Call>, c: Call)
    requires WaiterFrom(w, calls)
    ensures MoveMatch(PrivateFlag(c.op))(w) <==> OfKind(calls, c)(w)
  {
    WordsAgree(c);
  }

  /** A wake stops the wait of the first `val`, and at least one, of the threads at its address
      whose calls it meets, and returns their number. */
  lemma WakeByWords(f: Registry, tid: Tid, c: Call, calls: map<Tid, Call>)
    requires Consistent(f) && Registered(f, calls) && (CommandOf(c.op) == 1 || CommandOf(c.op) == 10)
    requires HandleFutex(f, tid, c).Ok? && HandleFutex(f, tid, c).value.result >= 0
    ensures var r := HandleFutex(f, tid, c).value;
            WakesFirst(f, c.uaddr, if c.val < 1 then 1 else c.val, Met(calls, c), r.result, r.registry)
  {
    WordsAgree(c);
    var n, matches := if c.val < 1 then 1 else c.val, WakeMatch(Bits(c), PrivateFlag(c.op));
    WakeIsFirst(f, c.uaddr, n, matches);
    forall w | w in QueueOf(f, c.uaddr) ensures matches(w) <==> Met(calls, c)(w) {
      assert AllFrom(f.queues[c.uaddr], calls);
      MatchIsMet(w, calls, c);
    }
    var r := HandleFutex(f, tid, c).value;
    WakesFirstAgree(f, c.uaddr, n, matches, Met(calls, c), r.result, r.registry);
  }

  /** Of the matching waiters the first `nrWake` stop waiting, the next `nrMove` go to the end
      of the other queue in their order, and the rest stay in theirs. */
  ghost predicate RequeuesFirst(f: Registry, from: Address, to: Address, nrWake: nat, nrMove: nat,
                                matches: Waiter -> bool, f': Registry) {
    var queue := QueueOf(f, from);
    && (forall i :: 0 <= i < |queue| ==> (IsWaiting(f', queue[i].tid) <==> !InTurn(queue, nrWake, matches, i)))
    && (forall i :: 0 <= i < |queue| ==>
          PlacedInTurn(queue, QueueOf(f', from), QueueOf(f, to), QueueOf(f', to), to, nrWake, nrMove, matches, i))
    && (forall t: Tid :: !Holds(queue, t) ==> (IsWaiting(f', t) <==> IsWaiting(f, t)))
    && QueueOf(f, to) <= QueueOf(f', to)
    && (forall b: Address :: b != from && b != to ==> QueueOf(f', b) == QueueOf(f, b))
  }

  predicate PlacedInTurn(queue: seq<Waiter>, rest: seq<Waiter>, there: seq<Waiter>, target: seq<Waiter>, to: Address,
                         nrWake: nat, nrMove: nat, matches: Waiter -> bool, i: nat)
    requires i < |queue|
  {
    var before := Matching(queue[..i], matches);
    if !matches(queue[i]) || before >= nrWake + nrMove then
      var at := i - Least(before, nrWake + nrMove);
      0 <= at < |rest| && rest[at] == queue[i]
    else before >= nrWake ==>
      |there| + before - nrWake < |target| && target[|there| + before - nrWake] == queue[i].(uaddr := to)
  }

  lemma PlacedByRequeue(queue: seq<Waiter>, there: seq<Waiter>, to: Address, n: nat, k: nat, m: Waiter -> bool, i: nat)
    requires i < |queue|
    ensures var left := Left(queue, n, m);
            PlacedInTurn(queue, Left(left, k, m), there, there + MoveTo(to, Taken(left, k, m)), to, n, k, m, i)
  {
    TakenTwice(queue, n, k, m);
    LeftTwice(queue, n, k, m);
    TakenLeftAt(queue, n + k, m, i);
    TakenCount(queue, n, m);
    if m(queue[i]) {
      MatchingBefore(queue, m, i);
    }
  }

  lemma {:induction false} MatchingBefore(queue: seq<Waiter>, matches: Waiter -> bool, i: nat)
    requires i < |queue| && matches(queue[i])
    ensures Matching(queue[..i], matches) < Matching(queue, matches)
    decreases queue
  {
    if i > 0 {
      assert queue[..i][1..] == queue[1..][..i - 1] && queue[1..][i - 1] == queue[i];
      MatchingBefore(queue[1..], matches, i - 1);
    }
  }

  /** What a requeue between two addresses leaves in the queues. */
  lemma RequeueQueues(f: Registry, from: Address, to: Address, nrWake: nat, nrRequeue: nat, isPrivate: bool)
    requires from != to
    requires Consistent(f)
    requires forall w :: w in QueueOf(f, from) ==> w.bitset != 0
    ensures var f', m := Requeue(f, from, to, nrWake, nrRequeue, isPrivate), MoveMatch(isPrivate);
            var left := Left(QueueOf(f, from), nrWake, m);
            && Requeued(f, from, nrWake, nrRequeue, isPrivate)
               == (Taken(QueueOf(f, from), nrWake, m), Taken(left, nrRequeue, m))
            && QueueOf(f', from) == Left(left, nrRequeue, m)
            && QueueOf(f', to) == QueueOf(f, to) + MoveTo(to, Taken(left, nrRequeue, m))
            && forall b: Address :: b != from && b != to ==> QueueOf(f', b) == QueueOf(f, b)
  {
    var queue, m, m' := QueueOf(f, from), MoveMatch(isPrivate), WakeMatch(0xffff_ffff, isPrivate);
    AllOnes(queue, isPrivate);
    TakenAgree(queue, nrWake, m', m);
    var f1 := Wake(f, from, nrWake, m');
    assert QueueOf(f1, from) == Left(queue, nrWake, m) && QueueOf(f1, to) == QueueOf(f, to);
  }

  lemma RequeueIsFirst(f: Registry, from: Address, to: Address, nrWake: nat, nrRequeue: nat, isPrivate: bool)
    requires Consistent(f) && from != to && to != 0 && forall w :: w in QueueOf(f, from) ==> w.bitset != 0
    ensures var f', m := Requeue(f, from, to, nrWake, nrRequeue, isPrivate), MoveMatch(isPrivate);
            RequeuesFirst(f, from, to, nrWake, nrRequeue, m, f')
  {
    var queue, m := QueueOf(f, from), MoveMatch(isPrivate);
    var f' := Requeue(f, from, to, nrWake, nrRequeue, isPrivate);
    RequeueQueues(f, from, to, nrWake, nrRequeue, isPrivate);
    RequeueConsistentIff(f, from, to, nrWake, nrRequeue, isPrivate);
    forall i | 0 <= i < |queue|
      ensures IsWaiting(f', queue[i].tid) <==> !InTurn(queue, nrWake, m, i)
      ensures PlacedInTurn(queue, QueueOf(f', from), QueueOf(f, to), QueueOf(f', to), to, nrWake, nrRequeue, m, i)
    {
      PlacedByRequeue(queue, QueueOf(f, to), to, nrWake, nrRequeue, m, i);
      TakenInTurn(queue, nrWake, m, i);
      assert Holds(f.queues[from], queue[i].tid);
    }
    forall t: Tid | !Holds(queue, t) ensures IsWaiting(f', t) <==> IsWaiting(f, t) {
      TakenOrLeft(queue, nrWake, m, t);
    }
  }

  lemma AllOnes(queue: seq<Waiter>, isPrivate: bool)
    requires forall w :: w in queue ==> w.bitset != 0
    ensures forall w :: w in queue ==> (WakeMatch(0xffff_ffff, isPrivate)(w) <==> MoveMatch(isPrivate)(w))
  {
    forall w | w in queue ensures WakeMatch(0xffff_ffff, isPrivate)(w) <==> MoveMatch(isPrivate)(w) {
      assert w.bitset & 0xffff_ffff == w.bitset;
    }
  }

  /** The woken and the moved are together the first so many. */
  lemma RequeuedCount(f: Registry, from: Address, nrWake: nat, nrRequeue: nat, isPrivate: bool)
    requires forall w :: w in QueueOf(f, from) ==> w.bitset != 0
    ensures var (woken, moved) := Requeued(f, from, nrWake, nrRequeue, isPrivate);
            |woken| + |moved| == Least(nrWake + nrRequeue, Matching(QueueOf(f, from), MoveMatch(isPrivate)))
  {
    var queue, m := QueueOf(f, from), MoveMatch(isPrivate);
    AllOnes(queue, isPrivate);
    TakenAgree(queue, nrWake, WakeMatch(0xffff_ffff, isPrivate), m);
    TakenTwice(queue, nrWake, nrRequeue, m);
    TakenCount(queue, nrWake + nrRequeue, m);
  }

  lemma RequeuesFirstAgree(f: Registry, from: Address, to: Address, nrWake: nat, nrMove: nat, m: Waiter -> bool,
                           m': Waiter -> bool, f': Registry)
    requires RequeuesFirst(f, from, to, nrWake, nrMove, m, f')
    requires forall w :: w in QueueOf(f, from) ==> (m(w) <==> m'(w))
    ensures RequeuesFirst(f, from, to, nrWake, nrMove, m', f')
  {
    var queue := QueueOf(f, from);
    forall i | 0 <= i < |queue|
      ensures IsWaiting(f', queue[i].tid) <==> !InTurn(queue, nrWake, m', i)
      ensures PlacedInTurn(queue, QueueOf(f', from), QueueOf(f, to), QueueOf(f', to), to, nrWake, nrMove, m', i)
    {
      MatchingAgree(queue[..i], m, m');
      assert PlacedInTurn(queue, QueueOf(f', from), QueueOf(f, to), QueueOf(f', to), to, nrWake, nrMove, m, i);
    }
  }

  lemma QueueOfKind(f: Registry, a: Address, calls: map<Tid, Call>, c: Call)
    requires Registered(f, calls)
    ensures forall w :: w in QueueOf(f, a) ==>
              w.bitset != 0 && (MoveMatch(PrivateFlag(c.op))(w) <==> OfKind(calls, c)(w))
  {
    forall w | w in QueueOf(f, a)
      ensures w.bitset != 0 && (MoveMatch(PrivateFlag(c.op))(w) <==> OfKind(calls, c)(w))
    {
      assert AllFrom(f.queues[a], calls);
      MatchIsOfKind(w, calls, c);
    }
  }

  /** A requeue stops the wait of the first `val` of the threads at its address whose calls are
      of its kind, moves the next so many, and returns the number of both. */
  lemma RequeueByWords(f: Registry, tid: Tid, c: Call, calls: map<Tid, Call>)
    requires Consistent(f) && Registered(f, calls) && (CommandOf(c.op) == 3 || CommandOf(c.op) == 4)
    requires HandleFutex(f, tid, c).Ok? && HandleFutex(f, tid, c).value.result >= 0
    ensures c.val >= 0 && Signed32(c.fourth) >= 0
    ensures var r, m := HandleFutex(f, tid, c).value, OfKind(calls, c);
            && r.result == Least(c.val + Signed32(c.fourth), Matching(QueueOf(f, c.uaddr), m))
            && (c.uaddr2 != 0 && c.uaddr2 != c.uaddr ==>
                  RequeuesFirst(f, c.uaddr, c.uaddr2, c.val, Signed32(c.fourth), m, r.registry))
  {
    WordsAgree(c);
    var isPrivate, r := PrivateFlag(c.op), HandleFutex(f, tid, c).value;
    var m := MoveMatch(isPrivate);
    QueueOfKind(f, c.uaddr, calls, c);
    RequeuedCount(f, c.uaddr, c.val, Signed32(c.fourth), isPrivate);
    MatchingAgree(QueueOf(f, c.uaddr), m, OfKind(calls, c));
    if c.uaddr2 != 0 && c.uaddr2 != c.uaddr {
      RequeueIsFirst(f, c.uaddr, c.uaddr2, c.val, Signed32(c.fourth), isPrivate);
      RequeuesFirstAgree(f, c.uaddr, c.uaddr2, c.val, Signed32(c.fourth), m, OfKind(calls, c), r.registry);
    }
  }

  /** A requeue to the address it comes from only wakes. */
  lemma RequeueInPlace(f: Registry, tid: Tid, c: Call, calls: map<Tid, Call>)
    requires Consistent(f) && Registered(f, calls) && (CommandOf(c.op) == 3 || CommandOf(c.op) == 4)
    requires HandleFutex(f, tid, c).Ok? && HandleFutex(f, tid, c).value.result >= 0 && c.uaddr2 == c.uaddr
    ensures var woken := Least(Positive(c.val), Matching(QueueOf(f, c.uaddr), OfKind(calls, c)));
            WakesFirst(f, c.uaddr, Positive(c.val), OfKind(calls, c), woken, HandleFutex(f, tid, c).value.registry)
  {
    WordsAgree(c);
    var isPrivate, queue := PrivateFlag(c.op), QueueOf(f, c.uaddr);
    var matches := WakeMatch(0xffff_ffff, isPrivate);
    QueueOfKind(f, c.uaddr, calls, c);
    AllOnes(queue, isPrivate);
    WakeIsFirst(f, c.uaddr, c.val, matches);
    MatchingAgree(queue, matches, OfKind(calls, c));
    TakenCount(queue, c.val, matches);
    WakesFirstAgree(f, c.uaddr, c.val, matches, OfKind(calls, c), |Taken(queue, c.val, matches)|,
                    Wake(f, c.uaddr, c.val, matches));
  }

  predicate WaitWord(c: Call) { CommandOf(c.op) == 0 || CommandOf(c.op) == 9 }
  predicate WakeWord(c: Call) { CommandOf(c.op) == 1 || CommandOf(c.op) == 10 }
  predicate RequeueWord(c: Call) { CommandOf(c.op) == 3 || CommandOf(c.op) == 4 }

  /** Bit 8 is for command 9 only, the address is aligned, and a bit set is not empty. */
  predicate BadClock(c: Call) { c.op / 256 % 2 == 1 && CommandOf(c.op) != 9 }
  predicate BadWords(c: Call) {
    || c.uaddr % 4 != 0
    || ((CommandOf(c.op) == 9 || CommandOf(c.op) == 10) && c.val3 == 0)
    || (RequeueWord(c) && (c.uaddr2 % 4 != 0 || c.val < 0 || c.fourth % 0x1_0000_0000 >= 0x8000_0000))
  }

  /** The commands that compare the futex word, and what with. */
  predicate Compares(c: Call) { WaitWord(c) || CommandOf(c.op) == 4 }
  function Expected(c: Call): int { if WaitWord(c) then c.val % 0x1_0000_0000 else c.val3 }

  /** A call is refused with -38, -22, -14 or -11, or ends the transition, for these reasons and
      no others. */
  lemma RefusedIff(f: Registry, tid: Tid, c: Call)
    ensures var r, bad := HandleFutex(f, tid, c), BadClock(c) || BadWords(c);
            && (r.Err? <==>
                  || !(WaitWord(c) || WakeWord(c) || RequeueWord(c))
                  || (!bad && WaitWord(c) && (c.fourth != 0 || (c.word == Some(Expected(c)) && IsWaiting(f, tid)))))
            && (r.Ok? ==>
                  && (r.value.result == -38 <==> BadClock(c))
                  && (r.value.result == -22 <==> !BadClock(c) && BadWords(c))
                  && (r.value.result == -14 <==> !bad && Compares(c) && c.word.None?)
                  && (r.value.result == -11 <==> !bad && Compares(c) && c.word.Some? && c.word.value != Expected(c))
                  && (r.value.result >= 0 <==> !bad && (Compares(c) ==> c.word == Some(Expected(c)))))
  {
    WordsAgree(c);
  }

  /** A thread joins the end of the queue at its address, by the words of its call. */
  ghost predicate Arrives(f: Registry, tid: Tid, c: Call, f': Registry) {
    && (exists w: Waiter ::
          && QueueOf(f', c.uaddr) == QueueOf(f, c.uaddr) + [w]
          && w.tid == tid && w.uaddr == c.uaddr && w.expected == c.val && WaiterFrom(w, map[tid := c]))
    && (forall b: Address :: b != c.uaddr ==> QueueOf(f', b) == QueueOf(f, b))
  }

  lemma WaitArrives(f: Registry, tid: Tid, c: Call)
    requires WaitWord(c) && HandleFutex(f, tid, c).Ok? && HandleFutex(f, tid, c).value.result >= 0
    ensures HandleFutex(f, tid, c).value.result == 0 && Arrives(f, tid, c, HandleFutex(f, tid, c).value.registry)
  {
    WordsAgree(c);
    RefusedIff(f, tid, c);
    HandledRegistry(f, tid, c);
    NonZeroBits(c);
    NewWaiterFrom(tid, c, map[]);
    var w := WaiterOf(tid, c);
    assert QueueOf(AddWaiter(f, w), c.uaddr) == QueueOf(f, c.uaddr) + [w];
  }

  /** What a call that is carried out does, told by its own words and those of the calls by
      which the other threads wait. */
  ghost predicate DoneByWords(f: Registry, tid: Tid, c: Call, calls: map<Tid, Call>, result: nat, f': Registry) {
    if WaitWord(c) then result == 0 && Arrives(f, tid, c, f')
    else if WakeWord(c) then
      WakesFirst(f, c.uaddr, if c.val < 1 then 1 else c.val, Met(calls, c), result, f')
    else
      && c.val >= 0 && Signed32(c.fourth) >= 0
      && result == Least(c.val + Signed32(c.fourth), Matching(QueueOf(f, c.uaddr), OfKind(calls, c)))
      && (c.uaddr2 != 0 && c.uaddr2 != c.uaddr ==>
            RequeuesFirst(f, c.uaddr, c.uaddr2, c.val, Signed32(c.fourth), OfKind(calls, c), f'))
      && (c.uaddr2 == c.uaddr ==>
            var woken := Least(c.val, Matching(QueueOf(f, c.uaddr), OfKind(calls, c)));
            WakesFirst(f, c.uaddr, c.val, OfKind(calls, c), woken, f'))
  }

  lemma CallIsDone(f: Registry, tid: Tid, c: Call, calls: map<Tid, Call>)
    requires Consistent(f) && Registered(f, calls)
    requires HandleFutex(f, tid, c).Ok? && HandleFutex(f, tid, c).value.result >= 0
    ensures var r := HandleFutex(f, tid, c).value; DoneByWords(f, tid, c, calls, r.result, r.registry)
  {
    RefusedIff(f, tid, c);
    if WaitWord(c) {
      WaitArrives(f, tid, c);
    } else if WakeWord(c) {
      WakeByWords(f, tid, c, calls);
    } else {
      RequeueByWords(f, tid, c, calls);
      if c.uaddr2 == c.uaddr {
        RequeueInPlace(f, tid, c, calls);
      }
    }
  }

  /** The same, whatever record of the waiting calls there is. */
  ghost predicate Done(f: Registry, tid: Tid, c: Call, result: nat, f': Registry) {
    forall calls: map<Tid, Call> :: Registered(f, calls) ==> DoneByWords(f, tid, c, calls, result, f')
  }

  lemma EveryCallIsDone(f: Registry, tid: Tid, c: Call)
    requires Consistent(f) && HandleFutex(f, tid, c).Ok? && HandleFutex(f, tid, c).value.result >= 0
    ensures var r := HandleFutex(f, tid, c).value; Done(f, tid, c, r.result, r.registry)
  {
    var r := HandleFutex(f, tid, c).value;
    forall calls: map<Tid, Call> | Registered(f, calls)
      ensures DoneByWords(f, tid, c, calls, r.result, r.registry)
    {
      CallIsDone(f, tid, c, calls);
    }
  }

  // ---- In place -------------------------------------------------------------------

  class FutexState {
    var waiters: map<Address, seq<Waiter>>
    var waiterMap: map<Tid, Address>

    function Now(): Registry
      reads this
    {
      Registry(waiters, waiterMap)
    }

    constructor ()
      ensures Now() == EMPTY && Consistent(Now())
    {
      waiters, waiterMap := map[], map[];
    }

    method Enqueue(w: Waiter)
      modifies this
      ensures Now() == AddWaiter(old(Now()), w)
    {
      waiters := waiters[w.uaddr := (if w.uaddr in waiters then waiters[w.uaddr] else []) + [w]];
      waiterMap := waiterMap[w.tid := w.uaddr];
    }

    method RemoveWaiter(tid: Tid) returns (removed: bool)
      modifies this
      ensures Now() == WakeThread(old(Now()), tid)
      ensures removed == (IsWaiting(old(Now()), tid) && Holds(QueueOf(old(Now()), old(waiterMap)[tid]), tid))
    {
      if tid !in waiterMap || waiterMap[tid] == 0 {
        return false;
      }
      var uaddr := waiterMap[tid];
      if uaddr !in waiters {
        waiters := waiters[uaddr := []];
      }
      var queue := waiters[uaddr];
      var i := 0;
      while i < |queue| && queue[i].tid != tid
        invariant 0 <= i <= |queue| && forall k :: 0 <= k < i ==> queue[k].tid != tid
      {
        i := i + 1;
      }
      if i == |queue| {
        return false;
      }
      RemoveIsLeft(queue, tid, i);
      TakenTids(queue, tid);
      var rest := queue[..i] + queue[i + 1..];
      waiterMap := waiterMap - {tid};
      waiters := if rest == [] then waiters - {uaddr} else waiters[uaddr := rest];
      removed := true;
    }

    method FutexWake(uaddr: Address, nrWake: int, bits: bv32, isPrivate: bool) returns (woken: nat)
      modifies this
      ensures var matches := WakeMatch(bits, isPrivate);
              && Now() == Wake(old(Now()), uaddr, Positive(nrWake), matches)
              && woken == |Taken(QueueOf(old(Now()), uaddr), Positive(nrWake), matches)|
      ensures Consistent(old(Now())) ==>
                WakesFirst(old(Now()), uaddr, Positive(nrWake),
                           (w: Waiter) => w.isPrivate == isPrivate && w.bitset & bits != 0, woken, Now())
    {
      if Consistent(Now()) {
        WakesMatching(Now(), uaddr, Positive(nrWake), bits, isPrivate);
      }
      woken := 0;
      if uaddr !in waiters || waiters[uaddr] == [] {
        return;
      }
      var remaining;
      woken, remaining, waiterMap := Sweep(waiters[uaddr], nrWake, WakeMatch(bits, isPrivate), waiterMap);
      waiters := if remaining == [] then waiters - {uaddr} else waiters[uaddr := remaining];
    }

    /** Wake some waiters at `from`, move some of the rest to `to`, and return how many. */
    method FutexRequeue(from: Address, to: Address, nrWake: nat, nrRequeue: nat, isPrivate: bool)
      returns (affected: nat)
      modifies this
      ensures Now() == Requeue(old(Now()), from, to, nrWake, nrRequeue, isPrivate)
      ensures var (woken, moved) := Requeued(old(Now()), from, nrWake, nrRequeue, isPrivate);
              affected == |woken| + |moved|
    {
      affected := FutexWake(from, nrWake, 0xffff_ffff, isPrivate);
      assert QueueOf(Now(), from) == Left(QueueOf(old(Now()), from), nrWake, WakeMatch(0xffff_ffff, isPrivate));
      if from !in waiters {
        return;
      }
      var moved, queue := Pick(waiters[from], nrRequeue, MoveMatch(isPrivate));
      affected := affected + |moved|;
      if from == to {
        return;
      }
      var target := (if to in waiters then waiters[to] else []) + MoveTo(to, moved);
      waiters := if queue == [] then waiters - {from} else waiters[from := queue];
      waiters := if target == [] then waiters - {to} else waiters[to := target];
      waiterMap := waiterMap + (map t | t in TidsOf(moved) :: to);
    }

    /** The futex call; `None` is an exception, raised before anything changes. */
    method Dispatch(tid: Tid, c: Call) returns (result: Option<int>)
      modifies this
      ensures var r := HandleFutex(old(Now()), tid, c);
              if r.Err? then result.None? && Now() == old(Now())
              else result == Some(r.value.result) && Now() == r.value.registry
      ensures Consistent(old(Now())) && result.Some? && result.value >= 0 ==>
                Done(old(Now()), tid, c, result.value, Now())
    {
      result := Route(tid, c);
      if Consistent(old(Now())) && result.Some? && result.value >= 0 {
        EveryCallIsDone(old(Now()), tid, c);
      }
    }

    method Route(tid: Tid, c: Call) returns (result: Option<int>)
      modifies this
      ensures var r := HandleFutex(old(Now()), tid, c);
              if r.Err? then result.None? && Now() == old(Now())
              else result == Some(r.value.result) && Now() == r.value.registry
    {
      if !IsWait(c.op) && !IsWake(c.op) && !IsRequeue(c.op) {
        return None;
      }
      if RealtimeFlag(c.op) && Command(c.op) != FUTEX_WAIT_BITSET {
        return Some(-ENOSYS);
      }
      if c.uaddr % 4 != 0 {
        return Some(-EINVAL);
      }
      if (Command(c.op) == FUTEX_WAIT_BITSET || Command(c.op) == FUTEX_WAKE_BITSET) && c.val3 == 0 {
        return Some(-EINVAL);
      }
      if IsWait(c.op) {
        result := DispatchWait(tid, c);
      } else if IsWake(c.op) {
        var woken := FutexWake(c.uaddr, if c.val < 1 then 1 else c.val, Bits(c), PrivateFlag(c.op));
        result := Some(woken);
      } else {
        result := DispatchRequeue(c);
      }
    }

    method DispatchWait(tid: Tid, c: Call) returns (result: Option<int>)
      modifies this
      ensures if c.fourth != 0 then result.None? && Now() == old(Now())
              else if c.word.None? then result == Some(-EFAULT) && Now() == old(Now())
              else if c.word.value != c.val % 0x1_0000_0000 then result == Some(-EAGAIN) && Now() == old(Now())
              else if IsWaiting(old(Now()), tid) then result.None? && Now() == old(Now())
              else result == Some(0) && Now() == AddWaiter(old(Now()), WaiterOf(tid, c))
    {
      if c.fourth != 0 {
        return None;
      }
      if c.word.None? {
        return Some(-EFAULT);
      }
      if c.word.value != c.val % 0x1_0000_0000 {
        return Some(-EAGAIN);
      }
      if IsWaiting(Now(), tid) {
        return None;
      }
      Enqueue(WaiterOf(tid, c));
      result := Some(0);
    }

    method DispatchRequeue(c: Call) returns (result: Option<int>)
      requires IsRequeue(c.op)
      modifies this
      ensures var isPrivate, f := PrivateFlag(c.op), old(Now());
              if c.uaddr2 % 4 != 0 || c.val < 0 || Signed32(c.fourth) < 0 then result == Some(-EINVAL) && Now() == f
              else if Command(c.op) == FUTEX_CMP_REQUEUE && c.word.None? then result == Some(-EFAULT) && Now() == f
              else if Command(c.op) == FUTEX_CMP_REQUEUE && c.word.value != c.val3
                then result == Some(-EAGAIN) && Now() == f
              else
                var (woken, moved) := Requeued(f, c.uaddr, c.val, Signed32(c.fourth), isPrivate);
                && result == Some(|woken| + |moved|)
                && Now() == Requeue(f, c.uaddr, c.uaddr2, c.val, Signed32(c.fourth), isPrivate)
    {
      if c.uaddr2 % 4 != 0 || c.val < 0 || Signed32(c.fourth) < 0 {
        return Some(-EINVAL);
      }
      if Command(c.op) == FUTEX_CMP_REQUEUE {
        if c.word.None? {
          return Some(-EFAULT);
        }
        if c.word.value != c.val3 {
          return Some(-EAGAIN);
        }
      }
      var affected := FutexRequeue(c.uaddr, c.uaddr2, c.val, Signed32(c.fourth), PrivateFlag(c.op));
      result := Some(affected);
    }
  }

  lemma WakesMatching(f: Registry, a: Address, n: nat, bits: bv32, isPrivate: bool)
    requires Consistent(f)
    ensures var matches := WakeMatch(bits, isPrivate);
            WakesFirst(f, a, n, (w: Waiter) => w.isPrivate == isPrivate && w.bitset & bits != 0,
                       |Taken(QueueOf(f, a), n, matches)|, Wake(f, a, n, matches))
  {
    var matches := WakeMatch(bits, isPrivate);
    WakeIsFirst(f, a, n, matches);
    WakesFirstAgree(f, a, n, matches, (w: Waiter) => w.isPrivate == isPrivate && w.bitset & bits != 0,
                    |Taken(QueueOf(f, a), n, matches)|, Wake(f, a, n, matches));
  }

  /** Walk a queue, waking the first `nrWake` matching waiters. */
  method Sweep(queue: seq<Waiter>, nrWake: int, matches: Waiter -> bool, where: map<Tid, Address>)
    returns (woken: nat, remaining: seq<Waiter>, where': map<Tid, Address>)
    ensures woken == |Taken(queue, Positive(nrWake), matches)|
    ensures remaining == Left(queue, Positive(nrWake), matches)
    ensures where' == where - TidsOf(Taken(queue, Positive(nrWake), matches))
  {
    woken, remaining, where' := 0, [], where;
    ghost var n := Positive(nrWake);
    ghost var took: seq<Waiter> := [];
    assert where - TidsOf([]) == where;
    for i := 0 to |queue|
      invariant where' == where - TidsOf(took)
      invariant woken == |took| <= n
      invariant Walked(queue, i, n, n - woken, matches, took, remaining)
    {
      AdvanceTake(queue, i, n, n - woken, matches, took, remaining);
      if matches(queue[i]) && woken < nrWake {
        TidsOfSnoc(took, queue[i]);
        where' := where' - {queue[i].tid};
        woken := woken + 1;
        took := took + [queue[i]];
      } else {
        remaining := remaining + [queue[i]];
      }
    }
    assert took + [] == took && remaining + [] == remaining;
  }

  /** Walk a queue, picking the first `n` matching waiters out of it. */
  method Pick(queue: seq<Waiter>, n: nat, matches: Waiter -> bool) returns (picked: seq<Waiter>, rest: seq<Waiter>)
    ensures picked == Taken(queue, n, matches) && rest == Left(queue, n, matches)
  {
    picked, rest := [], queue;
    var i, remaining := 0, n;
    while i < |rest| && remaining != 0
      invariant 0 <= i <= |rest|
      invariant Taken(queue, n, matches) == picked + Taken(rest[i..], remaining, matches)
      invariant Left(queue, n, matches) == rest[..i] + Left(rest[i..], remaining, matches)
      decreases |rest| - i
    {
      TakeNext(rest[i..], remaining, matches, picked, rest[..i]);
      assert rest[i..][1..] == rest[i + 1..];
      if matches(rest[i]) {
        picked := picked + [rest[i]];
        assert (rest[..i] + rest[i + 1..])[i..] == rest[i + 1..] && (rest[..i] + rest[i + 1..])[..i] == rest[..i];
        rest := rest[..i] + rest[i + 1..];
        remaining := remaining - 1;
      } else {
        assert rest[..i] + [rest[i]] == rest[..i + 1];
        i := i + 1;
      }
    }
    assert rest[..i] + rest[i..] == rest && picked + [] == picked;
  }

  lemma TidsOfSnoc(queue: seq<Waiter>, w: Waiter)
    ensures TidsOf(queue + [w]) == TidsOf(queue) + {w.tid}
  {
    forall t ensures t in TidsOf(queue + [w]) <==> t in TidsOf(queue) + {w.tid} {
      TidsOfHolds(queue, t);
      TidsOfHolds(queue + [w], t);
      HoldsSnoc(queue, w, t);
    }
  }

  /** The state of a walk over a queue: what was taken and left before index `i`. */
  ghost predicate Walked(queue: seq<Waiter>, i: nat, n: nat, rest: nat, matches: Waiter -> bool, took: seq<Waiter>,
                         kept: seq<Waiter>)
    requires i <= |queue|
  {
    && Taken(queue, n, matches) == took + Taken(queue[i..], rest, matches)
    && Left(queue, n, matches) == kept + Left(queue[i..], rest, matches)
  }

  lemma AdvanceTake(queue: seq<Waiter>, i: nat, n: nat, rest: nat, matches: Waiter -> bool, took: seq<Waiter>,
                    kept: seq<Waiter>)
    requires i < |queue| && Walked(queue, i, n, rest, matches, took, kept)
    ensures if matches(queue[i]) && rest > 0 then Walked(queue, i + 1, n, rest - 1, matches, took + [queue[i]], kept)
            else Walked(queue, i + 1, n, rest, matches, took, kept + [queue[i]])
  {
    TakeNext(queue[i..], rest, matches, took, kept);
    assert queue[i..][1..] == queue[i + 1..];
  }

  /** One step of the loops that take waiters from the front. */
  lemma TakeNext(queue: seq<Waiter>, n: nat, matches: Waiter -> bool, took: seq<Waiter>, kept: seq<Waiter>)
    requires queue != []
    ensures matches(queue[0]) && n > 0 ==>
              && took + Taken(queue, n, matches) == took + [queue[0]] + Taken(queue[1..], n - 1, matches)
              && Left(queue, n, matches) == Left(queue[1..], n - 1, matches)
    ensures !(matches(queue[0]) && n > 0) ==>
              && Taken(queue, n, matches) == Taken(queue[1..], n, matches)
              && kept + Left(queue, n, matches) == kept + [queue[0]] + Left(queue[1..], n, matches)
  {
    assert queue == [queue[0]] + queue[1..];
  }

  /** Erasing the entry of a thread is taking the first entry that is the thread's. */
  lemma {:induction false} RemoveIsLeft(queue: seq<Waiter>, tid: Tid, i: nat)
    requires i < |queue| && queue[i].tid == tid && forall k :: 0 <= k < i ==> queue[k].tid != tid
    ensures Left(queue, 1, (w: Waiter) => w.tid == tid) == queue[..i] + queue[i + 1..]
    decreases i
  {
    var same := (w: Waiter) => w.tid == tid;
    if i == 0 {
      assert queue[..0] + queue[1..] == queue[1..];
    } else {
      var tail := queue[1..];
      RemoveIsLeft(tail, tid, i - 1);
      assert !same(queue[0]);
      assert tail[..i - 1] == queue[1..i] && tail[i..] == queue[i + 1..];
      assert queue[..i] == [queue[0]] + queue[1..i];
    }
  }

  lemma TakenTids(queue: seq<Waiter>, tid: Tid)
    requires Holds(queue, tid)
    ensures TidsOf(Taken(queue, 1, (w: Waiter) => w.tid == tid)) == {tid}
  {
    var taken := Taken(queue, 1, (w: Waiter) => w.tid == tid);
    forall t ensures t in TidsOf(taken) <==> t == tid {
      TakenIsThread(queue, tid, t);
      TidsOfHolds(taken, t);
    }
  }
}
