/** The breadth-first search: what one expansion does to the discovered states and the
    queue, what the expansion ledger means, and why the first violation is a nearest one. */
module BreadthFirst {
  import opened Graph
  import opened Choices

  type Int32 = n: int | -0x8000_0000 <= n <= 0x7fff_ffff

  /** The budget that marks a state as expanded without a bound. */
  const UNBOUNDED: Int32 := 0x7fff_ffff

  type Ledger = map<Hash, Int32>

  function Budget(ledger: Ledger, s: Hash): Int32 {
    if s in ledger then ledger[s] else -1
  }

  predicate FullyExpanded(ledger: Ledger, s: Hash) {
    Budget(ledger, s) == UNBOUNDED
  }

  function Record(ledger: Ledger, s: Hash, remaining: Int32): Ledger {
    if s in ledger && remaining <= ledger[s] then ledger else ledger[s := remaining]
  }

  /** The states discovered so far, the FIFO queue, every state ever queued in this run,
      and the executed edges. */
  datatype Wave = Wave(seen: set<Hash>, queue: seq<Hash>, queued: set<Hash>, log: seq<Edge>)

  /** Take note of an executed edge. */
  function Discover(w: World, ledger: Ledger, v: Wave, e: Edge): Wave {
    var t := Target(w, e);
    var noted := v.(seen := v.seen + {t}, log := v.log + [e]);
    if FullyExpanded(ledger, t) || t in v.queued then noted
    else noted.(queue := v.queue + [t], queued := v.queued + {t})
  }

  function DiscoverAll(w: World, ledger: Ledger, v: Wave, edges: seq<Edge>): Wave {
    if edges == [] then v
    else Discover(w, ledger, DiscoverAll(w, ledger, v, edges[..|edges| - 1]), edges[|edges| - 1])
  }

  function Targets(w: World, edges: seq<Edge>): set<Hash> {
    set i | 0 <= i < |edges| :: Target(w, edges[i])
  }

  lemma TargetsSnoc(w: World, edges: seq<Edge>)
    requires edges != []
    ensures Targets(w, edges) == Targets(w, edges[..|edges| - 1]) + {Target(w, edges[|edges| - 1])}
  {
    var front, last := edges[..|edges| - 1], edges[|edges| - 1];
    forall t | t in Targets(w, edges) ensures t in Targets(w, front) + {Target(w, last)} {
      var i :| 0 <= i < |edges| && t == Target(w, edges[i]);
      assert i < |front| ==> front[i] == edges[i];
    }
    forall t | t in Targets(w, front) ensures t in Targets(w, edges) {
      var i :| 0 <= i < |front| && t == Target(w, front[i]);
      assert front[i] == edges[i];
    }
  }

  lemma {:induction false} DiscoverAllAppend(w: World, ledger: Ledger, v: Wave, a: seq<Edge>, b: seq<Edge>)
    ensures DiscoverAll(w, ledger, v, a + b) == DiscoverAll(w, ledger, DiscoverAll(w, ledger, v, a), b)
    decreases |b|
  {
    if b == [] {
      assert a + b == a;
    } else {
      assert (a + b)[..|a + b| - 1] == a + b[..|b| - 1];
      DiscoverAllAppend(w, ledger, v, a, b[..|b| - 1]);
    }
  }

  /** An expansion discovers every target, and appends exactly the ones that are neither
      expanded nor queued yet to the queue, each once. */
  lemma {:induction false} DiscoverAllForm(w: World, ledger: Ledger, v: Wave, edges: seq<Edge>)
    returns (added: seq<Hash>)
    ensures var v' := DiscoverAll(w, ledger, v, edges);
            && v'.log == v.log + edges
            && v'.seen == v.seen + Targets(w, edges)
            && v'.queue == v.queue + added
            && Distinct(added)
            && (forall t :: t in added <==> t in Targets(w, edges) && !FullyExpanded(ledger, t) && t !in v.queued)
            && v'.queued == v.queued + (set t | t in added)
    decreases |edges|
  {
    if edges == [] {
      added := [];
    } else {
      var front, last := edges[..|edges| - 1], edges[|edges| - 1];
      added := DiscoverAllForm(w, ledger, v, front);
      TargetsSnoc(w, edges);
      assert edges == front + [last];
      var t := Target(w, last);
      if !FullyExpanded(ledger, t) && t !in DiscoverAll(w, ledger, v, front).queued {
        added := added + [t];
      }
    }
  }

  lemma {:induction false} EdgeOrderMembers(w: World, s: Hash, actors: seq<Actor>, e: Edge)
    ensures e in EdgeOrder(w, s, actors) <==>
            e.source == s && e.actor in actors && ValidChoice(w.cardinality(s, e.actor), e.choice)
    decreases actors
  {
    if actors != [] {
      var head := ActorOrder(w, s, actors[0]);
      EdgeOrderMembers(w, s, actors[1..], e);
      ActorOrderCount(w, s, actors[0], e);
      assert e in head <==> multiset(head)[e] > 0;
      assert actors == [actors[0]] + actors[1..];
    }
  }

  /** All edges of a state, in execution order. */
  function EdgesOf(w: World, s: Hash): seq<Edge> {
    EdgeOrder(w, s, Enabled(w, s))
  }

  /** Expanding a state reaches exactly its successors. */
  lemma EdgesOfComplete(w: World, s: Hash)
    ensures forall e: Edge :: e in EdgesOf(w, s) <==> IsEdge(w, e) && e.source == s
    ensures forall e: Edge :: IsEdge(w, e) && e.source == s ==> Target(w, e) in Targets(w, EdgesOf(w, s))
    ensures forall t :: t in Targets(w, EdgesOf(w, s)) ==>
            exists e: Edge :: IsEdge(w, e) && e.source == s && Target(w, e) == t
  {
    forall e: Edge ensures e in EdgesOf(w, s) <==> IsEdge(w, e) && e.source == s {
      EdgeOrderMembers(w, s, Enabled(w, s), e);
    }
    forall t | t in Targets(w, EdgesOf(w, s))
      ensures exists e: Edge :: IsEdge(w, e) && e.source == s && Target(w, e) == t {
      var i :| 0 <= i < |EdgesOf(w, s)| && t == Target(w, EdgesOf(w, s)[i]);
      assert EdgesOf(w, s)[i] in EdgesOf(w, s);
    }
  }

  // ---- The ledger across runs -----------------------------------------------------

  /** An expanded state holds, and so do all its successors, which are discovered. */
  ghost predicate LedgerSound(w: World, ledger: Ledger, seen: set<Hash>, log: seq<Edge>) {
    forall s: Hash :: FullyExpanded(ledger, s) ==>
      && s in seen && !w.failed(s)
      && forall e: Edge :: IsEdge(w, e) && e.source == s ==> e in log && Target(w, e) in seen && !w.failed(Target(w, e))
  }

  /** When every discovered state is expanded, the discovered states are closed and clean. */
  lemma AllExpandedIsClosed(w: World, ledger: Ledger, seen: set<Hash>, log: seq<Edge>)
    requires LedgerSound(w, ledger, seen, log)
    requires forall s :: s in seen ==> FullyExpanded(ledger, s)
    ensures CleanClosed(w, seen)
    ensures forall e: Edge :: e.source in seen && IsEdge(w, e) ==> e in log
  {
  }

  lemma LedgerGrows(w: World, ledger: Ledger, seen: set<Hash>, log: seq<Edge>, seen': set<Hash>, log': seq<Edge>)
    requires LedgerSound(w, ledger, seen, log) && seen <= seen' && log <= log'
    ensures LedgerSound(w, ledger, seen', log')
  {
    assert forall e :: e in log ==> e in log';
  }

  // ---- One run --------------------------------------------------------------------

  /** The run-wide facts at the head of the loop.  `level` gives each queued state the
      length of the walk it was reached by. */
  ghost predicate WaveSound(w: World, root: Hash, ledger: Ledger, v: Wave, level: map<Hash, nat>) {
    && LedgerSound(w, ledger, v.seen, v.log)
    && Distinct(v.queue)
    && level.Keys == v.queued && v.queued <= v.seen
    && root in v.queued && level[root] == 0
    && (forall s :: s in v.queue ==> s in v.queued)
    && (forall s :: s in v.queued ==> s in v.queue || FullyExpanded(ledger, s))
    && (forall s :: s in v.queued && s != root ==> !w.failed(s))
    && (forall s :: s in v.queued ==> ReachIn(w, root, level[s], s))
  }

  /** The two-level invariant of the queue: it is sorted by level and spans at most two of
      them, the states of `order`, which this run expanded, lie no deeper, and their edges
      go down at most one level. */
  ghost predicate Layered(w: World, v: Wave, level: map<Hash, nat>, order: seq<Hash>)
    requires level.Keys == v.queued && forall s :: s in v.queue || s in order ==> s in v.queued
  {
    && (forall i, j :: 0 <= i < j < |v.queue| ==> level[v.queue[i]] <= level[v.queue[j]] <= level[v.queue[i]] + 1)
    && (forall s, t :: s in order && t in v.queue ==> level[s] <= level[t])
    && (forall e: Edge :: IsEdge(w, e) && e.source in order && Target(w, e) in v.queued ==>
          level[Target(w, e)] <= level[e.source] + 1)
  }

  /** The levels after expanding the head of the queue. */
  function Deepen(v: Wave, v': Wave, level: map<Hash, nat>, s: Hash): map<Hash, nat>
    requires s in level
  {
    map t | t in v'.queued :: if t in level then level[t] else level[s] + 1
  }

  /** Pop the head of the queue and expand it. */
  function Expand(w: World, ledger: Ledger, v: Wave): Wave
    requires v.queue != []
  {
    DiscoverAll(w, ledger, v.(queue := v.queue[1..]), EdgesOf(w, v.queue[0]))
  }

  /** The popped head is expanded without meeting a violation. */
  ghost predicate CleanHead(w: World, v: Wave)
    requires v.queue != []
  {
    !w.failed(v.queue[0]) && NoneFails(w, EdgesOf(w, v.queue[0]))
  }

  lemma CleanTargets(w: World, s: Hash)
    requires NoneFails(w, EdgesOf(w, s))
    ensures forall t :: t in Targets(w, EdgesOf(w, s)) ==> !w.failed(t)
    ensures forall e: Edge :: IsEdge(w, e) && e.source == s ==> !w.failed(Target(w, e))
  {
    EdgesOfComplete(w, s);
    forall t | t in Targets(w, EdgesOf(w, s)) ensures !w.failed(t) {
      var i :| 0 <= i < |EdgesOf(w, s)| && t == Target(w, EdgesOf(w, s)[i]);
    }
  }

  lemma ExpandLedger(w: World, ledger: Ledger, v: Wave)
    requires LedgerSound(w, ledger, v.seen, v.log) && v.queue != [] && v.queue[0] in v.seen
    requires CleanHead(w, v)
    ensures LedgerSound(w, Record(ledger, v.queue[0], UNBOUNDED), Expand(w, ledger, v).seen, Expand(w, ledger, v).log)
  {
    var s, v' := v.queue[0], Expand(w, ledger, v);
    var added := DiscoverAllForm(w, ledger, v.(queue := v.queue[1..]), EdgesOf(w, s));
    EdgesOfComplete(w, s);
    CleanTargets(w, s);
    LedgerGrows(w, ledger, v.seen, v.log, v'.seen, v'.log);
    var ledger' := Record(ledger, s, UNBOUNDED);
    forall x: Hash | FullyExpanded(ledger', x)
      ensures x in v'.seen && !w.failed(x)
      ensures forall e: Edge :: IsEdge(w, e) && e.source == x ==>
              e in v'.log && Target(w, e) in v'.seen && !w.failed(Target(w, e))
    {
      assert x == s || FullyExpanded(ledger, x);
    }
  }

  /** The run-wide facts survive an expansion. */
  lemma ExpandSound(w: World, root: Hash, ledger: Ledger, v: Wave, level: map<Hash, nat>)
    requires WaveSound(w, root, ledger, v, level) && v.queue != [] && CleanHead(w, v)
    ensures var s, v' := v.queue[0], Expand(w, ledger, v);
            WaveSound(w, root, Record(ledger, s, UNBOUNDED), v', Deepen(v, v', level, s))
  {
    var s, v' := v.queue[0], Expand(w, ledger, v);
    var ledger', level' := Record(ledger, s, UNBOUNDED), Deepen(v, v', level, s);
    ExpandLedger(w, ledger, v);
    var added := DiscoverAllForm(w, ledger, v.(queue := v.queue[1..]), EdgesOf(w, s));
    EdgesOfComplete(w, s);
    CleanTargets(w, s);
    ExpandQueue(v, v', ledger, s, added);
    forall t | t in v'.queued ensures ReachIn(w, root, level'[t], t) {
      if t !in v.queued {
        var e: Edge :| IsEdge(w, e) && e.source == s && Target(w, e) == t;
        ReachSnoc(w, root, level[s], e);
      }
    }
  }

  /** The queue stays duplicate-free and every queued state is waiting or expanded. */
  lemma ExpandQueue(v: Wave, v': Wave, ledger: Ledger, s: Hash, added: seq<Hash>)
    requires v.queue != [] && s == v.queue[0] && Distinct(v.queue) && Distinct(added)
    requires forall t :: t in v.queue ==> t in v.queued
    requires forall t :: t in v.queued ==> t in v.queue || FullyExpanded(ledger, t)
    requires forall t :: t in added ==> t !in v.queued
    requires v'.queue == v.queue[1..] + added && v'.queued == v.queued + (set t | t in added)
    ensures Distinct(v'.queue)
    ensures forall t :: t in v'.queue ==> t in v'.queued
    ensures forall t :: t in v'.queued ==> t in v'.queue || FullyExpanded(Record(ledger, s, UNBOUNDED), t)
  {
    forall t | t in v'.queued ensures t in v'.queue || FullyExpanded(Record(ledger, s, UNBOUNDED), t) {
      if t in v.queue && t != s {
        var i :| 0 <= i < |v.queue| && v.queue[i] == t;
        assert v'.queue[i - 1] == t;
      }
    }
    forall i, j | 0 <= i < j < |v'.queue| ensures v'.queue[i] != v'.queue[j] {
      var n := |v.queue| - 1;
      assert i < n ==> v'.queue[i] == v.queue[i + 1] && v.queue[i + 1] in v.queue;
      assert j < n ==> v'.queue[j] == v.queue[j + 1];
      assert j >= n ==> v'.queue[j] == added[j - n] && added[j - n] in added;
      assert i >= n ==> v'.queue[i] == added[i - n];
    }
  }

  /** The level of a state that the expansion of the head has put in the queue's view. */
  lemma DeepenBound(w: World, v: Wave, v': Wave, level: map<Hash, nat>, order: seq<Hash>, t: Hash)
    requires level.Keys == v.queued && (forall x :: x in v.queue || x in order ==> x in v.queued)
    requires Layered(w, v, level, order) && v.queue != [] && t in v'.queued
    requires t in v.queued ==> t in v.queue || t in order || level[t] == 0
    ensures Deepen(v, v', level, v.queue[0])[t] <= level[v.queue[0]] + 1
    ensures t !in v.queued || t in v.queue ==> level[v.queue[0]] <= Deepen(v, v', level, v.queue[0])[t]
  {
    if t in v.queue {
      LayeredHead(v, level, t);
    }
    assert v.queue[0] in v.queue;
  }

  lemma LayeredHead(v: Wave, level: map<Hash, nat>, t: Hash)
    requires t in v.queue && forall s :: s in v.queue ==> s in level
    requires forall i, j :: 0 <= i < j < |v.queue| ==> level[v.queue[i]] <= level[v.queue[j]] <= level[v.queue[i]] + 1
    ensures level[v.queue[0]] <= level[t] <= level[v.queue[0]] + 1
  {
  }

  lemma LayeredQueue(v: Wave, v': Wave, level: map<Hash, nat>, s: Hash, added: seq<Hash>)
    requires v.queue != [] && s == v.queue[0] && level.Keys == v.queued
    requires forall t :: t in v.queue ==> t in v.queued
    requires forall t :: t in added ==> t !in v.queued
    requires v'.queue == v.queue[1..] + added && v'.queued == v.queued + (set t | t in added)
    requires forall i, j :: 0 <= i < j < |v.queue| ==> level[v.queue[i]] <= level[v.queue[j]] <= level[v.queue[i]] + 1
    ensures var level' := Deepen(v, v', level, s);
            && (forall t :: t in v'.queue ==> t in level')
            && forall i, j :: 0 <= i < j < |v'.queue| ==>
               level'[v'.queue[i]] <= level'[v'.queue[j]] <= level'[v'.queue[i]] + 1
  {
    var level', n := Deepen(v, v', level, s), |v.queue| - 1;
    forall i | 0 <= i < |v'.queue|
      ensures v'.queue[i] in level'
      ensures i < n ==> level'[v'.queue[i]] == level[v.queue[i + 1]]
      ensures i >= n ==> level'[v'.queue[i]] == level[s] + 1
    {
      assert i < n ==> v'.queue[i] == v.queue[i + 1] && v.queue[i + 1] in v.queue;
      assert i >= n ==> v'.queue[i] == added[i - n] && added[i - n] in added;
    }
  }

  /** A queued state that turns out to be expanded already is dropped. */
  lemma SkipSound(w: World, root: Hash, ledger: Ledger, v: Wave, level: map<Hash, nat>)
    requires WaveSound(w, root, ledger, v, level) && v.queue != [] && FullyExpanded(ledger, v.queue[0])
    ensures WaveSound(w, root, ledger, v.(queue := v.queue[1..]), level)
  {
    assert v.queue == [v.queue[0]] + v.queue[1..];
  }

  lemma SkipLayered(w: World, v: Wave, level: map<Hash, nat>, order: seq<Hash>)
    requires level.Keys == v.queued && (forall s :: s in v.queue || s in order ==> s in v.queued)
    requires Layered(w, v, level, order) && v.queue != []
    ensures forall s :: s in v.queue[1..] ==> s in v.queued
    ensures Layered(w, v.(queue := v.queue[1..]), level, order)
  {
    assert v.queue == [v.queue[0]] + v.queue[1..];
  }

  /** The executed edges of a sequence of whole expansions. */
  function Expansions(w: World, order: seq<Hash>): seq<Edge> {
    if order == [] then [] else Expansions(w, order[..|order| - 1]) + EdgesOf(w, order[|order| - 1])
  }

  /** What a (possibly cut short) expansion leaves behind: a violating edge is executed but
      its target is not noted. */
  function Settle(w: World, ledger: Ledger, v: Wave, delivered: seq<Edge>, violated: bool): Wave
    requires violated ==> delivered != []
  {
    if violated then
      var v' := DiscoverAll(w, ledger, v, delivered[..|delivered| - 1]);
      v'.(log := v'.log + [delivered[|delivered| - 1]])
    else DiscoverAll(w, ledger, v, delivered)
  }

  /** Settling a part after a clean part is settling both together. */
  lemma SettleAppend(w: World, ledger: Ledger, v: Wave, a: seq<Edge>, b: seq<Edge>, violated: bool)
    requires violated ==> b != []
    ensures Settle(w, ledger, DiscoverAll(w, ledger, v, a), b, violated) == Settle(w, ledger, v, a + b, violated)
  {
    if violated {
      assert (a + b)[..|a + b| - 1] == a + b[..|b| - 1];
      DiscoverAllAppend(w, ledger, v, a, b[..|b| - 1]);
    } else {
      DiscoverAllAppend(w, ledger, v, a, b);
    }
  }

  lemma SettleLog(w: World, ledger: Ledger, v: Wave, delivered: seq<Edge>, violated: bool)
    requires violated ==> delivered != []
    ensures Settle(w, ledger, v, delivered, violated).log == v.log + delivered
    ensures v.seen <= Settle(w, ledger, v, delivered, violated).seen
  {
    if violated {
      var added := DiscoverAllForm(w, ledger, v, delivered[..|delivered| - 1]);
      assert delivered == delivered[..|delivered| - 1] + [delivered[|delivered| - 1]];
    } else {
      var added := DiscoverAllForm(w, ledger, v, delivered);
    }
  }

  /** An expansion, cut short or not, discovers exactly what its edges lead to. */
  lemma SettleFinds(w: World, ledger: Ledger, v: Wave, order: seq<Edge>, delivered: seq<Edge>, violated: bool)
    requires DeliveredUpToViolation(w, order, delivered, violated)
    ensures var v' := Settle(w, ledger, v, delivered, violated); Finds(w, v.log, v.seen, v'.log, v'.seen)
  {
    SettleLog(w, ledger, v, delivered, violated);
    var clean := if violated then delivered[..|delivered| - 1] else delivered;
    var added := DiscoverAllForm(w, ledger, v, clean);
    assert (v.log + delivered)[|v.log|..] == delivered;
    forall t: Hash ensures t in Discovered(w, delivered) <==> t in Targets(w, clean) {
      if t in Targets(w, clean) {
        var i :| 0 <= i < |clean| && t == Target(w, clean[i]);
        assert delivered[i] == clean[i];
      }
      if t in Discovered(w, delivered) {
        var i :| 0 <= i < |delivered| && !w.failed(Target(w, delivered[i])) && t == Target(w, delivered[i]);
        assert clean[i] == delivered[i];
      }
    }
  }

  // ---- A whole run ----------------------------------------------------------------

  ghost predicate Reachable(w: World, root: Hash, t: Hash) {
    exists k: nat :: ReachIn(w, root, k, t)
  }

  predicate NoneExpanded(ledger: Ledger) {
    forall s :: s in ledger ==> !FullyExpanded(ledger, s)
  }

  /** Exactly the states of `order` have been added to the expanded ones. */
  predicate LedgerIs(ledger: Ledger, ledger0: Ledger, order: seq<Hash>) {
    forall s :: s in ledger.Keys + ledger0.Keys || s in order ==>
      (FullyExpanded(ledger, s) <==> FullyExpanded(ledger0, s) || s in order)
  }

  /** How far a run has come from the ledger, discovered states and log it started with:
      it has expanded exactly the states of `order`, each once. */
  ghost predicate Progress(w: World, root: Hash, ledger0: Ledger, seen0: set<Hash>, log0: seq<Edge>,
                           ledger: Ledger, v: Wave, order: seq<Hash>) {
    && seen0 <= v.seen
    && (forall s :: s in v.seen ==> s in seen0 || Reachable(w, root, s))
    && v.log == log0 + Expansions(w, order)
    && Distinct(order)
    && (forall s :: s in order ==> !FullyExpanded(ledger0, s))
    && LedgerIs(ledger, ledger0, order)
  }

  lemma TargetsReachable(w: World, root: Hash, s: Hash, t: Hash)
    requires Reachable(w, root, s) && t in Targets(w, EdgesOf(w, s))
    ensures Reachable(w, root, t)
  {
    EdgesOfComplete(w, s);
    var e: Edge :| IsEdge(w, e) && e.source == s && Target(w, e) == t;
    var k: nat :| ReachIn(w, root, k, s);
    ReachSnoc(w, root, k, e);
  }

  lemma ExpansionsSnoc(w: World, log0: seq<Edge>, order: seq<Hash>, s: Hash)
    ensures log0 + Expansions(w, order + [s]) == log0 + Expansions(w, order) + EdgesOf(w, s)
  {
    assert (order + [s])[..|order + [s]| - 1] == order;
  }

  lemma ProgressExpand(w: World, root: Hash, ledger0: Ledger, seen0: set<Hash>, log0: seq<Edge>,
                       ledger: Ledger, v: Wave, order: seq<Hash>)
    requires Progress(w, root, ledger0, seen0, log0, ledger, v, order)
    requires v.queue != [] && !FullyExpanded(ledger, v.queue[0]) && Reachable(w, root, v.queue[0])
    ensures Progress(w, root, ledger0, seen0, log0, Record(ledger, v.queue[0], UNBOUNDED), Expand(w, ledger, v),
              order + [v.queue[0]])
  {
    var s, v' := v.queue[0], Expand(w, ledger, v);
    assert v'.log == v.log + EdgesOf(w, s) && v'.seen == v.seen + Targets(w, EdgesOf(w, s)) by {
      var added := DiscoverAllForm(w, ledger, v.(queue := v.queue[1..]), EdgesOf(w, s));
    }
    ExpansionsSnoc(w, log0, order, s);
    forall t | t in v'.seen ensures t in seen0 || Reachable(w, root, t) {
      if t !in v.seen {
        TargetsReachable(w, root, s, t);
      }
    }
    assert s !in order;
    assert forall x: Hash :: FullyExpanded(Record(ledger, s, UNBOUNDED), x) <==> FullyExpanded(ledger, x) || x == s;
  }

  /** What a run started with. */
  datatype Start = Start(root: Hash, ledger: Ledger, seen: set<Hash>, log: seq<Edge>)

  /** `t` is reached from `root` by `k` edges, none out of a state the ledger lists as
      expanded: a run does not go on from there. */
  ghost predicate FreshReach(w: World, ledger: Ledger, root: Hash, k: nat, t: Hash)
    decreases k
  {
    if k == 0 then t == root
    else exists e: Edge :: IsEdge(w, e) && !FullyExpanded(ledger, e.source) && Target(w, e) == t
                           && FreshReach(w, ledger, root, k - 1, e.source)
  }

  lemma {:induction false} FreshReachIsReach(w: World, ledger: Ledger, root: Hash, k: nat, t: Hash)
    requires FreshReach(w, ledger, root, k, t)
    ensures ReachIn(w, root, k, t)
    decreases k
  {
    if k != 0 {
      var e: Edge :| IsEdge(w, e) && !FullyExpanded(ledger, e.source) && Target(w, e) == t
                     && FreshReach(w, ledger, root, k - 1, e.source);
      FreshReachIsReach(w, ledger, root, k - 1, e.source);
      ReachSnoc(w, root, k - 1, e);
    }
  }

  /** A run whose root is expanded already goes nowhere. */
  lemma {:induction false} StuckAtRoot(w: World, ledger: Ledger, root: Hash, k: nat, t: Hash)
    requires FullyExpanded(ledger, root) && FreshReach(w, ledger, root, k, t)
    ensures t == root
    decreases k
  {
    if k != 0 {
      var e: Edge :| IsEdge(w, e) && !FullyExpanded(ledger, e.source) && Target(w, e) == t
                     && FreshReach(w, ledger, root, k - 1, e.source);
      StuckAtRoot(w, ledger, root, k - 1, e.source);
    }
  }

  /** Without an expanded state in the ledger the two notions agree. */
  lemma {:induction false} ReachIsFreshReach(w: World, ledger: Ledger, root: Hash, k: nat, t: Hash)
    requires NoneExpanded(ledger) && ReachIn(w, root, k, t)
    ensures FreshReach(w, ledger, root, k, t)
    decreases k
  {
    if k != 0 {
      var e := ReachLast(w, root, k, t);
      ReachIsFreshReach(w, ledger, root, k - 1, e.source);
    }
  }

  /** Every edge this run has executed leads to a queued state or to one expanded before. */
  ghost predicate EdgesFollowed(w: World, ledger0: Ledger, queued: set<Hash>, order: seq<Hash>) {
    forall e: Edge :: IsEdge(w, e) && e.source in order ==>
      Target(w, e) in queued || FullyExpanded(ledger0, Target(w, e))
  }

  ghost predicate Frontier(w: World, from: Start, v: Wave, level: map<Hash, nat>, order: seq<Hash>) {
    && level.Keys == v.queued && from.root in v.queued
    && (forall s :: s in v.queued ==> FreshReach(w, from.ledger, from.root, level[s], s))
    && (forall s :: s in v.queued ==> s in v.queue || s in order || FullyExpanded(from.ledger, s))
    && (forall s :: s in order ==> s in v.queued)
    && EdgesFollowed(w, from.ledger, v.queued, order)
  }

  lemma FrontierReach(w: World, from: Start, v: Wave, v': Wave, level: map<Hash, nat>, s: Hash, t: Hash)
    requires s in level && t in v'.queued && FreshReach(w, from.ledger, from.root, level[s], s)
    requires !FullyExpanded(from.ledger, s)
    requires t in level ==> FreshReach(w, from.ledger, from.root, level[t], t)
    requires t !in level ==> t in Targets(w, EdgesOf(w, s))
    ensures FreshReach(w, from.ledger, from.root, Deepen(v, v', level, s)[t], t)
  {
    if t !in level {
      EdgesOfComplete(w, s);
      var e: Edge :| IsEdge(w, e) && e.source == s && Target(w, e) == t;
      assert FreshReach(w, from.ledger, from.root, level[s] + 1, t);
    }
  }

  lemma FrontierExpand(w: World, from: Start, ledger: Ledger, v: Wave, level: map<Hash, nat>, order: seq<Hash>)
    requires Frontier(w, from, v, level, order) && v.queue != [] && v.queue[0] in v.queued
    requires !FullyExpanded(from.ledger, v.queue[0])
    requires LedgerIs(ledger, from.ledger, order)
    ensures var s, v' := v.queue[0], Expand(w, ledger, v);
            Frontier(w, from, v', Deepen(v, v', level, s), order + [s])
  {
    var s, v' := v.queue[0], Expand(w, ledger, v);
    var added := DiscoverAllForm(w, ledger, v.(queue := v.queue[1..]), EdgesOf(w, s));
    assert EdgesFollowed(w, from.ledger, v'.queued, order + [s]) by {
      EdgesOfComplete(w, s);
      FrontierEdges(w, from.ledger, ledger, v, v', order, s);
    }
    forall t | t in v'.queued ensures FreshReach(w, from.ledger, from.root, Deepen(v, v', level, s)[t], t) {
      FrontierReach(w, from, v, v', level, s, t);
    }
    FrontierQueued(from.ledger, v, v', order, added);
  }

  lemma FrontierQueued(ledger0: Ledger, v: Wave, v': Wave, order: seq<Hash>, added: seq<Hash>)
    requires v.queue != [] && forall s :: s in v.queued ==> s in v.queue || s in order || FullyExpanded(ledger0, s)
    requires v'.queue == v.queue[1..] + added && v'.queued == v.queued + (set t | t in added)
    ensures forall t :: t in v'.queued ==> t in v'.queue || t in order + [v.queue[0]] || FullyExpanded(ledger0, t)
  {
    assert v.queue == [v.queue[0]] + v.queue[1..];
  }

  lemma FrontierEdges(w: World, ledger0: Ledger, ledger: Ledger, v: Wave, v': Wave, order: seq<Hash>, s: Hash)
    requires EdgesFollowed(w, ledger0, v.queued, order) && v.queued <= v'.queued
    requires LedgerIs(ledger, ledger0, order) && forall x :: x in order ==> x in v.queued
    requires forall e: Edge :: IsEdge(w, e) && e.source == s ==>
             Target(w, e) in v'.queued || FullyExpanded(ledger, Target(w, e))
    ensures EdgesFollowed(w, ledger0, v'.queued, order + [s])
  {
    forall e: Edge | IsEdge(w, e) && e.source in order + [s]
      ensures Target(w, e) in v'.queued || FullyExpanded(ledger0, Target(w, e))
    {
      if e.source in order {
        assert Target(w, e) in v.queued || FullyExpanded(ledger0, Target(w, e));
      } else {
        assert Target(w, e) in v'.queued || FullyExpanded(ledger, Target(w, e));
      }
    }
  }

  /** The two-level invariant survives an expansion. */
  lemma ExpandLayered(w: World, from: Start, ledger: Ledger, v: Wave, level: map<Hash, nat>, order: seq<Hash>)
    requires Frontier(w, from, v, level, order) && Accounted(from, v, order) && LedgerIs(ledger, from.ledger, order)
    requires v.queue != [] && (forall x :: x in v.queue ==> x in v.queued) && level[from.root] == 0
    requires Layered(w, v, level, order)
    ensures var s, v' := v.queue[0], Expand(w, ledger, v);
            && (forall x :: x in v'.queue || x in order + [s] ==> x in v'.queued)
            && Layered(w, v', Deepen(v, v', level, s), order + [s])
  {
    var s, v' := v.queue[0], Expand(w, ledger, v);
    var added := DiscoverAllForm(w, ledger, v.(queue := v.queue[1..]), EdgesOf(w, s));
    var level' := Deepen(v, v', level, s);
    assert s in v.queue;
    LayeredQueue(v, v', level, s, added);
    forall t | t in v'.queued
      ensures level'[t] <= level[s] + 1 && (t !in v.queued || t in v.queue ==> level[s] <= level'[t])
    {
      DeepenBound(w, v, v', level, order, t);
    }
    LayeredOrder(w, v, v', level, level', order, added);
    LayeredEdges(w, from, ledger, v, v', level, level', order);
  }

  lemma LayeredOrder(w: World, v: Wave, v': Wave, level: map<Hash, nat>, level': map<Hash, nat>, order: seq<Hash>,
                     added: seq<Hash>)
    requires level.Keys == v.queued && (forall x :: x in v.queue || x in order ==> x in v.queued)
    requires v.queue != [] && Layered(w, v, level, order) && level'.Keys == v'.queued
    requires v'.queue == v.queue[1..] + added && v'.queued == v.queued + (set t | t in added)
    requires forall t :: t in v.queued ==> level'[t] == level[t]
    requires forall t :: t in added ==> level'[t] == level[v.queue[0]] + 1
    ensures forall x, t :: x in order + [v.queue[0]] && t in v'.queue ==>
              x in level' && t in level' && level'[x] <= level'[t]
  {
    var s := v.queue[0];
    assert s in v.queue;
    forall x, t | x in order + [s] && t in v'.queue ensures x in level' && t in level' && level'[x] <= level'[t] {
      if t in v.queue[1..] {
        assert t in v.queue;
        LayeredHead(v, level, t);
      }
    }
  }

  lemma LayeredEdges(w: World, from: Start, ledger: Ledger, v: Wave, v': Wave, level: map<Hash, nat>,
                     level': map<Hash, nat>, order: seq<Hash>)
    requires level.Keys == v.queued && (forall x :: x in v.queue || x in order ==> x in v.queued)
    requires v.queue != [] && Layered(w, v, level, order) && level'.Keys == v'.queued
    requires EdgesFollowed(w, from.ledger, v.queued, order) && LedgerIs(ledger, from.ledger, order)
    requires forall t :: t in v.queued ==> t in level' && level'[t] == level[t]
    requires forall t :: t in v'.queued ==>
             level'[t] <= level[v.queue[0]] + 1 && (t in v.queued || !FullyExpanded(ledger, t))
    ensures forall e: Edge :: IsEdge(w, e) && e.source in order + [v.queue[0]] && Target(w, e) in v'.queued ==>
              e.source in level' && level'[Target(w, e)] <= level'[e.source] + 1
  {
    var s := v.queue[0];
    assert s in v.queue;
    forall e: Edge | IsEdge(w, e) && e.source in order + [s] && Target(w, e) in v'.queued
      ensures e.source in level' && level'[Target(w, e)] <= level'[e.source] + 1
    {
      if e.source in order {
        assert Target(w, e) in v.queued || FullyExpanded(from.ledger, Target(w, e));
      }
    }
  }

  /** Every discovered state was known before or is queued; only the root can have been
      expanded before, and it is the first to leave the queue. */
  predicate Accounted(from: Start, v: Wave, order: seq<Hash>) {
    && v.seen <= from.seen + v.queued
    && (from.root in v.queue ==> v.queue == [from.root] && order == [])
    && (forall s :: s in v.queued && FullyExpanded(from.ledger, s) ==> s == from.root)
  }

  lemma AccountedExpand(w: World, from: Start, ledger: Ledger, v: Wave, order: seq<Hash>)
    requires Accounted(from, v, order) && v.queue != [] && from.root in v.queued && LedgerIs(ledger, from.ledger, order)
    requires forall s :: s in order ==> s in v.queued
    requires forall s: Hash :: FullyExpanded(from.ledger, s) ==> s in from.seen
    ensures Accounted(from, Expand(w, ledger, v), order + [v.queue[0]])
  {
    var v' := Expand(w, ledger, v);
    var added := DiscoverAllForm(w, ledger, v.(queue := v.queue[1..]), EdgesOf(w, v.queue[0]));
    forall t | t in v'.seen ensures t in from.seen + v'.queued {
      if t !in v.seen && t !in v'.queued {
        assert FullyExpanded(ledger, t);
      }
    }
    assert v.queue == [v.queue[0]] + v.queue[1..];
  }

  /** Once all queued states are expanded, so is everything reached through unexpanded ones. */
  lemma {:induction false} FreshReachIsExpanded(w: World, ledger0: Ledger, root: Hash, queued: set<Hash>,
                                                order: seq<Hash>, k: nat, t: Hash)
    requires root in queued && EdgesFollowed(w, ledger0, queued, order)
    requires forall s :: s in queued ==> s in order || FullyExpanded(ledger0, s)
    requires FreshReach(w, ledger0, root, k, t)
    ensures t in order || FullyExpanded(ledger0, t)
    decreases k
  {
    if k != 0 {
      var e: Edge :| IsEdge(w, e) && !FullyExpanded(ledger0, e.source) && Target(w, e) == t
                     && FreshReach(w, ledger0, root, k - 1, e.source);
      FreshReachIsExpanded(w, ledger0, root, queued, order, k - 1, e.source);
    }
  }

  /** The loop invariant of a run. */
  ghost predicate RunSound(w: World, from: Start, ledger: Ledger, v: Wave, level: map<Hash, nat>, order: seq<Hash>) {
    && WaveSound(w, from.root, ledger, v, level)
    && Progress(w, from.root, from.ledger, from.seen, from.log, ledger, v, order)
    && from.log <= v.log
    && (forall s: Hash :: FullyExpanded(from.ledger, s) ==> s in from.seen)
    && Frontier(w, from, v, level, order)
    && Accounted(from, v, order)
    && Layered(w, v, level, order)
    && Finds(w, from.log, from.seen + {from.root}, v.log, v.seen)
  }

  lemma RunStarts(w: World, from: Start)
    requires LedgerSound(w, from.ledger, from.seen, from.log)
    ensures RunSound(w, from, from.ledger, Wave(from.seen + {from.root}, [from.root], {from.root}, from.log),
                     map[from.root := 0], [])
  {
    LedgerGrows(w, from.ledger, from.seen, from.log, from.seen + {from.root}, from.log);
    assert ReachIn(w, from.root, 0, from.root);
    assert Reachable(w, from.root, from.root);
    assert FreshReach(w, from.ledger, from.root, 0, from.root);
  }

  lemma RunSkips(w: World, from: Start, ledger: Ledger, v: Wave, level: map<Hash, nat>, order: seq<Hash>)
    requires RunSound(w, from, ledger, v, level, order) && v.queue != [] && FullyExpanded(ledger, v.queue[0])
    ensures RunSound(w, from, ledger, v.(queue := v.queue[1..]), level, order)
  {
    SkipSound(w, from.root, ledger, v, level);
    SkipLayered(w, v, level, order);
  }

  lemma ExpandFinds(w: World, from: Start, ledger: Ledger, v: Wave)
    requires Finds(w, from.log, from.seen + {from.root}, v.log, v.seen) && v.queue != [] && CleanHead(w, v)
    ensures var v' := Expand(w, ledger, v); Finds(w, from.log, from.seen + {from.root}, v'.log, v'.seen)
  {
    var edges, v' := EdgesOf(w, v.queue[0]), Expand(w, ledger, v);
    SettleFinds(w, ledger, v.(queue := v.queue[1..]), edges, edges, false);
    FindsTrans(w, from.log, from.seen + {from.root}, v.log, v.seen, v'.log, v'.seen);
  }

  lemma RunExpands(w: World, from: Start, ledger: Ledger, v: Wave, level: map<Hash, nat>, order: seq<Hash>)
    requires RunSound(w, from, ledger, v, level, order)
    requires v.queue != [] && !FullyExpanded(ledger, v.queue[0]) && CleanHead(w, v)
    ensures var s, v' := v.queue[0], Expand(w, ledger, v);
            RunSound(w, from, Record(ledger, s, UNBOUNDED), v', Deepen(v, v', level, s), order + [s])
  {
    assert Reachable(w, from.root, v.queue[0]);
    ExpandSound(w, from.root, ledger, v, level);
    ProgressExpand(w, from.root, from.ledger, from.seen, from.log, ledger, v, order);
    FrontierExpand(w, from, ledger, v, level, order);
    AccountedExpand(w, from, ledger, v, order);
    ExpandLayered(w, from, ledger, v, level, order);
    ExpandFinds(w, from, ledger, v);
  }

  /** Every hash below `n`. */
  ghost function HashesBelow(n: nat): (r: set<Hash>)
    requires n <= 0x1_0000_0000_0000_0000
    ensures forall h: Hash :: h in r <==> h < n
  {
    if n == 0 then {} else HashesBelow(n - 1) + {n - 1}
  }

  /** The states a run could still queue. */
  ghost function Unqueued(v: Wave): set<Hash> {
    HashesBelow(0x1_0000_0000_0000_0000) - v.queued
  }

  /** An expansion queues a new state or shortens the queue, so every run ends. */
  lemma ExpandMeasure(w: World, ledger: Ledger, v: Wave)
    requires v.queue != []
    ensures var v' := Expand(w, ledger, v);
            Unqueued(v') < Unqueued(v) || (Unqueued(v') == Unqueued(v) && |v'.queue| < |v.queue|)
  {
    var v' := Expand(w, ledger, v);
    var added := DiscoverAllForm(w, ledger, v.(queue := v.queue[1..]), EdgesOf(w, v.queue[0]));
    if added != [] {
      assert added[0] in added && added[0] in Unqueued(v) && added[0] !in Unqueued(v');
    }
  }

  /** A failing state that a run can reach. */
  ghost predicate FreshViolation(w: World, ledger: Ledger, root: Hash) {
    exists k: nat, t: Hash :: FreshReach(w, ledger, root, k, t) && w.failed(t)
  }

  /** Every successor of an expanded state is expanded. */
  ghost predicate LedgerClosed(w: World, ledger: Ledger) {
    forall e: Edge :: IsEdge(w, e) && FullyExpanded(ledger, e.source) ==> FullyExpanded(ledger, Target(w, e))
  }

  lemma EndsClosed(w: World, ledger0: Ledger, ledger: Ledger, queued: set<Hash>, order: seq<Hash>)
    requires LedgerClosed(w, ledger0) && LedgerIs(ledger, ledger0, order) && EdgesFollowed(w, ledger0, queued, order)
    requires forall s :: s in queued ==> s in order || FullyExpanded(ledger0, s)
    ensures LedgerClosed(w, ledger)
  {
    forall e: Edge | IsEdge(w, e) && FullyExpanded(ledger, e.source) ensures FullyExpanded(ledger, Target(w, e)) {
      assert FullyExpanded(ledger0, e.source) || e.source in order;
    }
  }

  /** A drained queue has expanded the root and everything it discovered anew, and leaves no
      failing state that can be reached through unexpanded ones. */
  lemma RunEnds(w: World, from: Start, ledger: Ledger, v: Wave, level: map<Hash, nat>, order: seq<Hash>)
    requires RunSound(w, from, ledger, v, level, order) && v.queue == []
    ensures FullyExpanded(ledger, from.root) && from.root in v.seen
    ensures forall s :: s in v.seen ==> s in from.seen || FullyExpanded(ledger, s)
    ensures !FreshViolation(w, from.ledger, from.root)
    ensures LedgerClosed(w, from.ledger) ==> LedgerClosed(w, ledger)
  {
    forall k: nat, t: Hash | FreshReach(w, from.ledger, from.root, k, t) ensures !w.failed(t) {
      FreshReachIsExpanded(w, from.ledger, from.root, v.queued, order, k, t);
    }
    if LedgerClosed(w, from.ledger) {
      EndsClosed(w, from.ledger, ledger, v.queued, order);
    }
  }

  // ---- Nearest violation ----------------------------------------------------------

  /** Levels that every edge out of an unexpanded state above `bound` respects. */
  ghost predicate LevelsRespected(w: World, ledger0: Ledger, root: Hash, level: map<Hash, nat>, bound: nat) {
    && root in level && level[root] == 0 && !w.failed(root)
    && forall e: Edge | IsEdge(w, e) && e.source in level && !FullyExpanded(ledger0, e.source) ::
         level[e.source] < bound ==>
           && !w.failed(Target(w, e))
           && (|| FullyExpanded(ledger0, Target(w, e))
               || (Target(w, e) in level && level[Target(w, e)] <= level[e.source] + 1))
  }

  /** Such levels bound all short walks, and none of these ends in a violation. */
  lemma {:induction false} LevelsBoundWalks(w: World, ledger0: Ledger, root: Hash, level: map<Hash, nat>, bound: nat,
                                            j: nat, x: Hash)
    requires LevelsRespected(w, ledger0, root, level, bound) && j <= bound && FreshReach(w, ledger0, root, j, x)
    ensures !w.failed(x) && (FullyExpanded(ledger0, x) || (x in level && level[x] <= j))
    decreases j
  {
    if j != 0 {
      var e: Edge :| IsEdge(w, e) && !FullyExpanded(ledger0, e.source) && Target(w, e) == x
                     && FreshReach(w, ledger0, root, j - 1, e.source);
      LevelsBoundWalks(w, ledger0, root, level, bound, j - 1, e.source);
    }
  }

  /** Every state nearer than the head of the queue has been expanded. */
  lemma NearerIsExpanded(w: World, ledger0: Ledger, v: Wave, level: map<Hash, nat>, order: seq<Hash>, s: Hash)
    requires level.Keys == v.queued && (forall x :: x in v.queue || x in order ==> x in v.queued)
    requires Layered(w, v, level, order) && v.queue != []
    requires s in v.queued && (s in v.queue || s in order || FullyExpanded(ledger0, s)) && level[s] < level[v.queue[0]]
    ensures s in order || FullyExpanded(ledger0, s)
  {
    if s in v.queue {
      LayeredHead(v, level, s);
    }
  }

  /** Every edge out of a state nearer than the head of the queue has been executed. */
  lemma NearerIsClean(w: World, from: Start, ledger: Ledger, v: Wave, level: map<Hash, nat>, order: seq<Hash>)
    requires RunSound(w, from, ledger, v, level, order) && v.queue != [] && !w.failed(v.queue[0])
    ensures LevelsRespected(w, from.ledger, from.root, level, level[v.queue[0]])
  {
    assert v.queue[0] in v.queue;
    forall e: Edge | IsEdge(w, e) && e.source in level && !FullyExpanded(from.ledger, e.source) &&
      level[e.source] < level[v.queue[0]]
      ensures !w.failed(Target(w, e))
      ensures FullyExpanded(from.ledger, Target(w, e)) ||
              (Target(w, e) in level && level[Target(w, e)] <= level[e.source] + 1)
    {
      NearerIsExpanded(w, from.ledger, v, level, order, e.source);
      assert FullyExpanded(ledger, e.source);
    }
  }

  /** `t` fails, `d` steps from `root`, and nothing nearer fails. */
  ghost predicate NearestViolation(w: World, root: Hash, d: nat, t: Hash) {
    && ReachIn(w, root, d, t) && w.failed(t)
    && forall j: nat, x: Hash :: j < d && ReachIn(w, root, j, x) ==> !w.failed(x)
  }

  /** The same among what a run can reach. */
  ghost predicate NearestFresh(w: World, ledger: Ledger, root: Hash, d: nat, t: Hash) {
    && FreshReach(w, ledger, root, d, t) && w.failed(t)
    && forall j: nat, x: Hash :: j < d && FreshReach(w, ledger, root, j, x) ==> !w.failed(x)
  }

  /** With nothing expanded before, nearest among the reachable is nearest of all. */
  lemma FreshIsNearest(w: World, ledger: Ledger, root: Hash, d: nat, t: Hash)
    requires NearestFresh(w, ledger, root, d, t) && NoneExpanded(ledger)
    ensures NearestViolation(w, root, d, t)
  {
    FreshReachIsReach(w, ledger, root, d, t);
    forall j: nat, x: Hash | j < d && ReachIn(w, root, j, x) ensures !w.failed(x) {
      ReachIsFreshReach(w, ledger, root, j, x);
    }
  }

  /** The state a run stopped at: the target of the last edge it executed, or the root. */
  function Found(w: World, from: Start, log: seq<Edge>): Hash {
    if |log| <= |from.log| then from.root else Target(w, log[|log| - 1])
  }

  /** A run stopped at a state that fails `d` steps from its root: nothing nearer fails among
      what it can reach, whatever is two steps nearer has been expanded, and nothing else
      where the root or a successor of it fails. */
  ghost predicate StoppedAt(w: World, from: Start, order: seq<Hash>, log: seq<Edge>, d: nat) {
    && NearestFresh(w, from.ledger, from.root, d, Found(w, from, log))
    && (forall j: nat, x: Hash :: j + 1 < d && FreshReach(w, from.ledger, from.root, j, x) ==>
          x in order || FullyExpanded(from.ledger, x))
    && (order == [] <==> d <= 1)
  }

  ghost predicate ViolationFound(w: World, from: Start, order: seq<Hash>, log: seq<Edge>) {
    && from.log <= log && (log != from.log ==> IsEdge(w, log[|log| - 1]))
    && exists d: nat :: StoppedAt(w, from, order, log, d)
  }

  /** The violating edge of the head leads to a nearest violation. */
  lemma ViolationIsNearest(w: World, from: Start, ledger: Ledger, v: Wave, level: map<Hash, nat>, order: seq<Hash>,
                           e: Edge)
    requires RunSound(w, from, ledger, v, level, order)
    requires v.queue != [] && !FullyExpanded(ledger, v.queue[0]) && !w.failed(v.queue[0])
    requires IsEdge(w, e) && e.source == v.queue[0] && w.failed(Target(w, e))
    ensures NearestFresh(w, from.ledger, from.root, level[e.source] + 1, Target(w, e))
    ensures forall j: nat, x: Hash :: j < level[e.source] && FreshReach(w, from.ledger, from.root, j, x) ==>
              x in order || FullyExpanded(from.ledger, x)
  {
    assert FreshReach(w, from.ledger, from.root, level[e.source] + 1, Target(w, e)) by {
      assert FreshReach(w, from.ledger, from.root, level[e.source], e.source);
    }
    NearerIsClean(w, from, ledger, v, level, order);
    forall j: nat, x: Hash | j <= level[e.source] && FreshReach(w, from.ledger, from.root, j, x)
      ensures !w.failed(x) && (j < level[e.source] ==> x in order || FullyExpanded(from.ledger, x))
    {
      LevelsBoundWalks(w, from.ledger, from.root, level, level[e.source], j, x);
      if j < level[e.source] && !FullyExpanded(from.ledger, x) {
        NearerIsExpanded(w, from.ledger, v, level, order, x);
      }
    }
  }

  /** The head is the root as long as nothing has been expanded. */
  lemma HeadIsRoot(w: World, from: Start, v: Wave, level: map<Hash, nat>, order: seq<Hash>)
    requires Frontier(w, from, v, level, order) && Accounted(from, v, order) && level[from.root] == 0
    requires v.queue != [] && v.queue[0] in v.queued
    ensures order == [] <==> level[v.queue[0]] == 0
  {
    var s := v.queue[0];
    assert FreshReach(w, from.ledger, from.root, level[s], s);
    if order == [] && s != from.root {
      StuckAtRoot(w, from.ledger, from.root, level[s], s);
    }
  }

  lemma RunViolates(w: World, from: Start, ledger: Ledger, v: Wave, level: map<Hash, nat>, order: seq<Hash>, e: Edge,
                    log: seq<Edge>)
    requires RunSound(w, from, ledger, v, level, order)
    requires v.queue != [] && !FullyExpanded(ledger, v.queue[0]) && !w.failed(v.queue[0])
    requires IsEdge(w, e) && e.source == v.queue[0] && w.failed(Target(w, e))
    requires v.log <= log && |log| > |v.log| && log[|log| - 1] == e
    ensures ViolationFound(w, from, order, log)
  {
    ViolationIsNearest(w, from, ledger, v, level, order, e);
    HeadIsRoot(w, from, v, level, order);
    assert StoppedAt(w, from, order, log, level[e.source] + 1);
  }

  /** Only the root can turn out to fail when it is taken from the queue, before any edge. */
  lemma RunViolatesAtHead(w: World, from: Start, ledger: Ledger, v: Wave, level: map<Hash, nat>, order: seq<Hash>)
    requires RunSound(w, from, ledger, v, level, order) && v.queue != [] && w.failed(v.queue[0])
    ensures v.log == from.log && ViolationFound(w, from, order, v.log)
  {
    assert v.queue[0] in v.queue && v.queue[0] == from.root;
    assert v.log == from.log + [];
    assert FreshReach(w, from.ledger, from.root, 0, from.root);
    assert StoppedAt(w, from, order, v.log, 0);
  }
}
