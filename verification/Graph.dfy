/** The search driver's view of the world: saved system states, the actor actions
    enabled in them, the choices an action offers and the transition each choice
    takes.  A state is represented by its hash, which is its identity. */
module Graph {
  /** A 64-bit state hash, so there are finitely many states. */
  type Hash = h: int | 0 <= h < 0x1_0000_0000_0000_0000

  datatype Action = Normal | Timeout
  datatype Actor = Actor(process: int, thread: int, action: Action)

  /** One executed transition.  `choice` is -1 for an action that offers no choice. */
  datatype Edge = Edge(source: Hash, actor: Actor, choice: int)

  /** A deterministic system under test.  `failed` is the property monitor. */
  datatype World = World(
    actions: Hash -> seq<Actor>,
    cardinality: (Hash, Actor) -> nat,
    step: (Hash, Actor, int) -> Hash,
    failed: Hash -> bool)

  /** A state in which the property failed is absorbing: it offers no action. */
  function Enabled(w: World, s: Hash): seq<Actor> {
    if w.failed(s) then [] else w.actions(s)
  }

  predicate ValidChoice(cardinality: nat, choice: int) {
    if cardinality == 0 then choice == -1 else 0 <= choice < cardinality
  }

  predicate IsEdge(w: World, e: Edge) {
    && e.actor in Enabled(w, e.source)
    && ValidChoice(w.cardinality(e.source, e.actor), e.choice)
  }

  function Target(w: World, e: Edge): Hash {
    w.step(e.source, e.actor, e.choice)
  }

  /** `t` is reached from `s` by a walk of exactly `k` edges. */
  ghost predicate ReachIn(w: World, s: Hash, k: nat, t: Hash)
    decreases k
  {
    if k == 0 then s == t
    else exists e: Edge :: IsEdge(w, e) && e.source == s && ReachIn(w, Target(w, e), k - 1, t)
  }

  /** No state within `d` steps of `s` fails the property. */
  ghost predicate CleanWithin(w: World, s: Hash, d: int) {
    forall k: nat, t: Hash :: k <= d && ReachIn(w, s, k, t) ==> !w.failed(t)
  }

  /** Some walk of exactly `d` edges from `s` ends in a state that could go on. */
  ghost predicate CutAt(w: World, s: Hash, d: nat) {
    exists t: Hash :: ReachIn(w, s, d, t) && Enabled(w, t) != []
  }

  /** `states` is closed under every edge and holds no failing state. */
  ghost predicate CleanClosed(w: World, states: set<Hash>) {
    && (forall s :: s in states ==> !w.failed(s))
    && (forall e: Edge :: e.source in states && IsEdge(w, e) ==> Target(w, e) in states)
  }

  /** A clean closed set holds everything reachable from its members. */
  lemma {:induction false} ClosureContainsReach(w: World, states: set<Hash>, s: Hash, k: nat, t: Hash)
    requires CleanClosed(w, states) && s in states && ReachIn(w, s, k, t)
    ensures t in states && !w.failed(t)
    decreases k
  {
    if k != 0 {
      var e: Edge :| IsEdge(w, e) && e.source == s && ReachIn(w, Target(w, e), k - 1, t);
      ClosureContainsReach(w, states, Target(w, e), k - 1, t);
    }
  }

  lemma CoveredIsClean(w: World, states: set<Hash>, s: Hash, d: int)
    requires CleanClosed(w, states) && s in states
    ensures CleanWithin(w, s, d)
  {
    forall k: nat, t: Hash | k <= d && ReachIn(w, s, k, t) ensures !w.failed(t) {
      ClosureContainsReach(w, states, s, k, t);
    }
  }

  /** Walks compose. */
  lemma {:induction false} ReachCompose(w: World, s: Hash, j: nat, m: Hash, k: nat, t: Hash)
    requires ReachIn(w, s, j, m) && ReachIn(w, m, k, t)
    ensures ReachIn(w, s, j + k, t)
    decreases j
  {
    if j != 0 {
      var e: Edge :| IsEdge(w, e) && e.source == s && ReachIn(w, Target(w, e), j - 1, m);
      ReachCompose(w, Target(w, e), j - 1, m, k, t);
    }
  }

  lemma ReachSnoc(w: World, s: Hash, k: nat, e: Edge)
    requires ReachIn(w, s, k, e.source) && IsEdge(w, e)
    ensures ReachIn(w, s, k + 1, Target(w, e))
  {
    assert ReachIn(w, Target(w, e), 0, Target(w, e));
    assert ReachIn(w, e.source, 1, Target(w, e));
    ReachCompose(w, s, k, e.source, 1, Target(w, e));
  }

  /** Every non-empty walk ends with an edge. */
  lemma {:induction false} ReachLast(w: World, s: Hash, k: nat, t: Hash) returns (e: Edge)
    requires k > 0 && ReachIn(w, s, k, t)
    ensures IsEdge(w, e) && Target(w, e) == t && ReachIn(w, s, k - 1, e.source)
    decreases k
  {
    var first: Edge :| IsEdge(w, first) && first.source == s && ReachIn(w, Target(w, first), k - 1, t);
    if k == 1 {
      e := first;
    } else {
      e := ReachLast(w, Target(w, first), k - 1, t);
    }
  }

  /** A state is clean to depth `d` when it holds and all its successors are clean one less. */
  lemma CleanFromSuccessors(w: World, s: Hash, d: int)
    requires !w.failed(s)
    requires forall e: Edge :: IsEdge(w, e) && e.source == s ==> CleanWithin(w, Target(w, e), d - 1)
    ensures CleanWithin(w, s, d)
  {
    forall k: nat, t: Hash | k <= d && ReachIn(w, s, k, t) ensures !w.failed(t) {
      if k != 0 {
        var e: Edge :| IsEdge(w, e) && e.source == s && ReachIn(w, Target(w, e), k - 1, t);
        assert CleanWithin(w, Target(w, e), d - 1);
      }
    }
  }

  lemma CutFromSuccessor(w: World, e: Edge, d: nat)
    requires IsEdge(w, e) && CutAt(w, Target(w, e), d)
    ensures CutAt(w, e.source, d + 1)
  {
    var t: Hash :| ReachIn(w, Target(w, e), d, t) && Enabled(w, t) != [];
    assert ReachIn(w, e.source, d + 1, t);
  }

  // ---- Discovered states ------------------------------------------------------------

  /** The states that executed edges lead to, but for failing ones, which end a search. */
  function Discovered(w: World, edges: seq<Edge>): set<Hash> {
    set e | e in edges && !w.failed(Target(w, e)) :: Target(w, e)
  }

  lemma DiscoveredSplit(w: World, a: seq<Edge>, b: seq<Edge>, c: seq<Edge>)
    requires a <= b <= c
    ensures Discovered(w, c[|a|..]) == Discovered(w, b[|a|..]) + Discovered(w, c[|b|..])
  {
    assert c[|a|..] == b[|a|..] + c[|b|..];
  }

  lemma DiscoveredOne(w: World, log: seq<Edge>, e: Edge)
    ensures Discovered(w, (log + [e])[|log|..]) == if w.failed(Target(w, e)) then {} else {Target(w, e)}
  {
    assert (log + [e])[|log|..] == [e];
  }

  /** From one log to the next, exactly what the edges lead to was discovered. */
  predicate Finds(w: World, log: seq<Edge>, seen: set<Hash>, log': seq<Edge>, seen': set<Hash>) {
    log <= log' && seen' == seen + Discovered(w, log'[|log|..])
  }

  lemma FindsTrans(w: World, a: seq<Edge>, x: set<Hash>, b: seq<Edge>, y: set<Hash>, c: seq<Edge>, z: set<Hash>)
    requires Finds(w, a, x, b, y) && Finds(w, b, y, c, z)
    ensures Finds(w, a, x, c, z)
  {
    DiscoveredSplit(w, a, b, c);
  }

  lemma FindsOne(w: World, log: seq<Edge>, seen: set<Hash>, e: Edge)
    ensures Finds(w, log, seen, log + [e], if w.failed(Target(w, e)) then seen else seen + {Target(w, e)})
  {
    DiscoveredOne(w, log, e);
  }
}
