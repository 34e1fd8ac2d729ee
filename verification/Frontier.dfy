/** The frontier of the parallel search: states are leased to workers, whose results are
    committed in any order; a shorter way found late is propagated through what is known. */
module ParallelFrontier {
  import opened Common

  type Key = k: int | 0 <= k < 0x1_0000_0000_0000_0000
  const UINT64_MAX: int := 0xffff_ffff_ffff_ffff

  datatype Policy = Dfs | Bfs | Priority
  datatype Phase = Pending | Inflight | Expanded | Terminal | DepthCut | ModelBudget | Failure
  datatype Status = Running | Complete | Bounded | Failed

  /** `mayExpand` is false for a state at the depth limit, which is only probed. */
  datatype Ticket = Ticket(state: Key, worker: int, lease: nat, depth: nat, mayExpand: bool)

  /** The result of a worker; a budget or failure carries a reason. */
  datatype Expansion = Expansion(kind: Phase, successors: seq<Key>, hasReason: bool)

  datatype Node = Node(depth: nat, phase: Phase, sequence: nat, ticket: Option<Ticket>, successors: seq<Key>)

  type Nodes = map<Key, Node>
  type Graph = Key -> set<Key>

  // ---- Depths ----------------------------------------------------------------------

  /** A walk of the graph ends in `k` with total depth `d`, starting from an admitted state. */
  ghost predicate Reaches(roots: set<(Key, nat)>, g: Graph, k: Key, d: nat)
    decreases d
  {
    (k, d) in roots || (d > 0 && exists p: Key :: Reaches(roots, g, p, d - 1) && k in g(p))
  }

  predicate Active(n: Node) {
    n.phase == Pending || n.phase == Inflight
  }

  /** A state whose successors are all known: it has been expanded or has none. */
  predicate Settled(n: Node) {
    n.phase == Expanded || n.phase == Terminal
  }

  /** Each successor of an expanded state is known, and is at most one step deeper. */
  predicate Relaxed(nodes: Nodes, k: Key)
    requires k in nodes
  {
    nodes[k].phase == Expanded ==> forall y :: y in nodes[k].successors ==>
      y in nodes && nodes[y].depth <= nodes[k].depth + 1
  }

  predicate ToldTrue(g: Graph, limit: nat, k: Key, n: Node) {
    && n.depth <= limit
    && (n.phase == Expanded ==> n.depth < limit && (set y | y in n.successors) == g(k))
    && (n.phase == Terminal ==> g(k) == {})
    && (n.phase == DepthCut ==> n.depth == limit && g(k) != {})
  }

  predicate TicketOk(limit: nat, leases: nat, settled: set<nat>, k: Key, n: Node) {
    && (n.ticket.Some? <==> n.phase == Inflight)
    && (n.ticket.Some? ==>
          var t := n.ticket.value;
          && t.state == k && t.depth >= n.depth && t.depth <= limit && t.mayExpand == (t.depth < limit)
          && 0 < t.lease <= leases && t.lease !in settled)
  }

  /** What a frontier is judged against: the states admitted, the graph the workers explore,
      the depth limit, and which leases were handed out and used up. */
  datatype Context = Context(roots: set<(Key, nat)>, g: Graph, limit: nat, leases: nat, settled: set<nat>)

  ghost predicate NodeOk(c: Context, k: Key, n: Node) {
    ToldTrue(c.g, c.limit, k, n) && TicketOk(c.limit, c.leases, c.settled, k, n) && Reaches(c.roots, c.g, k, n.depth)
  }

  ghost predicate NodesOk(c: Context, nodes: Nodes) {
    forall k {:trigger NodeOk(c, k, nodes[k])} :: k in nodes ==> NodeOk(c, k, nodes[k])
  }

  ghost predicate RootsKnown(roots: set<(Key, nat)>, nodes: Nodes) {
    forall r :: r in roots ==> r.0 in nodes && nodes[r.0].depth <= r.1
  }

  /** Where every state above a depth is settled, the depths down to there are distances. */
  lemma {:induction false} DepthsAreShortest(roots: set<(Key, nat)>, g: Graph, limit: nat, nodes: Nodes, level: nat,
                                             k: Key, d: nat)
    requires RootsKnown(roots, nodes)
    requires forall x :: x in nodes ==> ToldTrue(g, limit, x, nodes[x]) && Relaxed(nodes, x)
    requires forall x :: x in nodes && nodes[x].depth < level ==> Settled(nodes[x])
    requires Reaches(roots, g, k, d) && d <= level
    ensures k in nodes && nodes[k].depth <= d
    decreases d
  {
    if (k, d) !in roots {
      var p: Key :| Reaches(roots, g, p, d - 1) && k in g(p);
      DepthsAreShortest(roots, g, limit, nodes, level, p, d - 1);
      assert ToldTrue(g, limit, p, nodes[p]) && Relaxed(nodes, p);
      assert k in (set y | y in nodes[p].successors);
    }
  }

  /** Where every known state is settled, nothing else can be reached. */
  lemma {:induction false} SettledIsEverything(roots: set<(Key, nat)>, g: Graph, limit: nat, nodes: Nodes, k: Key,
                                               d: nat)
    requires RootsKnown(roots, nodes)
    requires forall x :: x in nodes ==> ToldTrue(g, limit, x, nodes[x]) && Relaxed(nodes, x) && Settled(nodes[x])
    requires Reaches(roots, g, k, d)
    ensures k in nodes && nodes[k].depth <= d
    decreases d
  {
    if (k, d) !in roots {
      var p: Key :| Reaches(roots, g, p, d - 1) && k in g(p);
      SettledIsEverything(roots, g, limit, nodes, p, d - 1);
      assert ToldTrue(g, limit, p, nodes[p]) && Relaxed(nodes, p);
      assert k in (set y | y in nodes[p].successors);
    }
  }

  // ---- The measure of propagation --------------------------------------------------

  function Deeper(nodes: Nodes, d: nat): set<Key> {
    set k | k in nodes && nodes[k].depth > d
  }

  /** The sum of all depths, counted layer by layer. */
  function Potential(nodes: Nodes, n: nat): nat {
    if n == 0 then 0 else |Deeper(nodes, n - 1)| + Potential(nodes, n - 1)
  }

  lemma SubsetCount<T>(a: set<T>, b: set<T>)
    requires a <= b
    ensures |a| <= |b| && (a != b ==> |a| < |b|)
  {
    assert b == a + (b - a);
  }

  lemma {:induction false} PotentialFalls(nodes: Nodes, nodes': Nodes, k: Key, n: nat)
    requires nodes'.Keys == nodes.Keys && k in nodes && nodes'[k].depth < nodes[k].depth
    requires forall x :: x in nodes && x != k ==> nodes'[x].depth == nodes[x].depth
    ensures Potential(nodes', n) <= Potential(nodes, n)
    ensures n > nodes'[k].depth ==> Potential(nodes', n) < Potential(nodes, n)
  {
    if n > 0 {
      PotentialFalls(nodes, nodes', k, n - 1);
      var a, b := Deeper(nodes', n - 1), Deeper(nodes, n - 1);
      assert a <= b;
      SubsetCount(a, b);
      if n - 1 == nodes'[k].depth {
        assert k in b && k !in a;
      }
    }
  }

  // ---- The indexes -----------------------------------------------------------------

  /** Pending states by sequence number and, for breadth first, by depth and sequence number;
      the number of active states at each depth; the number of states in each phase. */
  datatype Index = Index(pending: map<nat, Key>, layered: map<(nat, nat), Key>, layers: map<nat, nat>,
                         counts: map<Phase, nat>)

  function Count<T>(m: map<T, nat>, t: T): nat {
    if t in m then m[t] else 0
  }

  function Raise<T>(m: map<T, nat>, t: T): map<T, nat> {
    m[t := Count(m, t) + 1]
  }

  /** One less; an entry that would be zero is dropped. */
  function Lower<T>(m: map<T, nat>, t: T): map<T, nat>
    requires Count(m, t) > 0
  {
    if m[t] == 1 then m - {t} else m[t := m[t] - 1]
  }

  function Add(p: Policy, ix: Index, k: Key, n: Node): Index {
    Index(if n.phase == Pending then ix.pending[n.sequence := k] else ix.pending,
          if n.phase == Pending && p == Bfs then ix.layered[(n.depth, n.sequence) := k] else ix.layered,
          if p == Bfs && Active(n) then Raise(ix.layers, n.depth) else ix.layers,
          Raise(ix.counts, n.phase))
  }

  function Remove(p: Policy, ix: Index, n: Node): Index
    requires Count(ix.counts, n.phase) > 0
    requires p == Bfs && Active(n) ==> Count(ix.layers, n.depth) > 0
  {
    Index(if n.phase == Pending then ix.pending - {n.sequence} else ix.pending,
          if n.phase == Pending && p == Bfs then ix.layered - {(n.depth, n.sequence)} else ix.layered,
          if p == Bfs && Active(n) then Lower(ix.layers, n.depth) else ix.layers,
          Lower(ix.counts, n.phase))
  }

  function InPhase(nodes: Nodes, phase: Phase): set<Key> {
    set k | k in nodes && nodes[k].phase == phase
  }

  function ActiveAt(nodes: Nodes, d: nat): set<Key> {
    set k | k in nodes && nodes[k].depth == d && Active(nodes[k])
  }

  predicate Sequenced(nodes: Nodes, next: nat) {
    && (forall k :: k in nodes ==> nodes[k].sequence < next)
    && (forall k, x :: k in nodes && x in nodes && k != x ==> nodes[k].sequence != nodes[x].sequence)
  }

  predicate PendingOk(nodes: Nodes, pending: map<nat, Key>) {
    && (forall s :: s in pending ==>
         pending[s] in nodes && nodes[pending[s]].phase == Pending && nodes[pending[s]].sequence == s)
    && (forall k :: k in nodes && nodes[k].phase == Pending ==> nodes[k].sequence in pending)
  }

  predicate LayeredOk(nodes: Nodes, layered: map<(nat, nat), Key>) {
    && (forall s :: s in layered ==>
         layered[s] in nodes && nodes[layered[s]].phase == Pending &&
         (nodes[layered[s]].depth, nodes[layered[s]].sequence) == s)
    && (forall k :: k in nodes && nodes[k].phase == Pending ==> (nodes[k].depth, nodes[k].sequence) in layered)
  }

  ghost predicate LayersOk(nodes: Nodes, layers: map<nat, nat>) {
    forall d: nat :: Count(layers, d) == |ActiveAt(nodes, d)| && (d in layers ==> layers[d] > 0)
  }

  ghost predicate CountsOk(nodes: Nodes, counts: map<Phase, nat>) {
    forall phase :: Count(counts, phase) == |InPhase(nodes, phase)|
  }

  ghost predicate IndexOk(p: Policy, nodes: Nodes, ix: Index) {
    && PendingOk(nodes, ix.pending) && CountsOk(nodes, ix.counts)
    && (p == Bfs ==> LayeredOk(nodes, ix.layered) && LayersOk(nodes, ix.layers))
  }

  /** A state counts in its own phase and nowhere else. */
  lemma CountPhase(nodes: Nodes, k: Key, n: Node, phase: Phase)
    requires k !in nodes
    ensures |InPhase(nodes[k := n], phase)| == |InPhase(nodes, phase)| + if n.phase == phase then 1 else 0
  {
    assert InPhase(nodes[k := n], phase) == InPhase(nodes, phase) + if n.phase == phase then {k} else {};
  }

  lemma CountLayer(nodes: Nodes, k: Key, n: Node, d: nat)
    requires k !in nodes
    ensures |ActiveAt(nodes[k := n], d)| == |ActiveAt(nodes, d)| + if Active(n) && n.depth == d then 1 else 0
  {
    assert ActiveAt(nodes[k := n], d) == ActiveAt(nodes, d) + if Active(n) && n.depth == d then {k} else {};
  }

  lemma AddCounts(nodes: Nodes, counts: map<Phase, nat>, k: Key, n: Node)
    requires k !in nodes
    ensures CountsOk(nodes, counts) ==> CountsOk(nodes[k := n], Raise(counts, n.phase))
    ensures CountsOk(nodes[k := n], counts) ==> Count(counts, n.phase) > 0 && CountsOk(nodes, Lower(counts, n.phase))
  {
    if CountsOk(nodes, counts) {
      forall phase ensures Count(Raise(counts, n.phase), phase) == |InPhase(nodes[k := n], phase)| {
        assert Count(counts, phase) == |InPhase(nodes, phase)|;
        CountPhase(nodes, k, n, phase);
      }
    }
    if CountsOk(nodes[k := n], counts) {
      assert Count(counts, n.phase) == |InPhase(nodes[k := n], n.phase)|;
      CountPhase(nodes, k, n, n.phase);
      forall phase ensures Count(Lower(counts, n.phase), phase) == |InPhase(nodes, phase)| {
        assert Count(counts, phase) == |InPhase(nodes[k := n], phase)|;
        CountPhase(nodes, k, n, phase);
      }
    }
  }

  lemma AddLayers(nodes: Nodes, layers: map<nat, nat>, k: Key, n: Node)
    requires k !in nodes
    ensures LayersOk(nodes, layers) ==> LayersOk(nodes[k := n], if Active(n) then Raise(layers, n.depth) else layers)
    ensures LayersOk(nodes[k := n], layers) ==>
              && (Active(n) ==> Count(layers, n.depth) > 0)
              && LayersOk(nodes, if Active(n) then Lower(layers, n.depth) else layers)
  {
    forall d: nat
      ensures |ActiveAt(nodes[k := n], d)| == |ActiveAt(nodes, d)| + if Active(n) && n.depth == d then 1 else 0
    {
      CountLayer(nodes, k, n, d);
    }
  }

  lemma AddIndexOk(p: Policy, nodes: Nodes, ix: Index, k: Key, n: Node)
    requires k !in nodes && IndexOk(p, nodes, ix)
    requires forall x :: x in nodes ==> nodes[x].sequence != n.sequence
    ensures IndexOk(p, nodes[k := n], Add(p, ix, k, n))
  {
    AddCounts(nodes, ix.counts, k, n);
    AddPending(nodes, ix.pending, k, n);
    if p == Bfs {
      AddLayers(nodes, ix.layers, k, n);
      AddLayered(nodes, ix.layered, k, n);
    }
  }

  lemma AddPending(nodes: Nodes, pending: map<nat, Key>, k: Key, n: Node)
    requires k !in nodes && PendingOk(nodes, pending)
    requires forall x :: x in nodes ==> nodes[x].sequence != n.sequence
    ensures PendingOk(nodes[k := n], if n.phase == Pending then pending[n.sequence := k] else pending)
  {
    forall s | s in pending ensures s != n.sequence && pending[s] != k {
      assert pending[s] in nodes && nodes[pending[s]].sequence == s;
    }
  }

  lemma AddLayered(nodes: Nodes, layered: map<(nat, nat), Key>, k: Key, n: Node)
    requires k !in nodes && LayeredOk(nodes, layered)
    requires forall x :: x in nodes ==> nodes[x].sequence != n.sequence
    ensures LayeredOk(nodes[k := n], if n.phase == Pending then layered[(n.depth, n.sequence) := k] else layered)
  {
    forall s | s in layered ensures s != (n.depth, n.sequence) && layered[s] != k {
      assert layered[s] in nodes && (nodes[layered[s]].depth, nodes[layered[s]].sequence) == s;
    }
  }

  lemma RemoveIndexOk(p: Policy, nodes: Nodes, ix: Index, k: Key, n: Node)
    requires k !in nodes && IndexOk(p, nodes[k := n], ix)
    requires forall x :: x in nodes ==> nodes[x].sequence != n.sequence
    ensures Count(ix.counts, n.phase) > 0
    ensures p == Bfs && Active(n) ==> Count(ix.layers, n.depth) > 0
    ensures IndexOk(p, nodes, Remove(p, ix, n))
  {
    AddCounts(nodes, ix.counts, k, n);
    AddLayers(nodes, ix.layers, k, n);
    RemovePending(nodes, ix.pending, k, n);
    if p == Bfs {
      RemoveLayered(nodes, ix.layered, k, n);
    }
  }

  lemma RemovePending(nodes: Nodes, pending: map<nat, Key>, k: Key, n: Node)
    requires k !in nodes && PendingOk(nodes[k := n], pending)
    requires forall x :: x in nodes ==> nodes[x].sequence != n.sequence
    ensures PendingOk(nodes, if n.phase == Pending then pending - {n.sequence} else pending)
  {
    var all := nodes[k := n];
    forall s | s in pending && (n.phase == Pending ==> s != n.sequence)
      ensures pending[s] in nodes && nodes[pending[s]].phase == Pending && nodes[pending[s]].sequence == s
    {
      assert pending[s] in all && all[pending[s]].sequence == s;
    }
    forall x | x in nodes && nodes[x].phase == Pending ensures nodes[x].sequence in pending {
      assert all[x] == nodes[x];
    }
  }

  lemma RemoveLayered(nodes: Nodes, layered: map<(nat, nat), Key>, k: Key, n: Node)
    requires k !in nodes && LayeredOk(nodes[k := n], layered)
    requires forall x :: x in nodes ==> nodes[x].sequence != n.sequence
    ensures LayeredOk(nodes, if n.phase == Pending then layered - {(n.depth, n.sequence)} else layered)
  {
    var all := nodes[k := n];
    forall s | s in layered && (n.phase == Pending ==> s != (n.depth, n.sequence))
      ensures layered[s] in nodes && nodes[layered[s]].phase == Pending &&
              (nodes[layered[s]].depth, nodes[layered[s]].sequence) == s
    {
      assert layered[s] in all && (all[layered[s]].depth, all[layered[s]].sequence) == s;
    }
    forall x | x in nodes && nodes[x].phase == Pending ensures (nodes[x].depth, nodes[x].sequence) in layered {
      assert all[x] == nodes[x];
    }
  }

  /** Changing a state's phase or depth and its place in the indexes. */
  lemma UpdateIndexOk(p: Policy, nodes: Nodes, ix: Index, k: Key, n: Node)
    requires k in nodes && IndexOk(p, nodes, ix) && n.sequence == nodes[k].sequence
    requires forall x :: x in nodes && x != k ==> nodes[x].sequence != n.sequence
    ensures Count(ix.counts, nodes[k].phase) > 0
    ensures p == Bfs && Active(nodes[k]) ==> Count(ix.layers, nodes[k].depth) > 0
    ensures IndexOk(p, nodes[k := n], Add(p, Remove(p, ix, nodes[k]), k, n))
  {
    var rest := nodes - {k};
    assert rest[k := nodes[k]] == nodes && rest[k := n] == nodes[k := n];
    RemoveIndexOk(p, rest, ix, k, nodes[k]);
    AddIndexOk(p, rest, Remove(p, ix, nodes[k]), k, n);
  }

  lemma UpdateSequenced(nodes: Nodes, next: nat, k: Key, n: Node)
    requires Sequenced(nodes, next) && k in nodes && n.sequence == nodes[k].sequence
    ensures Sequenced(nodes[k := n], next) && |nodes[k := n]| == |nodes|
  {
    assert nodes[k := n].Keys == nodes.Keys;
  }

  lemma InsertSequenced(nodes: Nodes, next: nat, k: Key, n: Node)
    requires Sequenced(nodes, next) && k !in nodes && n.sequence == next
    ensures Sequenced(nodes[k := n], next + 1) && |nodes[k := n]| == |nodes| + 1
  {
    assert nodes[k := n].Keys == nodes.Keys + {k};
  }

  // ---- Propagation -----------------------------------------------------------------

  type Item = (Key, nat)

  /** The successors of a state, last first, with the depth to offer them. */
  function Items(successors: seq<Key>, d: nat): seq<Item> {
    seq(|successors|, i requires 0 <= i < |successors| => (successors[|successors| - 1 - i], d))
  }

  lemma ItemsHold(successors: seq<Key>, d: nat, y: Key)
    ensures y in successors <==> (y, d) in Items(successors, d)
    ensures forall w :: w in Items(successors, d) ==> w.0 in successors && w.1 == d
  {
    if y in successors {
      var i :| 0 <= i < |successors| && successors[i] == y;
      assert Items(successors, d)[|successors| - 1 - i] == (y, d);
    }
  }

  /** What offering a depth to a state makes of the nodes. */
  function Offered(nodes: Nodes, next: nat, k: Key, d: nat): Nodes {
    if k !in nodes then nodes[k := Node(d, Pending, next, None, [])]
    else if d >= nodes[k].depth then nodes
    else nodes[k := nodes[k].(depth := d, phase := if nodes[k].phase == DepthCut then Pending else nodes[k].phase)]
  }

  function Followers(nodes: Nodes, k: Key, d: nat): seq<Item> {
    if k in nodes && d < nodes[k].depth && nodes[k].phase == Expanded then Items(nodes[k].successors, d + 1) else []
  }

  /** A successor is at most one step deeper, or an offer to it is still in the work list. */
  predicate OwedEdge(nodes: Nodes, work: seq<Item>, k: Key, y: Key)
    requires k in nodes
  {
    y in nodes && (nodes[y].depth <= nodes[k].depth + 1 || (y, nodes[k].depth + 1) in work)
  }

  /** This holds for every expanded state but `x`. */
  predicate Owed(nodes: Nodes, work: seq<Item>, x: Option<Key>) {
    forall k, y {:trigger OwedEdge(nodes, work, k, y)} ::
      k in nodes && x != Some(k) && nodes[k].phase == Expanded && y in nodes[k].successors ==>
        OwedEdge(nodes, work, k, y)
  }

  /** Offers come from walks, stay within the limit and are all below `base`; only `state`
      may still be unknown. */
  ghost predicate OffersOk(c: Context, nodes: Nodes, work: seq<Item>, state: Key, base: nat) {
    forall w :: w in work ==>
      Reaches(c.roots, c.g, w.0, w.1) && base <= w.1 <= c.limit && (w.0 in nodes || w.0 == state)
  }

  /** States are added as pending ones, and depths only fall. */
  predicate Grows(a: Nodes, b: Nodes) {
    && (forall k :: k in a ==>
          && k in b && b[k].depth <= a[k].depth
          && b[k].sequence == a[k].sequence && b[k].ticket == a[k].ticket && b[k].successors == a[k].successors
          && (b[k].phase == a[k].phase || (a[k].phase == DepthCut && b[k].phase == Pending)))
    && (forall k :: k in b && k !in a ==> b[k].phase == Pending && b[k].ticket.None?)
  }

  lemma OfferGrows(nodes: Nodes, next: nat, k: Key, d: nat)
    ensures Grows(nodes, Offered(nodes, next, k, d))
  {
  }

  lemma OfferKeepsNodes(c: Context, nodes: Nodes, next: nat, k: Key, d: nat)
    requires NodesOk(c, nodes) && Reaches(c.roots, c.g, k, d) && d <= c.limit
    ensures NodesOk(c, Offered(nodes, next, k, d))
  {
    var nodes' := Offered(nodes, next, k, d);
    forall x | x in nodes' ensures NodeOk(c, x, nodes'[x]) {
      if x in nodes {
        assert NodeOk(c, x, nodes[x]);
      }
    }
  }

  lemma OfferKeepsEdge(nodes: Nodes, next: nat, rest: seq<Item>, k: Key, d: nat, j: Key, y: Key)
    requires j in nodes && nodes[j].phase == Expanded && y in nodes[j].successors &&
             OwedEdge(nodes, rest + [(k, d)], j, y)
    ensures OwedEdge(Offered(nodes, next, k, d), rest + Followers(nodes, k, d), j, y)
  {
    if j == k && d < nodes[k].depth {
      ItemsHold(nodes[j].successors, d + 1, y);
    }
  }

  lemma OfferKeepsOwed(nodes: Nodes, next: nat, rest: seq<Item>, k: Key, d: nat, x: Option<Key>)
    requires Owed(nodes, rest + [(k, d)], x)
    ensures Owed(Offered(nodes, next, k, d), rest + Followers(nodes, k, d), x)
  {
    var nodes' := Offered(nodes, next, k, d);
    forall j, y | j in nodes' && x != Some(j) && nodes'[j].phase == Expanded && y in nodes'[j].successors
      ensures OwedEdge(nodes', rest + Followers(nodes, k, d), j, y)
    {
      OfferKeepsEdge(nodes, next, rest, k, d, j, y);
    }
  }

  lemma OfferKeepsOffers(c: Context, nodes: Nodes, next: nat, rest: seq<Item>, k: Key, d: nat, state: Key, base: nat,
                         x: Option<Key>)
    requires NodesOk(c, nodes) && OffersOk(c, nodes, rest + [(k, d)], state, base) && Owed(nodes, rest + [(k, d)], x)
    requires k in nodes && x == Some(k) ==> nodes[k].depth <= d
    ensures OffersOk(c, Offered(nodes, next, k, d), rest + Followers(nodes, k, d), state, base)
  {
    var more := Followers(nodes, k, d);
    assert (k, d) in rest + [(k, d)];
    forall w | w in rest + more
      ensures Reaches(c.roots, c.g, w.0, w.1) && base <= w.1 <= c.limit &&
              (w.0 in Offered(nodes, next, k, d) || w.0 == state)
    {
      if w in rest {
        assert w in rest + [(k, d)];
      } else {
        ItemsHold(nodes[k].successors, d + 1, w.0);
        assert NodeOk(c, k, nodes[k]) && w.0 in (set y | y in nodes[k].successors);
        assert OwedEdge(nodes, rest + [(k, d)], k, w.0);
      }
    }
  }

  ghost predicate Propagating(c: Context, nodes: Nodes, work: seq<Item>, state: Key, base: nat, x: Option<Key>) {
    && NodesOk(c, nodes) && Owed(nodes, work, x) && OffersOk(c, nodes, work, state, base)
    && (x.Some? ==> x.value in nodes && nodes[x.value].depth < base)
  }

  /** One offer taken from the work list keeps what propagation relies on. */
  lemma OfferStep(c: Context, nodes: Nodes, next: nat, rest: seq<Item>, k: Key, d: nat, state: Key, base: nat,
                  x: Option<Key>)
    requires Propagating(c, nodes, rest + [(k, d)], state, base, x)
    ensures base <= d <= c.limit && (k in nodes || k == state)
    ensures Propagating(c, Offered(nodes, next, k, d), rest + Followers(nodes, k, d), state, base, x)
  {
    assert (k, d) in rest + [(k, d)];
    OfferKeepsNodes(c, nodes, next, k, d);
    OfferKeepsOwed(nodes, next, rest, k, d, x);
    OfferKeepsOffers(c, nodes, next, rest, k, d, state, base, x);
  }

  lemma GrowsTrans(a: Nodes, b: Nodes, c: Nodes)
    requires Grows(a, b) && Grows(b, c)
    ensures Grows(a, c)
  {
    forall k | k in c && k !in a ensures c[k].phase == Pending && c[k].ticket.None? {
      if k in b {
        assert b[k].phase == Pending;
      }
    }
  }

  /** Offers go to known states, and so does everything they set off; `x` is a state still
      being settled, which no offer can improve. */
  predicate Spreadable(nodes: Nodes, work: seq<Item>, limit: nat, x: Option<Key>) {
    && (forall w :: w in work ==> w.0 in nodes && (x.Some? && x.value in nodes ==> nodes[x.value].depth <= w.1))
    && (forall k :: k in nodes ==> nodes[k].depth <= limit)
    && (forall k, y :: k in nodes && x != Some(k) && nodes[k].phase == Expanded && y in nodes[k].successors ==>
         y in nodes)
  }

  lemma OfferedItems(nodes: Nodes, rest: seq<Item>, k: Key, d: nat, limit: nat, x: Option<Key>, w: Item)
    requires Spreadable(nodes, rest + [(k, d)], limit, x) && w in rest + Followers(nodes, k, d)
    ensures w.0 in nodes && (x.Some? && x.value in nodes ==> nodes[x.value].depth <= w.1)
  {
    assert (k, d) in rest + [(k, d)];
    if w in rest {
      assert w in rest + [(k, d)];
    } else {
      ItemsHold(nodes[k].successors, d + 1, w.0);
    }
  }

  /** An offer that improves a depth lowers the sum of depths; any other shortens the list. */
  lemma OfferProgresses(nodes: Nodes, rest: seq<Item>, k: Key, d: nat, limit: nat, x: Option<Key>)
    requires Spreadable(nodes, rest + [(k, d)], limit, x)
    ensures k in nodes
    ensures var nodes' := Offered(nodes, 0, k, d);
            && Spreadable(nodes', rest + Followers(nodes, k, d), limit, x)
            && (Potential(nodes', limit) < Potential(nodes, limit) || (nodes' == nodes && Followers(nodes, k, d) == []))
  {
    assert (k, d) in rest + [(k, d)];
    if d < nodes[k].depth {
      PotentialFalls(nodes, Offered(nodes, 0, k, d), k, limit);
    }
    forall w | w in rest + Followers(nodes, k, d)
      ensures w.0 in nodes && (x.Some? && x.value in nodes ==> nodes[x.value].depth <= w.1)
    {
      OfferedItems(nodes, rest, k, d, limit, x, w);
    }
  }

  lemma SplitLast(work: seq<Item>)
    requires work != []
    ensures work == work[..|work| - 1] + [(work[|work| - 1].0, work[|work| - 1].1)]
  {
  }

  /** Work through a list of offers, last first. */
  function Spread(nodes: Nodes, work: seq<Item>, limit: nat, ghost x: Option<Key>): Nodes
    requires Spreadable(nodes, work, limit, x)
    decreases Potential(nodes, limit), |work|
  {
    if work == [] then nodes
    else
      var (k, d) := work[|work| - 1];
      var rest := work[..|work| - 1];
      SplitLast(work);
      OfferProgresses(nodes, rest, k, d, limit, x);
      Spread(Offered(nodes, 0, k, d), rest + Followers(nodes, k, d), limit, x)
  }

  /** Offer a depth to a state and, as far as that improves depths, to everything below. */
  function Propagated(nodes: Nodes, next: nat, state: Key, d: nat, limit: nat, ghost x: Option<Key>): Nodes
    requires Spreadable(nodes, [], limit, x) && (x.Some? && x.value in nodes ==> nodes[x.value].depth <= d)
  {
    if state !in nodes then Offered(nodes, next, state, d) else Spread(nodes, [(state, d)], limit, x)
  }

  lemma {:induction false} SpreadSound(c: Context, nodes: Nodes, work: seq<Item>, state: Key, base: nat, x: Option<Key>)
    requires Spreadable(nodes, work, c.limit, x) && Propagating(c, nodes, work, state, base, x)
    ensures Propagating(c, Spread(nodes, work, c.limit, x), [], state, base, x)
    decreases Potential(nodes, c.limit), |work|
  {
    if work != [] {
      var (k, d) := work[|work| - 1];
      var rest := work[..|work| - 1];
      SplitLast(work);
      OfferProgresses(nodes, rest, k, d, c.limit, x);
      OfferStep(c, nodes, 0, rest, k, d, state, base, x);
      SpreadSound(c, Offered(nodes, 0, k, d), rest + Followers(nodes, k, d), state, base, x);
    }
  }

  /** Every offer is taken. */
  lemma {:induction false} SpreadGrows(nodes: Nodes, work: seq<Item>, limit: nat, x: Option<Key>, w: Item)
    requires Spreadable(nodes, work, limit, x)
    ensures var nodes' := Spread(nodes, work, limit, x);
            Grows(nodes, nodes') && nodes'.Keys == nodes.Keys && (w in work ==> nodes'[w.0].depth <= w.1)
    decreases Potential(nodes, limit), |work|
  {
    if work != [] {
      var (k, d) := work[|work| - 1];
      var rest := work[..|work| - 1];
      SplitLast(work);
      OfferProgresses(nodes, rest, k, d, limit, x);
      OfferGrows(nodes, 0, k, d);
      var nodes' := Offered(nodes, 0, k, d);
      SpreadGrows(nodes', rest + Followers(nodes, k, d), limit, x, w);
      GrowsTrans(nodes, nodes', Spread(nodes', rest + Followers(nodes, k, d), limit, x));
      assert w in work && w !in rest ==> w == (k, d);
    }
  }

  /** The state being settled stays as it is. */
  lemma {:induction false} SpreadSpares(nodes: Nodes, work: seq<Item>, limit: nat, x: Key)
    requires Spreadable(nodes, work, limit, Some(x)) && x in nodes
    ensures var nodes' := Spread(nodes, work, limit, Some(x)); x in nodes' && nodes'[x] == nodes[x]
    decreases Potential(nodes, limit), |work|
  {
    if work != [] {
      var (k, d) := work[|work| - 1];
      var rest := work[..|work| - 1];
      SplitLast(work);
      OfferProgresses(nodes, rest, k, d, limit, Some(x));
      assert (k, d) in work;
      SpreadSpares(Offered(nodes, 0, k, d), rest + Followers(nodes, k, d), limit, x);
    }
  }

  lemma FollowersBeyond(nodes: Nodes, rest: seq<Item>, j: Key, d: nat, depth: nat)
    requires depth <= d && forall w :: w in rest ==> depth <= w.1
    ensures forall w :: w in rest + Followers(nodes, j, d) ==> depth <= w.1
  {
    forall w | w in Followers(nodes, j, d) ensures depth <= w.1 {
      ItemsHold(nodes[j].successors, d + 1, w.0);
    }
  }

  /** Offers that improve nothing at a state leave it as it is. */
  lemma {:induction false} SpreadLeaves(nodes: Nodes, work: seq<Item>, limit: nat, x: Option<Key>, k: Key)
    requires Spreadable(nodes, work, limit, x) && k in nodes && forall w :: w in work ==> nodes[k].depth <= w.1
    ensures var nodes' := Spread(nodes, work, limit, x); k in nodes' && nodes'[k] == nodes[k]
    decreases Potential(nodes, limit), |work|
  {
    if work != [] {
      var (j, d) := work[|work| - 1];
      var rest := work[..|work| - 1];
      SplitLast(work);
      OfferProgresses(nodes, rest, j, d, limit, x);
      assert (j, d) in work && forall w :: w in rest ==> w in work;
      FollowersBeyond(nodes, rest, j, d, nodes[k].depth);
      SpreadLeaves(Offered(nodes, 0, j, d), rest + Followers(nodes, j, d), limit, x, k);
    }
  }

  /** What one offer makes of the state it goes to. */
  lemma PropagatedState(nodes: Nodes, next: nat, state: Key, d: nat, limit: nat, x: Option<Key>)
    requires Spreadable(nodes, [], limit, x) && (x.Some? && x.value in nodes ==> nodes[x.value].depth <= d)
    ensures var nodes' := Propagated(nodes, next, state, d, limit, x);
            && (state !in nodes ==> nodes' == nodes[state := Node(d, Pending, next, None, [])])
            && (state in nodes && nodes[state].depth <= d ==> nodes' == nodes)
            && (state in nodes && d < nodes[state].depth ==>
                  state in nodes' &&
                  nodes'[state] == nodes[state].(depth := d, phase := if nodes[state].phase == DepthCut then Pending
                                                                      else nodes[state].phase))
  {
    if state in nodes {
      OneOfferSpreads(nodes, state, d, limit, x);
      if d < nodes[state].depth {
        var nodes', more := Offered(nodes, 0, state, d), Followers(nodes, state, d);
        forall w | w in more ensures nodes'[state].depth <= w.1 {
          ItemsHold(nodes[state].successors, d + 1, w.0);
        }
        SpreadLeaves(nodes', more, limit, x, state);
      }
    }
  }

  lemma OneOfferSpreads(nodes: Nodes, state: Key, d: nat, limit: nat, x: Option<Key>)
    requires Spreadable(nodes, [], limit, x) && state in nodes
    requires x.Some? && x.value in nodes ==> nodes[x.value].depth <= d
    ensures Spreadable(nodes, [(state, d)], limit, x)
    ensures var nodes', more := Offered(nodes, 0, state, d), Followers(nodes, state, d);
            && Spreadable(nodes', more, limit, x)
            && Spread(nodes, [(state, d)], limit, x) == Spread(nodes', more, limit, x)
  {
    var work: seq<Item> := [(state, d)];
    assert work[..0] == [] && [] + work == work;
    OfferProgresses(nodes, [], state, d, limit, x);
    assert [] + Followers(nodes, state, d) == Followers(nodes, state, d);
  }

  // ---- Whole operations --------------------------------------------------------------

  predicate OneTicket(nodes: Nodes) {
    forall k, x :: k in nodes && x in nodes && k != x && nodes[k].ticket.Some? && nodes[x].ticket.Some? ==>
      nodes[k].ticket.value.lease != nodes[x].ticket.value.lease
  }

  /** What every operation keeps. */
  ghost predicate Sound(c: Context, nodes: Nodes) {
    && NodesOk(c, nodes) && Owed(nodes, [], None) && RootsKnown(c.roots, nodes) && OneTicket(nodes)
    && forall l :: l in c.settled ==> l <= c.leases
  }

  lemma SoundIsSpreadable(c: Context, nodes: Nodes, x: Option<Key>)
    requires NodesOk(c, nodes) && Owed(nodes, [], x)
    ensures Spreadable(nodes, [], c.limit, x)
  {
    forall k | k in nodes ensures nodes[k].depth <= c.limit {
      assert NodeOk(c, k, nodes[k]);
    }
    forall k, y | k in nodes && x != Some(k) && nodes[k].phase == Expanded && y in nodes[k].successors
      ensures y in nodes {
      assert OwedEdge(nodes, [], k, y);
    }
  }

  lemma {:induction false} ReachesMore(roots: set<(Key, nat)>, more: set<(Key, nat)>, g: Graph, k: Key, d: nat)
    requires roots <= more && Reaches(roots, g, k, d)
    ensures Reaches(more, g, k, d)
    decreases d
  {
    if (k, d) !in roots {
      var p: Key :| Reaches(roots, g, p, d - 1) && k in g(p);
      ReachesMore(roots, more, g, p, d - 1);
    }
  }

  /** More admitted states and fresh leases do not unsettle what is known. */
  lemma NodesOkMore(c: Context, c': Context, nodes: Nodes)
    requires NodesOk(c, nodes) && c.roots <= c'.roots && c.g == c'.g && c.limit == c'.limit
    requires c.leases <= c'.leases && c.settled == c'.settled
    ensures NodesOk(c', nodes)
  {
    forall k | k in nodes ensures NodeOk(c', k, nodes[k]) {
      assert NodeOk(c, k, nodes[k]);
      ReachesMore(c.roots, c'.roots, c.g, k, nodes[k].depth);
    }
  }

  lemma GrowsKeepsTickets(a: Nodes, b: Nodes)
    requires Grows(a, b) && OneTicket(a)
    ensures OneTicket(b)
  {
  }

  lemma GrowsKeepsRoots(roots: set<(Key, nat)>, a: Nodes, b: Nodes)
    requires Grows(a, b) && RootsKnown(roots, a)
    ensures RootsKnown(roots, b)
  {
  }

  lemma OneOffer(c: Context, nodes: Nodes, state: Key, d: nat, x: Option<Key>)
    requires NodesOk(c, nodes) && Owed(nodes, [], x)
    requires Reaches(c.roots, c.g, state, d) && d <= c.limit &&
             (x.Some? ==> x.value in nodes && nodes[x.value].depth < d)
    ensures Propagating(c, nodes, [(state, d)], state, d, x)
  {
    forall k, y | k in nodes && x != Some(k) && nodes[k].phase == Expanded && y in nodes[k].successors
      ensures OwedEdge(nodes, [(state, d)], k, y)
    {
      assert OwedEdge(nodes, [], k, y);
    }
  }

  /** Propagation from one offer, whether the state was known or not. */
  lemma PropagatedGrows(nodes: Nodes, next: nat, state: Key, d: nat, limit: nat, x: Option<Key>)
    requires Spreadable(nodes, [], limit, x) && (x.Some? ==> x.value in nodes && nodes[x.value].depth < d)
    ensures var nodes' := Propagated(nodes, next, state, d, limit, x);
            && Grows(nodes, nodes') && nodes'.Keys == nodes.Keys + {state}
            && nodes'[state].depth <= d && (x.Some? ==> nodes'[x.value] == nodes[x.value])
  {
    if state in nodes {
      SpreadGrows(nodes, [(state, d)], limit, x, (state, d));
      if x.Some? {
        SpreadSpares(nodes, [(state, d)], limit, x.value);
      }
    } else {
      OfferGrows(nodes, next, state, d);
    }
  }

  lemma PropagatedSound(c: Context, nodes: Nodes, next: nat, state: Key, d: nat, x: Option<Key>)
    requires Spreadable(nodes, [], c.limit, x) && NodesOk(c, nodes) && Owed(nodes, [], x)
    requires Reaches(c.roots, c.g, state, d) && d <= c.limit &&
             (x.Some? ==> x.value in nodes && nodes[x.value].depth < d)
    ensures var nodes' := Propagated(nodes, next, state, d, c.limit, x); NodesOk(c, nodes') && Owed(nodes', [], x)
  {
    OneOffer(c, nodes, state, d, x);
    if state in nodes {
      SpreadSound(c, nodes, [(state, d)], state, d, x);
    } else {
      assert [] + [(state, d)] == [(state, d)] && [] + Followers(nodes, state, d) == [];
      OfferStep(c, nodes, next, [], state, d, state, d, x);
    }
  }

  /** What admitting a state does, told without how: a new state is pending at its depth, a
      known one that does not come nearer leaves all as it is, and one that does takes the
      smaller depth, void of a cut; the others only come nearer. */
  predicate Admitted(nodes: Nodes, next: nat, state: Key, d: nat, nodes': Nodes) {
    && Grows(nodes, nodes') && nodes'.Keys == nodes.Keys + {state}
    && (state !in nodes ==> nodes' == nodes[state := Node(d, Pending, next, None, [])])
    && (state in nodes && nodes[state].depth <= d ==> nodes' == nodes)
    && (state in nodes && d < nodes[state].depth ==>
          && nodes'[state].depth == d
          && nodes'[state].phase == if nodes[state].phase == DepthCut then Pending else nodes[state].phase)
  }

  /** It is the specified propagation. */
  ghost predicate AdmittedBy(nodes: Nodes, next: nat, state: Key, d: nat, limit: nat, nodes': Nodes) {
    && Admitted(nodes, next, state, d, nodes') && Spreadable(nodes, [], limit, None)
    && nodes' == Propagated(nodes, next, state, d, limit, None)
  }

  lemma AdmitExact(nodes: Nodes, next: nat, state: Key, d: nat, limit: nat)
    requires Spreadable(nodes, [], limit, None)
    ensures Admitted(nodes, next, state, d, Propagated(nodes, next, state, d, limit, None))
  {
    PropagatedGrows(nodes, next, state, d, limit, None);
    PropagatedState(nodes, next, state, d, limit, None);
  }

  /** Admitting a state. */
  lemma AdmitSound(c: Context, nodes: Nodes, next: nat, state: Key, d: nat)
    requires Sound(c, nodes) && d <= c.limit
    ensures Spreadable(nodes, [], c.limit, None)
    ensures Sound(c.(roots := c.roots + {(state, d)}), Propagated(nodes, next, state, d, c.limit, None))
  {
    var c' := c.(roots := c.roots + {(state, d)});
    SoundIsSpreadable(c, nodes, None);
    NodesOkMore(c, c', nodes);
    PropagatedSound(c', nodes, next, state, d, None);
    PropagatedGrows(nodes, next, state, d, c.limit, None);
    var nodes' := Propagated(nodes, next, state, d, c.limit, None);
    GrowsKeepsTickets(nodes, nodes');
    GrowsKeepsRoots(c.roots, nodes, nodes');
  }

  function Leased(nodes: Nodes, k: Key, t: Ticket): Nodes
    requires k in nodes
  {
    nodes[k := nodes[k].(phase := Inflight, ticket := Some(t))]
  }

  /** Replacing a state that is not expanded, at its depth, keeps all edges but its own. */
  lemma ReplaceKeepsOwed(nodes: Nodes, k: Key, n: Node)
    requires k in nodes && nodes[k].phase != Expanded && n.depth == nodes[k].depth && Owed(nodes, [], None)
    ensures Owed(nodes[k := n], [], Some(k)) && (n.phase != Expanded ==> Owed(nodes[k := n], [], None))
  {
    forall j, y | j in nodes && j != k && nodes[j].phase == Expanded && y in nodes[j].successors
      ensures OwedEdge(nodes[k := n], [], j, y)
    {
      assert OwedEdge(nodes, [], j, y);
    }
  }

  lemma ReplaceKeepsNodes(c: Context, c': Context, nodes: Nodes, k: Key, n: Node)
    requires NodesOk(c, nodes) && k in nodes && NodeOk(c', k, n)
    requires forall x :: x in nodes && x != k && NodeOk(c, x, nodes[x]) ==> NodeOk(c', x, nodes[x])
    ensures NodesOk(c', nodes[k := n])
  {
  }

  /** Leasing a pending state. */
  lemma LeaseSound(c: Context, nodes: Nodes, k: Key, worker: int)
    requires Sound(c, nodes) && k in nodes && nodes[k].phase == Pending
    ensures var t := Ticket(k, worker, c.leases + 1, nodes[k].depth, nodes[k].depth < c.limit);
            Sound(c.(leases := c.leases + 1), Leased(nodes, k, t))
  {
    var c' := c.(leases := c.leases + 1);
    var t := Ticket(k, worker, c.leases + 1, nodes[k].depth, nodes[k].depth < c.limit);
    var nodes' := Leased(nodes, k, t);
    assert NodeOk(c, k, nodes[k]);
    ReplaceKeepsNodes(c, c', nodes, k, nodes'[k]);
    ReplaceKeepsOwed(nodes, k, nodes'[k]);
    forall x | x in nodes && nodes[x].ticket.Some? ensures nodes[x].ticket.value.lease <= c.leases {
      assert NodeOk(c, x, nodes[x]);
    }
  }

  // ---- Commit ------------------------------------------------------------------------

  /** What a worker reports is true of the graph. */
  predicate Honest(g: Graph, k: Key, e: Expansion) {
    && (e.kind == Expanded ==> (set y | y in e.successors) == g(k))
    && (e.kind == Terminal ==> g(k) == {})
    && (e.kind == DepthCut ==> g(k) != {})
  }

  /** The checks on a result: it answers the current lease, is a result at all, fits what the
      lease allowed, and publishes successors only for an expanded state. */
  predicate Acceptable(nodes: Nodes, t: Ticket, e: Expansion) {
    && t.state in nodes && nodes[t.state].phase == Inflight && nodes[t.state].ticket == Some(t)
    && e.kind != Pending && e.kind != Inflight
    && !(!t.mayExpand && e.kind == Expanded) && !(t.mayExpand && e.kind == DepthCut)
    && (e.kind != Expanded ==> e.successors == [])
    && (e.kind == ModelBudget || e.kind == Failure ==> e.hasReason)
  }

  function MissingFrom(nodes: Nodes, successors: seq<Key>): set<Key> {
    set y | y in successors && y !in nodes
  }

  /** The result written to the state; a cut found before a shorter way was known is void. */
  function SettledNode(n: Node, e: Expansion, limit: nat): Node {
    n.(successors := e.successors, ticket := None,
       phase := if e.kind == DepthCut && n.depth < limit then Pending else e.kind)
  }

  lemma SettleSound(c: Context, nodes: Nodes, t: Ticket, e: Expansion)
    requires Sound(c, nodes) && Acceptable(nodes, t, e) && Honest(c.g, t.state, e)
    ensures var c' := c.(settled := c.settled + {t.lease});
            var nodes' := nodes[t.state := SettledNode(nodes[t.state], e, c.limit)];
            && NodesOk(c', nodes') && Owed(nodes', [], Some(t.state)) && (e.kind != Expanded ==> Owed(nodes', [], None))
            && RootsKnown(c.roots, nodes') && OneTicket(nodes') && t.lease <= c.leases
  {
    var c' := c.(settled := c.settled + {t.lease});
    var k := t.state;
    var n := SettledNode(nodes[k], e, c.limit);
    assert NodeOk(c, k, nodes[k]);
    ReplaceKeepsNodes(c, c', nodes, k, n);
    ReplaceKeepsOwed(nodes, k, n);
  }

  lemma ReachesStep(roots: set<(Key, nat)>, g: Graph, k: Key, y: Key, d: nat)
    requires Reaches(roots, g, k, d) && y in g(k)
    ensures Reaches(roots, g, y, d + 1)
  {
    assert Reaches(roots, g, k, d + 1 - 1);
  }

  /** While successors are published: everything else is in order, the state itself stays as
      it was settled, and those done lie at most one step below it. */
  ghost predicate PublishInv(c: Context, a: Nodes, nodes: Nodes, k: Key, done: seq<Key>) {
    && NodesOk(c, nodes) && Owed(nodes, [], Some(k)) && Grows(a, nodes)
    && k in a && k in nodes && nodes[k] == a[k] && a[k].depth < c.limit
    && forall y :: y in done ==> y in nodes && nodes[y].depth <= a[k].depth + 1
  }

  lemma PublishInvStep(c: Context, a: Nodes, nodes: Nodes, next: nat, k: Key, done: seq<Key>, y: Key) returns (m: Nodes)
    requires PublishInv(c, a, nodes, k, done) && y in c.g(k)
    ensures Spreadable(nodes, [], c.limit, Some(k)) &&
            m == Propagated(nodes, next, y, nodes[k].depth + 1, c.limit, Some(k))
    ensures PublishInv(c, a, m, k, done + [y]) && m.Keys == nodes.Keys + {y}
  {
    SoundIsSpreadable(c, nodes, Some(k));
    m := Propagated(nodes, next, y, nodes[k].depth + 1, c.limit, Some(k));
    assert Reaches(c.roots, c.g, y, nodes[k].depth + 1) by {
      assert NodeOk(c, k, nodes[k]);
      ReachesStep(c.roots, c.g, k, y, nodes[k].depth);
    }
    PropagatedSound(c, nodes, next, y, nodes[k].depth + 1, Some(k));
    PropagatedGrows(nodes, next, y, nodes[k].depth + 1, c.limit, Some(k));
    GrowsTrans(a, nodes, m);
    LowerAll(nodes, m, done, y, a[k].depth + 1);
  }

  lemma LowerAll(nodes: Nodes, m: Nodes, done: seq<Key>, y: Key, d: nat)
    requires Grows(nodes, m) && y in m && m[y].depth <= d && forall z :: z in done ==> z in nodes && nodes[z].depth <= d
    ensures forall z :: z in done + [y] ==> z in m && m[z].depth <= d
  {
  }

  /** With all its successors published the state is in order too. */
  lemma PublishDone(c: Context, a: Nodes, nodes: Nodes, next: nat, k: Key, maxStates: nat)
    requires k in a && PublishTo(c, a, nodes, next, k, a[k].successors, |a[k].successors|, maxStates)
    requires RootsKnown(c.roots, a) && OneTicket(a)
    requires forall l :: l in c.settled ==> l <= c.leases
    ensures Sound(c, nodes) && Grows(a, nodes)
  {
    assert a[k].successors[..|a[k].successors|] == a[k].successors;
    GrowsKeepsTickets(a, nodes);
    GrowsKeepsRoots(c.roots, a, nodes);
    forall j, y | j in nodes && nodes[j].phase == Expanded && y in nodes[j].successors
      ensures OwedEdge(nodes, [], j, y) {
      assert j != k ==> OwedEdge(nodes, [], j, y);
    }
  }

  /** There is room for all successors that are new. */
  predicate Room(nodes: Nodes, next: nat, successors: seq<Key>, maxStates: nat) {
    |nodes| + |MissingFrom(nodes, successors)| <= maxStates && next + |MissingFrom(nodes, successors)| <= UINT64_MAX
  }

  /** One successor uses up its share of the room and no more. */
  lemma RoomStep(nodes: Nodes, next: nat, successors: seq<Key>, maxStates: nat, nodes': Nodes)
    requires successors != [] && Room(nodes, next, successors, maxStates) && nodes'.Keys == nodes.Keys + {successors[0]}
    ensures successors[0] !in nodes ==> |nodes| < maxStates && next < UINT64_MAX
    ensures Room(nodes', next + (if successors[0] in nodes then 0 else 1), successors[1..], maxStates)
  {
    var y := successors[0];
    var a, b := MissingFrom(nodes', successors[1..]), MissingFrom(nodes, successors);
    assert a <= b;
    SubsetCount(a, b);
    assert |nodes| == |nodes.Keys| && |nodes'| == |nodes'.Keys|;
    if y in nodes {
      assert nodes'.Keys == nodes.Keys;
    } else {
      assert y in b && y !in a;
    }
  }

  ghost predicate PublishTo(c: Context, a: Nodes, nodes: Nodes, next: nat, k: Key, successors: seq<Key>, i: nat,
                            maxStates: nat) {
    && i <= |successors| && PublishInv(c, a, nodes, k, successors[..i]) && Room(nodes, next, successors[i..], maxStates)
    && forall y :: y in successors ==> y in c.g(k)
  }

  /** The nodes and the next sequence number after one successor was offered its depth. */
  predicate NextIs(nodes: Nodes, next: nat, k: Key, y: Key, limit: nat, maxStates: nat, m: Nodes, next': nat) {
    && Spreadable(nodes, [], limit, Some(k)) && k in nodes && (y in nodes || (|nodes| < maxStates && next < UINT64_MAX))
    && m == Propagated(nodes, next, y, nodes[k].depth + 1, limit, Some(k))
    && next' == next + if y in nodes then 0 else 1
  }

  lemma PublishToStep(c: Context, a: Nodes, nodes: Nodes, next: nat, k: Key, successors: seq<Key>, i: nat,
                      maxStates: nat)
    returns (m: Nodes, next': nat)
    requires PublishTo(c, a, nodes, next, k, successors, i, maxStates) && i < |successors|
    ensures NextIs(nodes, next, k, successors[i], c.limit, maxStates, m, next')
    ensures PublishTo(c, a, m, next', k, successors, i + 1, maxStates)
  {
    var y := successors[i];
    SliceStep(successors, i);
    m := PublishInvStep(c, a, nodes, next, k, successors[..i], y);
    next' := next + if y in nodes then 0 else 1;
    RoomStep(nodes, next, successors[i..], maxStates, m);
  }

  lemma SliceStep(successors: seq<Key>, i: nat)
    requires i < |successors|
    ensures successors[i..][0] == successors[i] && successors[i..][1..] == successors[i + 1..]
    ensures successors[..i] + [successors[i]] == successors[..i + 1]
  {
  }

  /** The publishing of successors under way: from `a`, the first `i` are done. */
  datatype Publication = Publication(c: Context, a: Nodes, k: Key, successors: seq<Key>, maxStates: nat,
                                     i: nat, nodes: Nodes, next: nat)

  ghost predicate PublicationOk(p: Publication) {
    PublishTo(p.c, p.a, p.nodes, p.next, p.k, p.successors, p.i, p.maxStates)
  }

  ghost function NoPublication(): (p: Publication)
    ensures PublicationOk(p)
  {
    var c, nodes := Context({(0, 0)}, (k: Key) => {}, 1, 0, {}), map[0 := Node(0, Pending, 0, None, [])];
    assert Reaches(c.roots, c.g, 0, 0) && MissingFrom(nodes, []) == {};
    Publication(c, nodes, 0, [], 1, 0, nodes, 0)
  }

  /** One in which everything but the successors still to come is sound. */
  type SoundPublication = p: Publication | PublicationOk(p) ghost witness NoPublication()

  lemma PublicationStep(p: SoundPublication) returns (p': SoundPublication)
    requires p.i < |p.successors|
    ensures NextIs(p.nodes, p.next, p.k, p.successors[p.i], p.c.limit, p.maxStates, p'.nodes, p'.next)
    ensures p' == p.(i := p.i + 1, nodes := p'.nodes, next := p'.next)
  {
    assert PublicationOk(p);
    var m, next := PublishToStep(p.c, p.a, p.nodes, p.next, p.k, p.successors, p.i, p.maxStates);
    p' := p.(i := p.i + 1, nodes := m, next := next);
  }

  /** All successors of an expanded state are published. */
  lemma PublicationEnds(p: SoundPublication, next0: nat, e: Expansion)
    requires p.i == |p.successors| && p.successors == e.successors && e.kind == Expanded
    requires Publishable(p.c, p.a, next0, p.k, e, p.maxStates)
    ensures Sound(p.c, p.nodes) && Grows(p.a, p.nodes) && p.k in p.nodes && p.nodes[p.k] == p.a[p.k]
  {
    assert PublicationOk(p);
    PublishDone(p.c, p.a, p.nodes, p.next, p.k, p.maxStates);
  }

  lemma AcceptReported(nodes: Nodes, results: map<nat, Phase>, t: Ticket, e: Expansion, limit: nat, nodes': Nodes)
    requires Reported(nodes, results) && Acceptable(nodes, t, e) && t.lease !in results
    requires Grows(nodes[t.state := SettledNode(nodes[t.state], e, limit)], nodes')
    ensures Reported(nodes', results[t.lease := e.kind])
  {
    var n := SettledNode(nodes[t.state], e, limit);
    ResultReported(nodes, results, t.lease, e.kind, t.state, n);
    GrowsKeepsReports(nodes[t.state := n], nodes', results[t.lease := e.kind]);
  }

  /** The result answers the current lease of its state and is one that the lease allows: of a
      kind that is a result, an expansion only where the lease may expand and a depth cut only
      where it may not, successors only with an expansion, a reason with a cutoff or failure. */
  predicate Answers(nodes: Nodes, t: Ticket, e: Expansion) {
    && t.state in nodes && nodes[t.state].phase == Inflight && nodes[t.state].ticket == Some(t)
    && match e.kind
       case Expanded => t.mayExpand
       case Terminal => e.successors == []
       case DepthCut => e.successors == [] && !t.mayExpand
       case ModelBudget => e.successors == [] && e.hasReason
       case Failure => e.successors == [] && e.hasReason
       case Pending => false
       case Inflight => false
  }

  /** There are as many places and sequence numbers left as states to be added. */
  predicate Fits(nodes: Nodes, next: nat, e: Expansion, maxStates: nat) {
    var added := |set y | y in e.successors && y !in nodes|;
    |nodes| + added <= maxStates && next + added <= UINT64_MAX
  }

  lemma AcceptableMeans(nodes: Nodes, next: nat, t: Ticket, e: Expansion, maxStates: nat)
    ensures Acceptable(nodes, t, e) <==> Answers(nodes, t, e)
    ensures Room(nodes, next, e.successors, maxStates) <==> Fits(nodes, next, e, maxStates)
  {
    assert MissingFrom(nodes, e.successors) == set y | y in e.successors && y !in nodes;
  }

  /** What a committed result leaves, told without how: the state is no longer leased and is
      what was reported, except that a depth cut found before a shorter way was known is void;
      new states are pending, and the others only come nearer. */
  predicate Committed(nodes: Nodes, t: Ticket, e: Expansion, limit: nat, nodes': Nodes) {
    && t.state in nodes && t.state in nodes'
    && var n, n' := nodes[t.state], nodes'[t.state];
       && n'.ticket == None && n'.successors == e.successors && n'.depth == n.depth && n'.sequence == n.sequence
       && n'.phase == (if e.kind == DepthCut && n.depth < limit then Pending else e.kind)
       && Grows(nodes[t.state := n'], nodes')
  }

  lemma CommitExact(nodes: Nodes, t: Ticket, e: Expansion, limit: nat, m: Nodes, nodes': Nodes)
    requires t.state in nodes && m == nodes[t.state := SettledNode(nodes[t.state], e, limit)] && m.Keys == nodes.Keys
    requires Grows(m, nodes') && t.state in nodes' && nodes'[t.state] == m[t.state]
    ensures Committed(nodes, t, e, limit, nodes')
  {
    assert nodes[t.state := nodes'[t.state]] == m;
  }

  lemma AcceptFront(f: SoundFront, t: Ticket, e: Expansion, next: nat, maxStates: nat) returns (c: Context, m: Nodes)
    requires Acceptable(f.nodes, t, e) && Honest(f.c.g, t.state, e) && Room(f.nodes, next, e.successors, maxStates)
    ensures c == f.c.(settled := f.c.settled + {t.lease}) && t.lease !in f.c.settled
    ensures m == f.nodes[t.state := SettledNode(f.nodes[t.state], e, f.c.limit)] && m.Keys == f.nodes.Keys
    ensures Publishable(c, m, next, t.state, e, maxStates)
  {
    assert FrontOk(f);
    c := f.c.(settled := f.c.settled + {t.lease});
    m := f.nodes[t.state := SettledNode(f.nodes[t.state], e, f.c.limit)];
    CommitSound(f.c, f.nodes, next, t, e, maxStates, c, m);
  }

  lemma SettledFront(f: SoundFront, t: Ticket, e: Expansion, c: Context, m: Nodes, nodes: Nodes)
    returns (f': SoundFront)
    requires Acceptable(f.nodes, t, e) && t.lease !in f.c.settled && c == f.c.(settled := f.c.settled + {t.lease})
    requires m == f.nodes[t.state := SettledNode(f.nodes[t.state], e, f.c.limit)] && Sound(c, nodes) && Grows(m, nodes)
    ensures f' == Front(c, nodes, f.results[t.lease := e.kind])
  {
    assert FrontOk(f);
    AcceptReported(f.nodes, f.results, t, e, f.c.limit, nodes);
    f' := Front(c, nodes, f.results[t.lease := e.kind]);
  }

  /** A result is written: all is in order, but for successors still to be published. */
  ghost predicate Publishable(c: Context, m: Nodes, next: nat, k: Key, e: Expansion, maxStates: nat) {
    && k in m && m[k].successors == e.successors
    && if e.kind == Expanded then
         && PublishTo(c, m, m, next, k, e.successors, 0, maxStates)
         && RootsKnown(c.roots, m) && OneTicket(m) && forall l :: l in c.settled ==> l <= c.leases
       else Sound(c, m)
  }

  /** An accepted lease was not used before; writing its result leaves only the successors of
      an expanded state to be published. */
  lemma CommitSound(c: Context, nodes: Nodes, next: nat, t: Ticket, e: Expansion, maxStates: nat, c': Context, m: Nodes)
    requires Sound(c, nodes) && Acceptable(nodes, t, e) && Honest(c.g, t.state, e)
    requires Room(nodes, next, e.successors, maxStates)
    requires c' == c.(settled := c.settled + {t.lease}) &&
             m == nodes[t.state := SettledNode(nodes[t.state], e, c.limit)]
    ensures t.lease !in c.settled && Publishable(c', m, next, t.state, e, maxStates)
  {
    var k := t.state;
    assert NodeOk(c, k, nodes[k]);
    SettleSound(c, nodes, t, e);
    if e.kind == Expanded {
      RoomAfter(nodes, m, next, e.successors, maxStates);
      assert forall y :: y in e.successors ==> y in (set z | z in e.successors);
      assert e.successors[..0] == [] && e.successors[0..] == e.successors;
    }
  }

  lemma RoomAfter(nodes: Nodes, m: Nodes, next: nat, successors: seq<Key>, maxStates: nat)
    requires Room(nodes, next, successors, maxStates) && m.Keys == nodes.Keys
    ensures Room(m, next, successors, maxStates)
  {
    assert MissingFrom(m, successors) == MissingFrom(nodes, successors);
    assert |m| == |m.Keys| && |nodes| == |nodes.Keys|;
  }

  // ---- Lost workers and verdicts -----------------------------------------------------

  function Cancelled(n: Node): Node {
    n.(phase := Pending, ticket := None)
  }

  predicate HeldBy(n: Node, worker: int) {
    n.ticket.Some? && n.ticket.value.worker == worker
  }

  function AfterLoss(n: Node, worker: int): Node {
    if HeldBy(n, worker) then Cancelled(n) else n
  }

  /** Every lease of a lost worker is taken back. */
  function Lost(nodes: Nodes, worker: int): Nodes {
    map k | k in nodes :: AfterLoss(nodes[k], worker)
  }

  function LeasesOf(nodes: Nodes, worker: int): set<nat> {
    set k | k in nodes && HeldBy(nodes[k], worker) :: nodes[k].ticket.value.lease
  }

  /** The states leased to a worker. */
  function Held(nodes: Nodes, worker: int): set<Key> {
    set k | k in nodes && nodes[k].ticket.Some? && nodes[k].ticket.value.worker == worker
  }

  lemma LostAll(a: Nodes, b: Nodes, worker: int, todo: set<Key>)
    requires LostBut(a, b, worker, todo) && todo == {}
    ensures b == Lost(a, worker) && Held(a, worker) - todo == Held(a, worker)
  {
  }

  /** What losing a worker does: the states leased to it are pending again. */
  predicate TakenBack(a: Nodes, b: Nodes, worker: int) {
    && b.Keys == a.Keys
    && forall k :: k in a ==> b[k] == if k in Held(a, worker) then a[k].(phase := Pending, ticket := None) else a[k]
  }

  lemma LostTakesBack(a: Nodes, worker: int)
    ensures TakenBack(a, Lost(a, worker), worker)
  {
  }

  lemma HeldLess(nodes: Nodes, worker: int, todo: set<Key>, k: Key)
    requires k in todo && k in nodes
    ensures |Held(nodes, worker) - (todo - {k})| ==
            |Held(nodes, worker) - todo| + if HeldBy(nodes[k], worker) then 1 else 0
  {
    var a, b := Held(nodes, worker) - todo, Held(nodes, worker) - (todo - {k});
    assert b == if HeldBy(nodes[k], worker) then a + {k} else a;
  }

  lemma LossKeepsReports(nodes: Nodes, worker: int, results: map<nat, Phase>)
    requires Reported(nodes, results) && forall k :: k in nodes && nodes[k].ticket.Some? ==> nodes[k].phase == Inflight
    ensures Reported(Lost(nodes, worker), results)
  {
    var nodes' := Lost(nodes, worker);
    forall phase | phase == Failure || phase == ModelBudget ensures NoneIn(nodes, phase) <==> NoneIn(nodes', phase) {
      if !NoneIn(nodes, phase) {
        var x :| x in nodes && nodes[x].phase == phase;
        assert nodes'[x].phase == phase;
      }
      if !NoneIn(nodes', phase) {
        var x :| x in nodes' && nodes'[x].phase == phase;
        assert nodes[x].phase == phase;
      }
    }
  }

  /** Taking back has come through all states but those in `todo`. */
  predicate LostBut(a: Nodes, b: Nodes, worker: int, todo: set<Key>) {
    && b.Keys == a.Keys && todo <= a.Keys
    && forall k :: k in a ==> b[k] == if k in todo then a[k] else AfterLoss(a[k], worker)
  }

  lemma LoseOne(a: Nodes, b: Nodes, worker: int, todo: set<Key>, k: Key)
    requires LostBut(a, b, worker, todo) && k in todo
    ensures LostBut(a, b[k := AfterLoss(b[k], worker)], worker, todo - {k})
    ensures !HeldBy(b[k], worker) ==> b[k := AfterLoss(b[k], worker)] == b
  {
  }

  /** Leases taken back are used up, and their states are pending again. */
  lemma LossSound(c: Context, nodes: Nodes, worker: int)
    requires Sound(c, nodes)
    ensures Sound(c.(settled := c.settled + LeasesOf(nodes, worker)), Lost(nodes, worker))
  {
    var c' := c.(settled := c.settled + LeasesOf(nodes, worker));
    var nodes' := Lost(nodes, worker);
    forall k | k in nodes
      ensures NodeOk(c', k, nodes'[k]) && (nodes[k].ticket.Some? ==> nodes[k].ticket.value.lease <= c.leases)
    {
      assert NodeOk(c, k, nodes[k]);
    }
    forall j, y | j in nodes' && nodes'[j].phase == Expanded && y in nodes'[j].successors
      ensures OwedEdge(nodes', [], j, y) {
      assert NodeOk(c, j, nodes[j]);
      assert OwedEdge(nodes, [], j, y);
    }
  }

  /** Every known state really lies at its depth, and no walk reaches any state with a
      smaller one, as far down as `level`. */
  ghost predicate ExactTo(c: Context, nodes: Nodes, level: nat) {
    && (forall k :: k in nodes ==> Reaches(c.roots, c.g, k, nodes[k].depth))
    && (forall k: Key, d: nat :: Reaches(c.roots, c.g, k, d) && d <= level ==> k in nodes && nodes[k].depth <= d)
  }

  ghost predicate Exact(c: Context, nodes: Nodes) {
    && (forall k :: k in nodes ==> Reaches(c.roots, c.g, k, nodes[k].depth))
    && (forall k: Key, d: nat :: Reaches(c.roots, c.g, k, d) ==> k in nodes && nodes[k].depth <= d)
  }

  lemma SoundIsRelaxed(c: Context, nodes: Nodes)
    requires Sound(c, nodes)
    ensures forall x :: x in nodes ==>
            ToldTrue(c.g, c.limit, x, nodes[x]) && Relaxed(nodes, x) && Reaches(c.roots, c.g, x, nodes[x].depth)
  {
    forall x | x in nodes
      ensures ToldTrue(c.g, c.limit, x, nodes[x]) && Relaxed(nodes, x) && Reaches(c.roots, c.g, x, nodes[x].depth)
    {
      assert NodeOk(c, x, nodes[x]);
      if nodes[x].phase == Expanded {
        forall y | y in nodes[x].successors ensures y in nodes && nodes[y].depth <= nodes[x].depth + 1 {
          assert OwedEdge(nodes, [], x, y);
        }
      }
    }
  }

  /** Down to the first depth at which a state is not settled, depths are distances. */
  lemma SettledLevelsAreExact(c: Context, nodes: Nodes, level: nat)
    requires Sound(c, nodes) && forall x :: x in nodes && nodes[x].depth < level ==> Settled(nodes[x])
    ensures ExactTo(c, nodes, level)
  {
    SoundIsRelaxed(c, nodes);
    forall k: Key, d: nat | Reaches(c.roots, c.g, k, d) && d <= level ensures k in nodes && nodes[k].depth <= d {
      DepthsAreShortest(c.roots, c.g, c.limit, nodes, level, k, d);
    }
  }

  /** When every state is settled the frontier holds exactly the reachable states, at their
      distances. */
  lemma AllSettledIsExact(c: Context, nodes: Nodes)
    requires Sound(c, nodes) && forall x :: x in nodes ==> Settled(nodes[x])
    ensures Exact(c, nodes)
  {
    SoundIsRelaxed(c, nodes);
    forall k: Key, d: nat | Reaches(c.roots, c.g, k, d) ensures k in nodes && nodes[k].depth <= d {
      SettledIsEverything(c.roots, c.g, c.limit, nodes, k, d);
    }
  }

  predicate NoneIn(nodes: Nodes, phase: Phase) {
    forall k :: k in nodes ==> nodes[k].phase != phase
  }

  function StatusOf(nodes: Nodes): Status {
    if !NoneIn(nodes, Failure) then Failed
    else if !NoneIn(nodes, Pending) || !NoneIn(nodes, Inflight) then Running
    else if !NoneIn(nodes, DepthCut) || !NoneIn(nodes, ModelBudget) then Bounded
    else Complete
  }

  /** No budget or failure has cut the search off above a depth. */
  predicate Uncut(nodes: Nodes, level: nat) {
    forall x :: x in nodes && nodes[x].depth < level ==> nodes[x].phase != ModelBudget && nodes[x].phase != Failure
  }

  /** Depths are distances as far down as nothing is active, the limit allows and nothing
      was cut off. */
  lemma UncutLevelsAreExact(c: Context, nodes: Nodes, level: nat)
    requires Sound(c, nodes) && level <= c.limit && Uncut(nodes, level)
    requires forall x :: x in nodes && Active(nodes[x]) ==> level <= nodes[x].depth
    ensures ExactTo(c, nodes, level)
  {
    forall x | x in nodes && nodes[x].depth < level ensures Settled(nodes[x]) {
      assert NodeOk(c, x, nodes[x]);
    }
    SettledLevelsAreExact(c, nodes, level);
  }

  /** What a bounded verdict promises: everything within the limit, down to the first depth at
      which a budget cut the search off, and, where none did, that something lies beyond. */
  ghost predicate BoundedExactly(c: Context, nodes: Nodes) {
    && (forall level: nat :: level <= c.limit && Uncut(nodes, level) ==> ExactTo(c, nodes, level))
    && (NoneIn(nodes, ModelBudget) ==>
          ExactTo(c, nodes, c.limit) && exists k :: k in nodes && nodes[k].depth == c.limit && c.g(k) != {})
  }

  /** Failures and budget cuts are never taken back: there is one among the states if and only
      if one was reported.  `results` is what was reported under each lease. */
  ghost predicate Reported(nodes: Nodes, results: map<nat, Phase>) {
    && (NoneIn(nodes, Failure) <==> Failure !in results.Values)
    && (NoneIn(nodes, ModelBudget) <==> ModelBudget !in results.Values)
  }

  lemma GrowsKeepsReports(a: Nodes, b: Nodes, results: map<nat, Phase>)
    requires Grows(a, b) && Reported(a, results)
    ensures Reported(b, results)
  {
    forall phase | phase == Failure || phase == ModelBudget ensures NoneIn(a, phase) <==> NoneIn(b, phase) {
      if !NoneIn(a, phase) {
        var k :| k in a && a[k].phase == phase;
        assert b[k].phase == phase;
      }
    }
  }

  /** Replacing a state that is active by one that is active, or by a result. */
  lemma ReplaceKeepsReports(nodes: Nodes, results: map<nat, Phase>, k: Key, n: Node)
    requires Reported(nodes, results) && k in nodes && Active(nodes[k])
    requires n.phase != Failure && n.phase != ModelBudget
    ensures Reported(nodes[k := n], results)
  {
    forall phase | phase == Failure || phase == ModelBudget
      ensures NoneIn(nodes, phase) <==> NoneIn(nodes[k := n], phase)
    {
      if !NoneIn(nodes, phase) {
        var x :| x in nodes && nodes[x].phase == phase;
        assert nodes[k := n][x].phase == phase;
      }
    }
  }

  lemma ResultReported(nodes: Nodes, results: map<nat, Phase>, lease: nat, kind: Phase, k: Key, n: Node)
    requires Reported(nodes, results) && k in nodes && Active(nodes[k]) && lease !in results
    requires n.phase == kind || (kind != Failure && kind != ModelBudget && n.phase != Failure && n.phase != ModelBudget)
    ensures Reported(nodes[k := n], results[lease := kind])
  {
    var nodes', results' := nodes[k := n], results[lease := kind];
    assert results'.Values == results.Values + {kind} by {
      assert results'[lease] == kind;
      assert forall l :: l in results ==> results'[l] == results[l];
    }
    forall phase | phase == Failure || phase == ModelBudget
      ensures NoneIn(nodes', phase) <==> phase !in results'.Values
    {
      if !NoneIn(nodes, phase) {
        var x :| x in nodes && nodes[x].phase == phase;
        assert nodes'[x].phase == phase;
      }
      if n.phase == phase {
        assert nodes'[k].phase == phase;
      }
    }
  }

  /** What each verdict means: complete is everything, bounded is what `BoundedExactly` says. */
  lemma VerdictsAreTrue(c: Context, nodes: Nodes)
    requires Sound(c, nodes)
    ensures StatusOf(nodes) == Complete ==> Exact(c, nodes)
    ensures StatusOf(nodes) == Bounded ==> BoundedExactly(c, nodes)
  {
    if StatusOf(nodes) == Complete {
      AllSettledIsExact(c, nodes);
    } else if StatusOf(nodes) == Bounded {
      forall level: nat | level <= c.limit && Uncut(nodes, level) ensures ExactTo(c, nodes, level) {
        UncutLevelsAreExact(c, nodes, level);
      }
      if NoneIn(nodes, ModelBudget) {
        assert Uncut(nodes, c.limit);
        var k :| k in nodes && nodes[k].phase == DepthCut;
        assert NodeOk(c, k, nodes[k]);
      }
    }
  }

  /** The status in terms of what was reported and of the graph. */
  lemma StatusTold(c: Context, nodes: Nodes, results: map<nat, Phase>)
    requires Sound(c, nodes) && Reported(nodes, results)
    ensures StatusOf(nodes) == Failed <==> Failure in results.Values
    ensures StatusOf(nodes) == Running <==> Failure !in results.Values && exists k :: k in nodes && Active(nodes[k])
    ensures StatusOf(nodes) == Bounded <==>
              && Failure !in results.Values && (forall k :: k in nodes ==> !Active(nodes[k]))
              && (ModelBudget in results.Values || exists k :: k in nodes && nodes[k].depth == c.limit && c.g(k) != {})
  {
    if NoneIn(nodes, Failure) && NoneIn(nodes, ModelBudget) && forall k :: k in nodes ==> !Active(nodes[k]) {
      forall k | k in nodes ensures nodes[k].phase == DepthCut <==> nodes[k].depth == c.limit && c.g(k) != {} {
        assert NodeOk(c, k, nodes[k]);
      }
    }
  }

  /** Breadth first, a state is leased at its exact distance, and everything nearer is known,
      unless a budget or failure cut the search off above it. */
  lemma LowestIsExact(c: Context, nodes: Nodes, k: Key)
    requires Sound(c, nodes) && k in nodes
    requires forall x :: x in nodes && Active(nodes[x]) ==> nodes[k].depth <= nodes[x].depth
    ensures forall level: nat :: level <= nodes[k].depth && Uncut(nodes, level) ==> ExactTo(c, nodes, level)
  {
    assert NodeOk(c, k, nodes[k]);
    forall level: nat | level <= nodes[k].depth && Uncut(nodes, level) ensures ExactTo(c, nodes, level) {
      UncutLevelsAreExact(c, nodes, level);
    }
  }

  /** A state of the frontier, with what it is judged against and what was reported under
      each lease. */
  datatype Front = Front(c: Context, nodes: Nodes, results: map<nat, Phase>)

  ghost predicate FrontOk(f: Front) {
    Sound(f.c, f.nodes) && f.results.Keys <= f.c.settled && Reported(f.nodes, f.results)
  }

  /** One in which everything is sound. */
  type SoundFront = f: Front | FrontOk(f) ghost witness Front(Context({}, (k: Key) => {}, 0, 0, {}), map[], map[])

  lemma AdmitFront(f: SoundFront, next: nat, state: Key, d: nat) returns (f': SoundFront)
    requires d <= f.c.limit
    ensures f'.c == f.c.(roots := f.c.roots + {(state, d)}) && f'.results == f.results
    ensures AdmittedBy(f.nodes, next, state, d, f.c.limit, f'.nodes)
  {
    assert FrontOk(f);
    AdmitSound(f.c, f.nodes, next, state, d);
    AdmitExact(f.nodes, next, state, d, f.c.limit);
    var nodes' := Propagated(f.nodes, next, state, d, f.c.limit, None);
    GrowsKeepsReports(f.nodes, nodes', f.results);
    f' := Front(f.c.(roots := f.c.roots + {(state, d)}), nodes', f.results);
  }

  lemma LossFront(f: SoundFront, worker: int) returns (f': SoundFront)
    ensures f' == Front(f.c.(settled := f.c.settled + LeasesOf(f.nodes, worker)), Lost(f.nodes, worker), f.results)
  {
    assert FrontOk(f);
    LossSound(f.c, f.nodes, worker);
    forall k | k in f.nodes && f.nodes[k].ticket.Some? ensures f.nodes[k].phase == Inflight {
      assert NodeOk(f.c, k, f.nodes[k]);
    }
    LossKeepsReports(f.nodes, worker, f.results);
    f' := Front(f.c.(settled := f.c.settled + LeasesOf(f.nodes, worker)), Lost(f.nodes, worker), f.results);
  }

  // ---- Ordered maps ------------------------------------------------------------------

  method Least(s: set<nat>) returns (m: nat)
    requires s != {}
    ensures m in s && forall x :: x in s ==> m <= x
  {
    m :| m in s;
    var todo := s - {m};
    while todo != {}
      invariant m in s && todo <= s && forall x :: x in s && x !in todo ==> m <= x
      decreases |todo|
    {
      var x :| x in todo;
      if x < m {
        m := x;
      }
      todo := todo - {x};
    }
  }

  method Greatest(s: set<nat>) returns (m: nat)
    requires s != {}
    ensures m in s && forall x :: x in s ==> x <= m
  {
    m :| m in s;
    var todo := s - {m};
    while todo != {}
      invariant m in s && todo <= s && forall x :: x in s && x !in todo ==> x <= m
      decreases |todo|
    {
      var x :| x in todo;
      if x > m {
        m := x;
      }
      todo := todo - {x};
    }
  }

  predicate Before(a: (nat, nat), b: (nat, nat)) {
    a.0 < b.0 || (a.0 == b.0 && a.1 <= b.1)
  }

  method LeastPair(s: set<(nat, nat)>) returns (m: (nat, nat))
    requires s != {}
    ensures m in s && forall x :: x in s ==> Before(m, x)
  {
    m :| m in s;
    var todo := s - {m};
    while todo != {}
      invariant m in s && todo <= s && forall x :: x in s && x !in todo ==> Before(m, x)
      decreases |todo|
    {
      var x :| x in todo;
      if !Before(m, x) {
        m := x;
      }
      todo := todo - {x};
    }
  }

  // ---- In place --------------------------------------------------------------------

  /** The state a policy leases next: the newest; the oldest at the lowest active depth; or
      the oldest of the smallest priority. */
  predicate Selected(p: Policy, priority: (Key, nat) -> int, nodes: Nodes, k: Key) {
    && k in nodes && nodes[k].phase == Pending
    && match p
       case Dfs => forall x :: x in nodes && nodes[x].phase == Pending ==> nodes[x].sequence <= nodes[k].sequence
       case Bfs => forall x :: x in nodes && Active(nodes[x]) ==>
                     nodes[k].depth < nodes[x].depth ||
                     (nodes[k].depth == nodes[x].depth &&
                         (nodes[x].phase == Pending ==> nodes[k].sequence <= nodes[x].sequence))
       case Priority => forall x :: x in nodes && nodes[x].phase == Pending ==>
                          priority(k, nodes[k].depth) < priority(x, nodes[x].depth) ||
                          (priority(k, nodes[k].depth) == priority(x, nodes[x].depth) &&
                              nodes[k].sequence <= nodes[x].sequence)
  }

  /** A lease of the state the policy selects, or the reason why there is none. */
  predicate LeaseResult(p: Policy, priority: (Key, nat) -> int, limit: nat, nodes: Nodes, leases: nat, worker: int,
                        t: Option<Ticket>, nodes': Nodes, leases': nat)
  {
    if t.Some? then
      var k := t.value.state;
      && Selected(p, priority, nodes, k)
      && t.value == Ticket(k, worker, leases + 1, nodes[k].depth, nodes[k].depth < limit)
      && leases' == leases + 1 <= UINT64_MAX
      && nodes' == nodes[k := nodes[k].(phase := Inflight, ticket := t)]
    else
      && nodes' == nodes && leases' == leases
      && (NoneIn(nodes, Pending) || (p == Bfs && HeldBack(nodes)) || leases >= UINT64_MAX)
  }

  lemma LeaseResultSound(c: Context, p: Policy, priority: (Key, nat) -> int, nodes: Nodes, worker: int,
                         t: Option<Ticket>, nodes': Nodes, leases': nat)
    requires Sound(c, nodes) && c.leases <= UINT64_MAX &&
             LeaseResult(p, priority, c.limit, nodes, c.leases, worker, t, nodes', leases')
    ensures Sound(c.(leases := leases'), nodes') && leases' <= UINT64_MAX
  {
    if t.Some? {
      LeaseSound(c, nodes, t.value.state, worker);
    }
  }

  lemma LeaseFront(f: SoundFront, p: Policy, priority: (Key, nat) -> int, worker: int, t: Option<Ticket>,
                   nodes': Nodes, leases': nat) returns (f': SoundFront)
    requires f.c.leases <= UINT64_MAX
    requires LeaseResult(p, priority, f.c.limit, f.nodes, f.c.leases, worker, t, nodes', leases')
    ensures f' == Front(f.c.(leases := leases'), nodes', f.results) && leases' <= UINT64_MAX
    ensures p == Bfs && t.Some? ==> forall level: nat :: level <= t.value.depth && Uncut(f.nodes, level) ==>
              ExactTo(f.c, f.nodes, level)
  {
    assert FrontOk(f);
    LeaseResultSound(f.c, p, priority, f.nodes, worker, t, nodes', leases');
    if t.Some? {
      ReplaceKeepsReports(f.nodes, f.results, t.value.state, nodes'[t.value.state]);
      if p == Bfs {
        LowestIsExact(f.c, f.nodes, t.value.state);
      }
    }
    f' := Front(f.c.(leases := leases'), nodes', f.results);
  }

  lemma ActiveLayer(nodes: Nodes, layers: map<nat, nat>, k: Key)
    requires LayersOk(nodes, layers) && k in nodes && Active(nodes[k])
    ensures nodes[k].depth in layers
  {
    assert k in ActiveAt(nodes, nodes[k].depth);
    assert Count(layers, nodes[k].depth) == |ActiveAt(nodes, nodes[k].depth)|;
  }

  lemma LayerHolds(nodes: Nodes, layers: map<nat, nat>, d: nat) returns (x: Key)
    requires LayersOk(nodes, layers) && d in layers
    ensures x in nodes && nodes[x].depth == d && Active(nodes[x])
  {
    assert Count(layers, d) == |ActiveAt(nodes, d)| && layers[d] > 0;
    x :| x in ActiveAt(nodes, d);
  }

  lemma LowestLayer(nodes: Nodes, layers: map<nat, nat>, d: nat)
    requires LayersOk(nodes, layers) && forall l :: l in layers.Keys ==> d <= l
    ensures forall x :: x in nodes && Active(nodes[x]) ==> d <= nodes[x].depth
  {
    forall x | x in nodes && Active(nodes[x]) ensures d <= nodes[x].depth {
      ActiveLayer(nodes, layers, x);
    }
  }

  /** A layer still in flight holds back everything pending. */
  predicate HeldBack(nodes: Nodes) {
    exists x :: x in nodes && nodes[x].phase == Inflight &&
      forall y :: y in nodes && nodes[y].phase == Pending ==> nodes[x].depth < nodes[y].depth
  }

  lemma PendingIsIndexed(nodes: Nodes, ix: Index)
    requires LayeredOk(nodes, ix.layered) && LayersOk(nodes, ix.layers) && !NoneIn(nodes, Pending)
    ensures ix.layered.Keys != {} && ix.layers.Keys != {}
  {
    var k :| k in nodes && nodes[k].phase == Pending;
    ActiveLayer(nodes, ix.layers, k);
  }

  lemma LowestIsSelected(priority: (Key, nat) -> int, nodes: Nodes, ix: Index, s: (nat, nat), layer: nat)
    requires LayeredOk(nodes, ix.layered) && LayersOk(nodes, ix.layers)
    requires s in ix.layered.Keys && forall x :: x in ix.layered.Keys ==> Before(s, x)
    requires layer in ix.layers.Keys && forall l :: l in ix.layers.Keys ==> layer <= l
    ensures if s.0 == layer then Selected(Bfs, priority, nodes, ix.layered[s]) else HeldBack(nodes)
  {
    LowestLayer(nodes, ix.layers, layer);
    forall y | y in nodes && nodes[y].phase == Pending ensures Before(s, (nodes[y].depth, nodes[y].sequence)) {
      assert (nodes[y].depth, nodes[y].sequence) in ix.layered.Keys;
    }
    var x := LayerHolds(nodes, ix.layers, layer);
    if s.0 != layer {
      ActiveLayer(nodes, ix.layers, ix.layered[s]);
      assert layer < s.0 && nodes[x].phase == Inflight;
    }
  }

  /** The best of the pending states seen so far, the older of equals. */
  predicate Preferred(priority: (Key, nat) -> int, nodes: Nodes, pending: map<nat, Key>, todo: set<nat>, k: Key) {
    && k in nodes && nodes[k].phase == Pending && nodes[k].sequence in pending && nodes[k].sequence !in todo
    && forall s :: s in pending && s !in todo ==>
         && pending[s] in nodes
         && (|| priority(k, nodes[k].depth) < priority(pending[s], nodes[pending[s]].depth)
             || (priority(k, nodes[k].depth) == priority(pending[s], nodes[pending[s]].depth) &&
                  nodes[k].sequence <= s))
  }

  lemma PreferNext(priority: (Key, nat) -> int, nodes: Nodes, pending: map<nat, Key>, todo: set<nat>, k: Key, s: nat)
    requires PendingOk(nodes, pending) && Preferred(priority, nodes, pending, todo, k) && s in todo && s in pending
    requires nodes[k].sequence < s
    ensures var x := pending[s];
            Preferred(priority, nodes, pending, todo - {s},
                if priority(x, nodes[x].depth) < priority(k, nodes[k].depth) then x else k)
  {
  }

  lemma PreferredIsSelected(priority: (Key, nat) -> int, nodes: Nodes, pending: map<nat, Key>, k: Key)
    requires PendingOk(nodes, pending) && Preferred(priority, nodes, pending, {}, k)
    requires forall x, y :: x in nodes && y in nodes && x != y ==> nodes[x].sequence != nodes[y].sequence
    ensures Selected(Policy.Priority, priority, nodes, k)
  {
    forall x | x in nodes && nodes[x].phase == Pending
      ensures nodes[x].sequence in pending && pending[nodes[x].sequence] == x {
      assert pending[nodes[x].sequence] in nodes;
    }
  }

  /** The pending states are asked in the order of their sequence numbers. */
  method MostPreferred(priority: (Key, nat) -> int, nodes: Nodes, pending: map<nat, Key>) returns (k: Key)
    requires PendingOk(nodes, pending) && !NoneIn(nodes, Pending)
    requires forall x, y :: x in nodes && y in nodes && x != y ==> nodes[x].sequence != nodes[y].sequence
    ensures Selected(Policy.Priority, priority, nodes, k)
  {
    var s := Least(pending.Keys);
    k := pending[s];
    var best := priority(k, nodes[k].depth);
    var todo := pending.Keys - {s};
    while todo != {}
      invariant todo <= pending.Keys && Preferred(priority, nodes, pending, todo, k) &&
                best == priority(k, nodes[k].depth)
      invariant forall x :: x in todo ==> nodes[k].sequence < x
      decreases |todo|
    {
      s := Least(todo);
      PreferNext(priority, nodes, pending, todo, k, s);
      var x := pending[s];
      var p := priority(x, nodes[x].depth);
      todo := todo - {s};
      if p < best {
        k, best := x, p;
      }
    }
    PreferredIsSelected(priority, nodes, pending, k);
  }

  lemma CountTells(nodes: Nodes, counts: map<Phase, nat>, phase: Phase)
    requires CountsOk(nodes, counts)
    ensures Count(counts, phase) == 0 <==> NoneIn(nodes, phase)
  {
    assert Count(counts, phase) == |InPhase(nodes, phase)|;
    if Count(counts, phase) == 0 {
      assert InPhase(nodes, phase) == {};
      forall k | k in nodes ensures nodes[k].phase != phase {
        assert k !in InPhase(nodes, phase);
      }
    } else {
      var k :| k in InPhase(nodes, phase);
      assert nodes[k].phase == phase;
    }
  }

  /** The states with their indexes. */
  datatype Shelf = Shelf(policy: Policy, maxStates: nat, nodes: Nodes, index: Index, next: nat)

  ghost predicate ShelfOk(s: Shelf) {
    && Sequenced(s.nodes, s.next) && IndexOk(s.policy, s.nodes, s.index)
    && |s.nodes| <= s.maxStates && s.next <= UINT64_MAX
  }

  ghost function EmptyShelf(policy: Policy, maxStates: nat): (s: Shelf)
    ensures ShelfOk(s) && s == Shelf(policy, maxStates, map[], Index(map[], map[], map[], map[]), 0)
  {
    assert forall phase :: InPhase(map[], phase) == {};
    assert forall d: nat :: ActiveAt(map[], d) == {};
    Shelf(policy, maxStates, map[], Index(map[], map[], map[], map[]), 0)
  }

  /** One whose indexes are exact. */
  type SoundShelf = s: Shelf | ShelfOk(s) ghost witness EmptyShelf(Dfs, 0)

  class Frontier {
    const limit: nat
    const policy: Policy
    const priority: (Key, nat) -> int
    const maxStates: nat
    var nodes: Nodes
    var index: Index
    var nextSequence: nat
    var nextLease: nat
    ghost var shelf: SoundShelf
    ghost var known: SoundFront

    /** The indexes are exact. */
    ghost predicate Indexed()
      reads `nodes, `index, `nextSequence, `shelf
    {
      shelf == Shelf(policy, maxStates, nodes, index, nextSequence)
    }

    /** Change a state and its place in the indexes. */
    method Update(k: Key, n: Node)
      requires k in nodes && Indexed() && n.sequence == nodes[k].sequence
      modifies this`nodes, this`index, this`shelf
      ensures nodes == old(nodes)[k := n] && Indexed()
    {
      assert ShelfOk(shelf);
      UpdateIndexOk(policy, nodes, index, k, n);
      UpdateSequenced(nodes, nextSequence, k, n);
      index := Add(policy, Remove(policy, index, nodes[k]), k, n);
      nodes := nodes[k := n];
      shelf := Shelf(policy, maxStates, nodes, index, nextSequence);
    }

    method Insert(k: Key, depth: nat)
      requires k !in nodes && Indexed() && |nodes| < maxStates && nextSequence < UINT64_MAX
      modifies this`nodes, this`index, this`shelf, this`nextSequence
      ensures nodes == old(nodes)[k := Node(depth, Pending, old(nextSequence), None, [])]
      ensures nextSequence == old(nextSequence) + 1 && Indexed()
    {
      var n := Node(depth, Pending, nextSequence, None, []);
      assert ShelfOk(shelf);
      AddIndexOk(policy, nodes, index, k, n);
      InsertSequenced(nodes, nextSequence, k, n);
      index := Add(policy, index, k, n);
      nodes := nodes[k := n];
      nextSequence := nextSequence + 1;
      shelf := Shelf(policy, maxStates, nodes, index, nextSequence);
    }

    /** One turn of the loop below. */
    method Offer(k: Key, d: nat) returns (more: seq<Item>)
      requires Indexed() && k in nodes
      modifies this`nodes, this`index, this`shelf
      ensures nodes == Offered(old(nodes), 0, k, d) && more == Followers(old(nodes), k, d) && Indexed()
    {
      more := [];
      if d >= nodes[k].depth {
        return;
      }
      Update(k, nodes[k].(phase := if nodes[k].phase == DepthCut then Pending else nodes[k].phase, depth := d));
      if nodes[k].phase == Expanded {
        more := Items(nodes[k].successors, d + 1);
      }
    }

    /** Only the first offer can go to an unknown state, so the frontier cannot turn out to be
        full halfway. */
    method Propagate(state: Key, distance: nat, ghost x: Option<Key>)
      requires Indexed() && Spreadable(nodes, [], limit, x) &&
               (x.Some? && x.value in nodes ==> nodes[x.value].depth <= distance)
      requires state in nodes || (|nodes| < maxStates && nextSequence < UINT64_MAX)
      modifies this`nodes, this`index, this`shelf, this`nextSequence
      ensures Indexed() && nodes == Propagated(old(nodes), old(nextSequence), state, distance, limit, x)
      ensures nextSequence == old(nextSequence) + if state in old(nodes) then 0 else 1
    {
      if state !in nodes {
        Insert(state, distance);
        return;
      }
      var work := [(state, distance)];
      while work != []
        invariant Indexed() && Spreadable(nodes, work, limit, x) && nextSequence == old(nextSequence)
        invariant Spread(nodes, work, limit, x) == Spread(old(nodes), [(state, distance)], limit, x)
        decreases Potential(nodes, limit), |work|
      {
        var (key, d) := work[|work| - 1];
        var rest := work[..|work| - 1];
        SplitLast(work);
        OfferProgresses(nodes, rest, key, d, limit, x);
        var more := Offer(key, d);
        work := rest + more;
      }
    }

    ghost predicate Valid()
      reads this
    {
      Indexed() && known.nodes == nodes && known.c.limit == limit && known.c.leases == nextLease <= UINT64_MAX
    }

    constructor (limit: nat, policy: Policy, priority: (Key, nat) -> int, maxStates: nat, ghost g: Graph)
      requires maxStates > 0
      ensures Valid() && nodes == map[] && known == Front(Context({}, g, limit, 0, {}), map[], map[])
      ensures this.limit == limit && this.policy == policy && this.priority == priority && this.maxStates == maxStates
    {
      this.limit, this.policy, this.priority, this.maxStates := limit, policy, priority, maxStates;
      nodes, index, nextSequence, nextLease := map[], Index(map[], map[], map[], map[]), 0, 0;
      known := Front(Context({}, g, limit, 0, {}), map[], map[]);
      shelf := EmptyShelf(policy, maxStates);
    }

    /** Refused beyond the limit and when a new state has no room.  `changed` says that the
        state is new or has come nearer. */
    method Admit(state: Key, depth: nat) returns (ok: bool, changed: bool)
      requires Valid()
      modifies this
      ensures Valid()
      ensures ok == (depth <= limit &&
                (state in old(nodes) || (|old(nodes)| < maxStates && old(nextSequence) < UINT64_MAX)))
      ensures known == if ok then Front(old(known.c).(roots := old(known.c.roots) + {(state, depth)}), nodes,
                                        old(known.results))
                       else old(known)
      ensures ok ==> AdmittedBy(old(nodes), old(nextSequence), state, depth, limit, nodes)
      ensures !ok ==> nodes == old(nodes)
      ensures changed == (ok && (state !in old(nodes) || depth < old(nodes)[state].depth))
    {
      changed := state !in nodes || depth < nodes[state].depth;
      if depth > limit || (state !in nodes && (|nodes| >= maxStates || nextSequence == UINT64_MAX)) {
        return false, false;
      }
      Take(state, depth);
      ok := true;
    }

    method Take(state: Key, depth: nat)
      requires Valid() && depth <= limit && (state in nodes || (|nodes| < maxStates && nextSequence < UINT64_MAX))
      modifies this
      ensures Valid() && AdmittedBy(old(nodes), old(nextSequence), state, depth, limit, nodes)
      ensures known == Front(old(known.c).(roots := old(known.c.roots) + {(state, depth)}), nodes, old(known.results))
    {
      ghost var f := AdmitFront(known, nextSequence, state, depth);
      Propagate(state, depth, None);
      known := f;
    }

    method SelectNewest() returns (k: Key)
      requires Indexed() && policy == Dfs && !NoneIn(nodes, Pending)
      ensures Selected(policy, priority, nodes, k)
    {
      assert ShelfOk(shelf);
      var s := Greatest(index.pending.Keys);
      k := index.pending[s];
    }

    method SelectLowest() returns (k: Option<Key>)
      requires Indexed() && policy == Bfs && !NoneIn(nodes, Pending)
      ensures if k.Some? then Selected(policy, priority, nodes, k.value) else HeldBack(nodes)
    {
      assert ShelfOk(shelf);
      PendingIsIndexed(nodes, index);
      var s := LeastPair(index.layered.Keys);
      var layer := Least(index.layers.Keys);
      LowestIsSelected(priority, nodes, index, s, layer);
      k := if s.0 == layer then Some(index.layered[s]) else None;
    }

    method SelectPreferred() returns (k: Key)
      requires Indexed() && policy == Priority && !NoneIn(nodes, Pending)
      ensures Selected(policy, priority, nodes, k)
    {
      assert ShelfOk(shelf);
      k := MostPreferred(priority, nodes, index.pending);
    }

    method FinalizeLease(k: Key, worker: int) returns (t: Ticket)
      requires Indexed() && k in nodes && nextLease < UINT64_MAX
      modifies this`nodes, this`index, this`shelf, this`nextLease
      ensures Indexed() && t == Ticket(k, worker, old(nextLease) + 1, old(nodes)[k].depth, old(nodes)[k].depth < limit)
      ensures nextLease == old(nextLease) + 1 && nodes == Leased(old(nodes), k, t)
    {
      t := Ticket(k, worker, nextLease + 1, nodes[k].depth, nodes[k].depth < limit);
      Update(k, nodes[k].(phase := Inflight, ticket := Some(t)));
      nextLease := nextLease + 1;
    }

    method Select() returns (k: Option<Key>)
      requires Indexed()
      ensures if k.Some? then Selected(policy, priority, nodes, k.value)
              else NoneIn(nodes, Pending) || (policy == Bfs && HeldBack(nodes))
    {
      assert ShelfOk(shelf);
      if index.pending.Keys == {} {
        return None;
      }
      ghost var s :| s in index.pending.Keys;
      assert nodes[index.pending[s]].phase == Pending;
      if policy == Dfs {
        var newest := SelectNewest();
        k := Some(newest);
      } else if policy == Bfs {
        k := SelectLowest();
      } else {
        var preferred := SelectPreferred();
        k := Some(preferred);
      }
    }

    method LeaseNext(worker: int) returns (t: Option<Ticket>)
      requires Indexed()
      modifies this`nodes, this`index, this`shelf, this`nextLease
      ensures Indexed() && LeaseResult(policy, priority, limit, old(nodes), old(nextLease), worker, t, nodes, nextLease)
    {
      var k := Select();
      if k.None? || nextLease >= UINT64_MAX {
        return None;
      }
      var ticket := FinalizeLease(k.value, worker);
      t := Some(ticket);
    }

    /** Hand the next state to a worker under a number never used before. */
    method Lease(worker: int) returns (t: Option<Ticket>)
      requires Valid()
      modifies this
      ensures Valid() && known.c == old(known.c).(leases := nextLease) && known.results == old(known.results)
      ensures LeaseResult(policy, priority, limit, old(nodes), old(nextLease), worker, t, nodes, nextLease)
      ensures policy == Bfs && t.Some? ==> forall level: nat :: level <= t.value.depth && Uncut(old(nodes), level) ==>
                ExactTo(old(known.c), old(nodes), level)
    {
      t := LeaseNext(worker);
      ghost var f := LeaseFront(known, policy, priority, worker, t, nodes, nextLease);
      known := f;
    }

    method CancelLeases(worker: int) returns (count: nat)
      requires Indexed()
      modifies this`nodes, this`index, this`shelf
      ensures Indexed() && nodes == Lost(old(nodes), worker) && count == |Held(old(nodes), worker)|
    {
      count := 0;
      var todo := nodes.Keys;
      while todo != {}
        invariant Indexed() && LostBut(old(nodes), nodes, worker, todo)
        invariant count == |Held(old(nodes), worker) - todo|
        decreases |todo|
      {
        var k :| k in todo;
        LoseOne(old(nodes), nodes, worker, todo, k);
        HeldLess(old(nodes), worker, todo, k);
        if HeldBy(nodes[k], worker) {
          Update(k, Cancelled(nodes[k]));
          count := count + 1;
        }
        todo := todo - {k};
      }
      LostAll(old(nodes), nodes, worker, todo);
    }

    method PublishNext(k: Key, y: Key, ghost m: Nodes, ghost next: nat)
      requires Indexed() && NextIs(nodes, nextSequence, k, y, limit, maxStates, m, next)
      modifies this`nodes, this`index, this`shelf, this`nextSequence
      ensures Indexed() && nodes == m && nextSequence == next
    {
      Propagate(y, nodes[k].depth + 1, Some(k));
    }

    method Publish(k: Key, successors: seq<Key>, ghost p: SoundPublication) returns (ghost p': SoundPublication)
      requires Indexed() && p == Publication(p.c, nodes, k, successors, maxStates, 0, nodes, nextSequence)
      requires p.c.limit == limit
      modifies this`nodes, this`index, this`shelf, this`nextSequence
      ensures Indexed() && p' == p.(i := |successors|, nodes := nodes, next := nextSequence)
    {
      var i := 0;
      p' := p;
      while i < |successors|
        invariant Indexed() && 0 <= i <= |successors|
        invariant p' == p.(i := i, nodes := nodes, next := nextSequence)
      {
        p' := PublicationStep(p');
        PublishNext(k, successors[i], p'.nodes, p'.next);
        i := i + 1;
      }
    }

    /** Write a result and publish its successors. */
    method Settle(k: Key, e: Expansion, ghost c: Context, ghost m: Nodes)
      requires Indexed() && k in nodes && c.limit == limit && m == nodes[k := SettledNode(nodes[k], e, limit)]
      requires Publishable(c, m, nextSequence, k, e, maxStates)
      modifies this`nodes, this`index, this`shelf, this`nextSequence
      ensures Indexed() && Sound(c, nodes) && Grows(m, nodes) && k in nodes && nodes[k] == m[k]
    {
      Update(k, SettledNode(nodes[k], e, limit));
      if e.kind == Expanded {
        ghost var next := nextSequence;
        ghost var p: SoundPublication := Publication(c, m, k, e.successors, maxStates, 0, m, nextSequence);
        p := Publish(k, e.successors, p);
        PublicationEnds(p, next, e);
      }
    }

    /** A result is taken only for the current lease of its state, if it is a result that the
        lease allows, with a reason where one is due, successors only from an expanded state
        and room for them; whatever else is refused changes nothing.  The state is then no
        longer leased and is what was reported, but for a depth cut found before a shorter way
        was known, which is void. */
    method Commit(t: Ticket, e: Expansion) returns (ok: bool)
      requires Valid() && Honest(known.c.g, t.state, e)
      modifies this
      ensures Valid()
      ensures known == if ok then Front(old(known.c).(settled := old(known.c.settled) + {t.lease}), nodes,
                                        old(known.results)[t.lease := e.kind])
                       else old(known)
      ensures ok == (Answers(old(nodes), t, e) && Fits(old(nodes), old(nextSequence), e, maxStates))
      ensures ok ==> t.lease !in old(known.c.settled) && Committed(old(nodes), t, e, limit, nodes)
      ensures !ok ==> nodes == old(nodes)
    {
      ok := Check(t, e);
      if ok {
        Accept(t, e);
      }
    }

    method Check(t: Ticket, e: Expansion) returns (ok: bool)
      ensures ok == (Answers(nodes, t, e) && Fits(nodes, nextSequence, e, maxStates))
      ensures ok ==> Acceptable(nodes, t, e) && Room(nodes, nextSequence, e.successors, maxStates)
    {
      AcceptableMeans(nodes, nextSequence, t, e, maxStates);
      ok := Acceptable(nodes, t, e) && Room(nodes, nextSequence, e.successors, maxStates);
    }

    method Accept(t: Ticket, e: Expansion)
      requires Valid() && Honest(known.c.g, t.state, e)
      requires Acceptable(nodes, t, e) && Room(nodes, nextSequence, e.successors, maxStates)
      modifies this
      ensures Valid() && t.lease !in old(known.c.settled) && Committed(old(nodes), t, e, limit, nodes)
      ensures known == Front(old(known.c).(settled := old(known.c.settled) + {t.lease}), nodes,
                             old(known.results)[t.lease := e.kind])
    {
      ghost var f := Write(t, e, known);
      assert f.nodes == nodes;
      known := f;
      assert Indexed();
    }

    method Write(t: Ticket, e: Expansion, ghost f: SoundFront) returns (ghost f': SoundFront)
      requires Indexed() && f.nodes == nodes && f.c.limit == limit && Honest(f.c.g, t.state, e)
      requires Acceptable(nodes, t, e) && Room(nodes, nextSequence, e.successors, maxStates)
      modifies this`nodes, this`index, this`shelf, this`nextSequence
      ensures Indexed() && t.lease !in f.c.settled
      ensures f' == Front(f.c.(settled := f.c.settled + {t.lease}), nodes, f.results[t.lease := e.kind])
      ensures Committed(old(nodes), t, e, limit, nodes)
    {
      ghost var before := nodes;
      ghost var c, m := AcceptFront(f, t, e, nextSequence, maxStates);
      Settle(t.state, e, c, m);
      f' := SettledFront(f, t, e, c, m, nodes);
      CommitExact(before, t, e, limit, m, nodes);
    }

    /** A worker is gone: the states leased to it are pending again, and `count` is their
        number. */
    method WorkerLost(worker: int) returns (count: nat)
      requires Valid()
      modifies this
      ensures Valid() && known.results == old(known.results)
      ensures known.c == old(known.c).(settled := old(known.c.settled) + LeasesOf(old(nodes), worker))
      ensures TakenBack(old(nodes), nodes, worker) && count == |Held(old(nodes), worker)|
    {
      ghost var f := LossFront(known, worker);
      LostTakesBack(nodes, worker);
      count := CancelLeases(worker);
      known := f;
    }

    /** The verdict from the counts, and what it means: failed if and only if a failure was
        reported; otherwise running as long as a state is pending or leased; otherwise bounded
        if and only if a budget was reported or a state at the limit has successors. */
    method GetStatus() returns (s: Status)
      requires Valid()
      ensures s == Failed <==> Failure in known.results.Values
      ensures s == Running <==>
                Failure !in known.results.Values &&
                exists k :: k in nodes && (nodes[k].phase == Pending || nodes[k].phase == Inflight)
      ensures s == Bounded <==>
                && Failure !in known.results.Values
                && (forall k :: k in nodes ==> nodes[k].phase != Pending && nodes[k].phase != Inflight)
                && (ModelBudget in known.results.Values ||
                    exists k :: k in nodes && nodes[k].depth == limit && known.c.g(k) != {})
      ensures s == Complete ==> Exact(known.c, nodes)
      ensures s == Bounded ==> BoundedExactly(known.c, nodes)
    {
      assert FrontOk(known);
      VerdictsAreTrue(known.c, nodes);
      StatusTold(known.c, nodes, known.results);
      s := CountStatus();
    }

    method CountStatus() returns (s: Status)
      requires Indexed()
      ensures s == StatusOf(nodes)
    {
      assert ShelfOk(shelf);
      forall phase ensures Count(index.counts, phase) == 0 <==> NoneIn(nodes, phase) {
        CountTells(nodes, index.counts, phase);
      }
      if Count(index.counts, Failure) > 0 {
        return Failed;
      }
      if Count(index.counts, Pending) > 0 || Count(index.counts, Inflight) > 0 {
        return Running;
      }
      s := if Count(index.counts, DepthCut) > 0 || Count(index.counts, ModelBudget) > 0 then Bounded else Complete;
    }
  }
}
