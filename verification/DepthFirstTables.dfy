/** What a depth-first search does to its tables, told by the edges it executed: which
    states it discovers, which queries it records, and how often it executes each edge. */
module DepthFirstTables {
  import opened Common
  import opened Graph
  import opened Choices
  import opened DepthFirst

  // ---- Discovered states ------------------------------------------------------------

  /** A search discovers its root and exactly what its edges lead to. */
  lemma {:induction false} VisitDiscovers(w: World, random: nat -> nat, t: Tables, log: seq<Edge>, s: Hash, d: int)
    ensures var r := Visit(w, random, t, log, s, d); Finds(w, log, t.seen + {s}, r.log, r.tables.seen)
    decreases Bound(d), 3, 0, 0
  {
    if d > 0 {
      ActorsDiscover(w, random, t.(seen := t.seen + {s}), log, s, d, 0, false);
    }
  }

  lemma {:induction false} ActorsDiscover(w: World, random: nat -> nat, t: Tables, log: seq<Edge>, s: Hash, d: int,
                                          i: nat, cut: bool)
    requires d > 0
    ensures var r := VisitActors(w, random, t, log, s, d, i, cut); Finds(w, log, t.seen, r.log, r.tables.seen)
    decreases Bound(d), 2, |Enabled(w, s)| - i, 0
  {
    if i < |Enabled(w, s)| {
      var card := w.cardinality(s, Enabled(w, s)[i]);
      ChoicesDiscover(w, random, t, log, s, d, i, Queue(card, FirstChoice(card, random(|log|))), cut);
    }
  }

  lemma {:induction false} ChoicesDiscover(w: World, random: nat -> nat, t: Tables, log: seq<Edge>, s: Hash, d: int,
                                           i: nat, queue: seq<int>, cut: bool)
    requires d > 0 && i < |Enabled(w, s)|
    ensures var r := VisitChoices(w, random, t, log, s, d, i, queue, cut);
            Finds(w, log, t.seen, r.log, r.tables.seen)
    decreases Bound(d), 2, |Enabled(w, s)| - i - 1, |queue| + 1
  {
    if queue == [] {
      ActorsDiscover(w, random, t, log, s, d, i + 1, cut);
    } else {
      var e := Edge(s, Enabled(w, s)[i], queue[|queue| - 1]);
      FindsOne(w, log, t.seen, e);
      if !w.failed(Target(w, e)) {
        VisitDiscovers(w, random, t, log + [e], Target(w, e), d - 1);
        var child := Visit(w, random, t, log + [e], Target(w, e), d - 1);
        FindsTrans(w, log, t.seen, log + [e], t.seen + {Target(w, e)}, child.log, child.tables.seen);
        if !child.violated {
          var rest := queue[..|queue| - 1];
          ChoicesDiscover(w, random, child.tables, child.log, s, d, i, rest, cut || child.cut);
          var r := VisitChoices(w, random, child.tables, child.log, s, d, i, rest, cut || child.cut);
          FindsTrans(w, log, t.seen, child.log, child.tables.seen, r.log, r.tables.seen);
        }
      }
    }
  }

  // ---- Real edges, and where a search stops --------------------------------------------

  /** The edge is one of the graph, and its source lies fewer than `n` steps from the root. */
  ghost predicate EdgeWithin(w: World, root: Hash, n: nat, e: Edge) {
    IsEdge(w, e) && exists j: nat :: j < n && ReachIn(w, root, j, e.source)
  }

  /** Every edge is real, and none but the last of a search that stops leads to a failing
      state; that one does. */
  ghost predicate StopsRight(w: World, root: Hash, n: nat, edges: seq<Edge>, violated: bool) {
    && (forall i :: 0 <= i < |edges| ==> EdgeWithin(w, root, n, edges[i]))
    && (forall i :: 0 <= i < |edges| ==> (w.failed(Target(w, edges[i])) <==> violated && i == |edges| - 1))
  }

  lemma StopsAppend(w: World, root: Hash, n: nat, a: seq<Edge>, b: seq<Edge>, c: seq<Edge>, violated: bool)
    requires a <= b <= c && StopsRight(w, root, n, b[|a|..], false) && StopsRight(w, root, n, c[|b|..], violated)
    requires violated ==> |c| > |b|
    ensures StopsRight(w, root, n, c[|a|..], violated)
  {
    var x, y := b[|a|..], c[|b|..];
    assert c[|a|..] == x + y;
  }

  lemma StopsOne(w: World, root: Hash, n: nat, log: seq<Edge>, e: Edge)
    requires EdgeWithin(w, root, n, e)
    ensures StopsRight(w, root, n, (log + [e])[|log|..], w.failed(Target(w, e)))
  {
    assert (log + [e])[|log|..] == [e];
  }

  lemma ChildStops(w: World, root: Hash, n: nat, log: seq<Edge>, e: Edge, log': seq<Edge>, violated: bool)
    requires EdgeWithin(w, root, n, e) && !w.failed(Target(w, e)) && log + [e] <= log'
    requires StopsRight(w, root, n, log'[|log + [e]|..], violated) && (violated ==> |log'| > |log + [e]|)
    ensures log <= log' && StopsRight(w, root, n, log'[|log|..], violated)
  {
    StopsOne(w, root, n, log, e);
    StopsAppend(w, root, n, log, log + [e], log', violated);
  }

  /** A search executes real edges within its depth, up to the first that leads to a failing
      state; it stops without any edge only at a failing root. */
  lemma {:induction false} VisitStops(w: World, random: nat -> nat, t: Tables, log: seq<Edge>, s: Hash, d: int,
                                      root: Hash, k: nat)
    requires ReachIn(w, root, k, s)
    ensures var r := Visit(w, random, t, log, s, d);
            && log <= r.log && StopsRight(w, root, k + Bound(d), r.log[|log|..], r.violated)
            && (r.violated ==> |r.log| > |log| || w.failed(s))
    decreases Bound(d), 3, 0, 0
  {
    if d > 0 {
      ActorsStop(w, random, t.(seen := t.seen + {s}), log, s, d, 0, false, root, k);
    }
  }

  lemma {:induction false} ActorsStop(w: World, random: nat -> nat, t: Tables, log: seq<Edge>, s: Hash, d: int,
                                      i: nat, cut: bool, root: Hash, k: nat)
    requires d > 0 && ReachIn(w, root, k, s)
    ensures var r := VisitActors(w, random, t, log, s, d, i, cut);
            && log <= r.log && StopsRight(w, root, k + Bound(d), r.log[|log|..], r.violated)
            && (r.violated ==> |r.log| > |log|)
    decreases Bound(d), 2, |Enabled(w, s)| - i, 0
  {
    if i < |Enabled(w, s)| {
      var card := w.cardinality(s, Enabled(w, s)[i]);
      var queue := Queue(card, FirstChoice(card, random(|log|)));
      forall c | c in queue ensures ValidChoice(card, c) {
        QueueExact(card, FirstChoice(card, random(|log|)), c);
      }
      ChoicesStop(w, random, t, log, s, d, i, queue, cut, root, k);
    }
  }

  lemma {:induction false} ChoicesStop(w: World, random: nat -> nat, t: Tables, log: seq<Edge>, s: Hash, d: int,
                                       i: nat, queue: seq<int>, cut: bool, root: Hash, k: nat)
    requires d > 0 && i < |Enabled(w, s)| && ReachIn(w, root, k, s)
    requires forall c :: c in queue ==> ValidChoice(w.cardinality(s, Enabled(w, s)[i]), c)
    ensures var r := VisitChoices(w, random, t, log, s, d, i, queue, cut);
            && log <= r.log && StopsRight(w, root, k + Bound(d), r.log[|log|..], r.violated)
            && (r.violated ==> |r.log| > |log|)
    decreases Bound(d), 2, |Enabled(w, s)| - i - 1, |queue| + 1
  {
    if queue == [] {
      ActorsStop(w, random, t, log, s, d, i + 1, cut, root, k);
    } else {
      var e := Edge(s, Enabled(w, s)[i], queue[|queue| - 1]);
      assert EdgeWithin(w, root, k + Bound(d), e);
      if w.failed(Target(w, e)) {
        StopsOne(w, root, k + Bound(d), log, e);
      } else {
        ReachSnoc(w, root, k, e);
        VisitStops(w, random, t, log + [e], Target(w, e), d - 1, root, k + 1);
        var child := Visit(w, random, t, log + [e], Target(w, e), d - 1);
        ChildStops(w, root, k + Bound(d), log, e, child.log, child.violated);
        if !child.violated {
          var rest := queue[..|queue| - 1];
          ChoicesStop(w, random, child.tables, child.log, s, d, i, rest, cut || child.cut, root, k);
          var r := VisitChoices(w, random, child.tables, child.log, s, d, i, rest, cut || child.cut);
          StopsAppend(w, root, k + Bound(d), log, child.log, r.log, r.violated);
        }
      }
    }
  }

  // ---- Recorded queries -------------------------------------------------------------

  /** The queries recorded between two tables. */
  function NewQueries(t: Tables, t': Tables): set<(Hash, int)> {
    t'.coverage.Keys - t.coverage.Keys
  }

  /** Records are added and never changed, and exactly the states of new records without a
      cut are added to the covered ones. */
  predicate Recorded(t: Tables, t': Tables) {
    && (forall k :: k in t.coverage ==> k in t'.coverage && t'.coverage[k] == t.coverage[k])
    && t'.covered == t.covered + set k | k in NewQueries(t, t') && !t'.coverage[k] :: k.0
  }

  predicate NoDeeper(keys: set<(Hash, int)>, d: int) {
    forall k :: k in keys ==> k.1 <= d
  }

  lemma RecordedTrans(a: Tables, b: Tables, c: Tables)
    requires Recorded(a, b) && Recorded(b, c)
    ensures Recorded(a, c) && NewQueries(a, c) == NewQueries(a, b) + NewQueries(b, c)
    ensures NewQueries(a, b) !! NewQueries(b, c)
  {
    assert forall k :: k in b.coverage ==> k in c.coverage && c.coverage[k] == b.coverage[k];
  }

  lemma PublishRecords(t: Tables, s: Hash, d: int, cut: bool)
    requires (s, d) !in t.coverage
    ensures Recorded(t, Publish(t, s, d, cut)) && NewQueries(t, Publish(t, s, d, cut)) == {(s, d)}
  {
    var t' := Publish(t, s, d, cut);
    assert t'.coverage.Keys == t.coverage.Keys + {(s, d)};
    assert (set k | k in NewQueries(t, t') && !t'.coverage[k] :: k.0) == if cut then {} else {s};
  }

  /** A search changes no record and records nothing deeper than asked. */
  lemma {:induction false} VisitRecords(w: World, random: nat -> nat, t: Tables, log: seq<Edge>, s: Hash, d: int)
    ensures var r := Visit(w, random, t, log, s, d);
            Recorded(t, r.tables) && NoDeeper(NewQueries(t, r.tables), d)
    decreases Bound(d), 3, 0, 0
  {
    var t' := t.(seen := t.seen + {s});
    if Cached(t', s, d).None? && !w.failed(s) {
      if Enabled(w, s) == [] || d <= 0 {
        PublishRecords(t', s, d, Enabled(w, s) != []);
      } else {
        ActorsRecord(w, random, t', log, s, d, 0, false);
      }
    }
  }

  lemma {:induction false} ActorsRecord(w: World, random: nat -> nat, t: Tables, log: seq<Edge>, s: Hash, d: int,
                                        i: nat, cut: bool)
    requires d > 0 && (s, d) !in t.coverage
    ensures var r := VisitActors(w, random, t, log, s, d, i, cut);
            Recorded(t, r.tables) && NoDeeper(NewQueries(t, r.tables) - {(s, d)}, d - 1) &&
            (!r.violated ==> (s, d) in r.tables.coverage)
    decreases Bound(d), 2, |Enabled(w, s)| - i, 0
  {
    if i < |Enabled(w, s)| {
      var card := w.cardinality(s, Enabled(w, s)[i]);
      ChoicesRecord(w, random, t, log, s, d, i, Queue(card, FirstChoice(card, random(|log|))), cut);
    } else {
      PublishRecords(t, s, d, cut);
    }
  }

  lemma {:induction false} ChoicesRecord(w: World, random: nat -> nat, t: Tables, log: seq<Edge>, s: Hash, d: int,
                                         i: nat, queue: seq<int>, cut: bool)
    requires d > 0 && i < |Enabled(w, s)| && (s, d) !in t.coverage
    ensures var r := VisitChoices(w, random, t, log, s, d, i, queue, cut);
            Recorded(t, r.tables) && NoDeeper(NewQueries(t, r.tables) - {(s, d)}, d - 1) &&
            (!r.violated ==> (s, d) in r.tables.coverage)
    decreases Bound(d), 2, |Enabled(w, s)| - i - 1, |queue| + 1
  {
    if queue == [] {
      ActorsRecord(w, random, t, log, s, d, i + 1, cut);
    } else {
      var e := Edge(s, Enabled(w, s)[i], queue[|queue| - 1]);
      if !w.failed(Target(w, e)) {
        VisitRecords(w, random, t, log + [e], Target(w, e), d - 1);
        var child := Visit(w, random, t, log + [e], Target(w, e), d - 1);
        if !child.violated {
          var rest := queue[..|queue| - 1];
          ChoicesRecord(w, random, child.tables, child.log, s, d, i, rest, cut || child.cut);
          RecordedTrans(t, child.tables,
                        VisitChoices(w, random, child.tables, child.log, s, d, i, rest, cut || child.cut).tables);
        }
      }
    }
  }

  // ---- Executed edges ---------------------------------------------------------------

  /** How often an edge occurs among the edges of its source. */
  function Multiplicity(w: World, e: Edge): nat {
    Left(w, e.source, e, 0)
  }

  /** How often it occurs among the actions of `s` from number `i` on. */
  function Left(w: World, s: Hash, e: Edge, i: nat): nat {
    if e.source == s && i <= |Enabled(w, s)| && ValidChoice(w.cardinality(s, e.actor), e.choice)
    then multiset(Enabled(w, s)[i..])[e.actor] else 0
  }

  /** The queries about a state that have a step to take. */
  function About(keys: set<(Hash, int)>, s: Hash): set<(Hash, int)> {
    set k | k in keys && k.0 == s && k.1 > 0
  }

  function Times(w: World, e: Edge, keys: set<(Hash, int)>): nat {
    Multiplicity(w, e) * |About(keys, e.source)|
  }

  function CountIn(edges: seq<Edge>, e: Edge): nat {
    multiset(edges)[e]
  }

  lemma TimesSplit(w: World, e: Edge, a: set<(Hash, int)>, b: set<(Hash, int)>)
    requires a !! b
    ensures Times(w, e, a + b) == Times(w, e, a) + Times(w, e, b)
  {
    var x, y := About(a, e.source), About(b, e.source);
    assert About(a + b, e.source) == x + y && x !! y;
    assert |x + y| == |x| + |y|;
    Distribute(Multiplicity(w, e), |x|, |y|);
  }

  lemma Distribute(m: nat, a: nat, b: nat)
    ensures m * (a + b) == m * a + m * b
  {
  }

  lemma TimesNone(w: World, e: Edge, keys: set<(Hash, int)>)
    requires Multiplicity(w, e) == 0 || About(keys, e.source) == {}
    ensures Times(w, e, keys) == 0
  {
  }

  /** One query with a step to take weighs the edges of its state once. */
  lemma TimesOne(w: World, e: Edge, s: Hash, d: int)
    requires d > 0
    ensures Times(w, e, {(s, d)}) == Left(w, s, e, 0)
  {
    assert About({(s, d)}, e.source) == if e.source == s then {(s, d)} else {};
  }

  lemma CountSplit(a: seq<Edge>, b: seq<Edge>, c: seq<Edge>, e: Edge)
    requires a <= b <= c
    ensures CountIn(c[|a|..], e) == CountIn(b[|a|..], e) + CountIn(c[|b|..], e)
  {
    assert c[|a|..] == b[|a|..] + c[|b|..];
  }

  lemma CountOne(log: seq<Edge>, x: Edge, e: Edge)
    ensures CountIn((log + [x])[|log|..], e) == if x == e then 1 else 0
  {
    assert (log + [x])[|log|..] == [x];
  }

  /** What is left of an action whose choices `queue` are still to execute. */
  function LeftOf(w: World, s: Hash, e: Edge, i: nat, queue: seq<int>): nat
    requires i < |Enabled(w, s)|
  {
    (if e.source == s && e.actor == Enabled(w, s)[i] then multiset(queue)[e.choice] else 0) + Left(w, s, e, i + 1)
  }

  lemma LeftStarts(w: World, s: Hash, e: Edge, i: nat, first: int)
    requires i < |Enabled(w, s)| && ValidChoice(w.cardinality(s, Enabled(w, s)[i]), first)
    ensures Left(w, s, e, i) == LeftOf(w, s, e, i, Queue(w.cardinality(s, Enabled(w, s)[i]), first))
  {
    var actors := Enabled(w, s);
    QueueExact(w.cardinality(s, actors[i]), first, e.choice);
    assert actors[i..] == [actors[i]] + actors[i + 1..];
  }

  lemma LeftPops(w: World, s: Hash, e: Edge, i: nat, queue: seq<int>)
    requires i < |Enabled(w, s)| && queue != []
    ensures LeftOf(w, s, e, i, queue) ==
            (if e == Edge(s, Enabled(w, s)[i], queue[|queue| - 1]) then 1 else 0)
            + LeftOf(w, s, e, i, queue[..|queue| - 1])
  {
    assert queue == queue[..|queue| - 1] + [queue[|queue| - 1]];
  }

  lemma LeftNone(w: World, s: Hash, e: Edge, i: nat)
    requires i >= |Enabled(w, s)|
    ensures Left(w, s, e, i) == 0
  {
  }

  /** Each query is enumerated once: a search that ends executes every edge as often as there
      are new records with a step to take about its source, times its occurrences there. */
  lemma {:induction false} VisitCounts(w: World, random: nat -> nat, t: Tables, log: seq<Edge>, s: Hash, d: int,
                                       e: Edge)
    requires !Visit(w, random, t, log, s, d).violated
    ensures var r := Visit(w, random, t, log, s, d);
            log <= r.log && CountIn(r.log[|log|..], e) == Times(w, e, NewQueries(t, r.tables))
    decreases Bound(d), 3, 0, 0
  {
    var t' := t.(seen := t.seen + {s});
    var r := Visit(w, random, t, log, s, d);
    assert NewQueries(t, r.tables) == NewQueries(t', r.tables);
    if Cached(t', s, d).Some? {
      TimesNone(w, e, NewQueries(t, r.tables));
    } else if Enabled(w, s) == [] || d <= 0 {
      PublishRecords(t', s, d, Enabled(w, s) != []);
      TimesNone(w, e, NewQueries(t, r.tables));
    } else {
      ActorsRecord(w, random, t', log, s, d, 0, false);
      ActorsCount(w, random, t', log, s, d, 0, false, e);
      var rest := NewQueries(t, r.tables) - {(s, d)};
      assert NewQueries(t, r.tables) == rest + {(s, d)};
      TimesSplit(w, e, rest, {(s, d)});
      TimesOne(w, e, s, d);
    }
  }

  lemma {:induction false} ActorsCount(w: World, random: nat -> nat, t: Tables, log: seq<Edge>, s: Hash, d: int,
                                       i: nat, cut: bool, e: Edge)
    requires d > 0 && (s, d) !in t.coverage && !VisitActors(w, random, t, log, s, d, i, cut).violated
    ensures var r := VisitActors(w, random, t, log, s, d, i, cut);
            log <= r.log &&
            CountIn(r.log[|log|..], e) == Times(w, e, NewQueries(t, r.tables) - {(s, d)}) + Left(w, s, e, i)
    decreases Bound(d), 2, |Enabled(w, s)| - i, 0
  {
    if i < |Enabled(w, s)| {
      var card := w.cardinality(s, Enabled(w, s)[i]);
      var first := FirstChoice(card, random(|log|));
      ChoicesCount(w, random, t, log, s, d, i, Queue(card, first), cut, e);
      LeftStarts(w, s, e, i, first);
    } else {
      PublishRecords(t, s, d, cut);
      LeftNone(w, s, e, i);
      TimesNone(w, e, NewQueries(t, VisitActors(w, random, t, log, s, d, i, cut).tables) - {(s, d)});
    }
  }

  lemma {:induction false} ChoicesCount(w: World, random: nat -> nat, t: Tables, log: seq<Edge>, s: Hash, d: int,
                                        i: nat, queue: seq<int>, cut: bool, e: Edge)
    requires d > 0 && i < |Enabled(w, s)| && (s, d) !in t.coverage
    requires !VisitChoices(w, random, t, log, s, d, i, queue, cut).violated
    ensures var r := VisitChoices(w, random, t, log, s, d, i, queue, cut);
            log <= r.log &&
            CountIn(r.log[|log|..], e) == Times(w, e, NewQueries(t, r.tables) - {(s, d)}) + LeftOf(w, s, e, i, queue)
    decreases Bound(d), 2, |Enabled(w, s)| - i - 1, |queue| + 1
  {
    if queue == [] {
      ActorsCount(w, random, t, log, s, d, i + 1, cut, e);
    } else {
      var x := Edge(s, Enabled(w, s)[i], queue[|queue| - 1]);
      var rest := queue[..|queue| - 1];
      VisitCounts(w, random, t, log + [x], Target(w, x), d - 1, e);
      VisitRecords(w, random, t, log + [x], Target(w, x), d - 1);
      var child := Visit(w, random, t, log + [x], Target(w, x), d - 1);
      ChoicesCount(w, random, child.tables, child.log, s, d, i, rest, cut || child.cut, e);
      ChoicesRecord(w, random, child.tables, child.log, s, d, i, rest, cut || child.cut);
      var r := VisitChoices(w, random, child.tables, child.log, s, d, i, rest, cut || child.cut);
      CountChild(w, log, x, t, child, r, s, d, e);
      LeftPops(w, s, e, i, queue);
    }
  }

  lemma CountChild(w: World, log: seq<Edge>, x: Edge, t: Tables, child: Outcome, r: Outcome, s: Hash, d: int, e: Edge)
    requires log + [x] <= child.log <= r.log && (s, d) !in child.tables.coverage
    requires Recorded(t, child.tables) && Recorded(child.tables, r.tables)
    ensures CountIn(r.log[|log|..], e) ==
            (if x == e then 1 else 0) + CountIn(child.log[|log + [x]|..], e) + CountIn(r.log[|child.log|..], e)
    ensures Times(w, e, NewQueries(t, r.tables) - {(s, d)}) ==
            Times(w, e, NewQueries(t, child.tables)) + Times(w, e, NewQueries(child.tables, r.tables) - {(s, d)})
  {
    CountSplit(log, log + [x], r.log, e);
    CountSplit(log + [x], child.log, r.log, e);
    CountOne(log, x, e);
    RecordedTrans(t, child.tables, r.tables);
    var a, b := NewQueries(t, child.tables), NewQueries(child.tables, r.tables) - {(s, d)};
    assert NewQueries(t, r.tables) - {(s, d)} == a + b;
    TimesSplit(w, e, a, b);
  }

  // ---- All together -----------------------------------------------------------------

  /** What a finished search of `root` to depth `d` has done, told without how: it discovered
      its root and exactly what its edges lead to, executed real edges within its depth up to
      a failing state, changed no record and, unless it stopped, enumerated each newly
      recorded query exactly once. */
  ghost predicate Searched(w: World, root: Hash, d: int, t: Tables, log: seq<Edge>, t': Tables, log': seq<Edge>,
                           violated: bool)
  {
    && log <= log'
    && t'.seen == t.seen + {root} + Discovered(w, log'[|log|..])
    && StopsRight(w, root, Bound(d), log'[|log|..], violated) && (violated ==> |log'| > |log| || w.failed(root))
    && Recorded(t, t') && NoDeeper(NewQueries(t, t'), d)
    && (!violated ==> forall e: Edge :: CountIn(log'[|log|..], e) == Times(w, e, NewQueries(t, t')))
  }

  lemma VisitSearches(w: World, random: nat -> nat, t: Tables, log: seq<Edge>, s: Hash, d: int)
    ensures var r := Visit(w, random, t, log, s, d); Searched(w, s, d, t, log, r.tables, r.log, r.violated)
  {
    var r := Visit(w, random, t, log, s, d);
    assert ReachIn(w, s, 0, s);
    VisitDiscovers(w, random, t, log, s, d);
    VisitStops(w, random, t, log, s, d, s, 0);
    VisitRecords(w, random, t, log, s, d);
    if !r.violated {
      forall e: Edge ensures CountIn(r.log[|log|..], e) == Times(w, e, NewQueries(t, r.tables)) {
        VisitCounts(w, random, t, log, s, d, e);
      }
    }
  }
}
