/** What the tables mean, at every step of the frame machine. */
module DepthFirstSound {
  import opened Common
  import opened Graph
  import opened Choices
  import opened DepthFirst

  /** The tables hold an answer to this bounded query. */
  predicate Answered(t: Tables, s: Hash, d: int) {
    s in t.covered || (s, d) in t.coverage
  }

  /** A finished query: nothing within the depth, at least the state itself, fails; a cut is
      recorded for exactly this depth and is a real walk of that length to a state that could
      go on; without one all is covered. */
  ghost predicate EntrySound(w: World, t: Tables, s: Hash, d: int, cut: bool) {
    && CleanWithin(w, s, Bound(d))
    && (cut ==> CutAt(w, s, Bound(d)) && (s, d) in t.coverage && t.coverage[(s, d)])
    && (!cut ==> s in t.covered)
  }

  /** `covered` is closed, free of failures and was executed edge by edge, every published
      entry means what it says, and the queries it was made of are answered too. */
  ghost predicate SoundTables(w: World, t: Tables, log: seq<Edge>) {
    && CleanClosed(w, t.covered)
    && t.covered <= t.seen
    && (forall e: Edge :: e.source in t.covered && IsEdge(w, e) ==> e in log)
    && (forall s, d :: (s, d) in t.coverage ==> EntrySound(w, t, s, d, t.coverage[(s, d)]))
    && (forall e: Edge, d: int ::
          IsEdge(w, e) && (e.source, d) in t.coverage && d > 0 ==> Answered(t, Target(w, e), d - 1))
  }

  ghost predicate Explored(w: World, t: Tables, s: Hash, d: int, cut: bool) {
    CleanWithin(w, s, d) && (!cut ==> s in t.covered) && Answered(t, s, d)
  }

  predicate Later(actors: seq<Actor>, pos: nat, a: Actor) {
    exists i :: pos < i < |actors| && actors[i] == a
  }

  /** The frame has yet to execute this edge of its state. */
  predicate Todo(f: Frame, e: Edge) {
    && f.pos < |f.actors|
    && (|| Later(f.actors, f.pos, e.actor)
        || (e.actor == f.actors[f.pos] &&
            (f.state == 1 || (f.state == 2 && f.cardinality < 0) || e.choice in f.choices)))
  }

  /** Every executed edge of the frame leads to an explored state, or to the state of the
      frame above, `child`. */
  ghost predicate FrameSound(w: World, t: Tables, log: seq<Edge>, f: Frame, child: Option<Hash>) {
    f.state >= 1 ==>
      && f.hash in t.seen
      && (f.cut ==> f.depth >= 0 && CutAt(w, f.hash, f.depth))
      && (forall e: Edge :: IsEdge(w, e) && e.source == f.hash && !Todo(f, e) ==>
            && e in log
            && (Explored(w, t, Target(w, e), f.depth - 1, f.cut) || child == Some(Target(w, e))))
  }

  ghost predicate Linked(w: World, s: Hash, t: Hash) {
    exists e: Edge :: IsEdge(w, e) && e.source == s && Target(w, e) == t
  }

  /** A query: the state and depth the search was started with. */
  datatype Query = Query(root: Hash, depth: int)

  ghost predicate OnPath(w: World, q: Query, f: Frame) {
    && f.depth <= q.depth && (f.depth == q.depth || f.depth >= 0)
    && ReachIn(w, q.root, q.depth - f.depth, f.hash)
  }

  ghost predicate StackSound(w: World, q: Query, t: Tables, log: seq<Edge>, stack: seq<Frame>, child: Option<Hash>) {
    stack != [] ==>
      && FrameSound(w, t, log, Top(stack), child)
      && OnPath(w, q, Top(stack))
      && (child.Some? ==> Linked(w, Top(stack).hash, child.value))
      && StackSound(w, q, t, log, Below(stack), Some(Top(stack).hash))
  }

  predicate AnyCut(stack: seq<Frame>) {
    stack != [] && (Top(stack).cut || AnyCut(Below(stack)))
  }

  /** The root frame stays at the bottom, `limit` records exactly the cuts on the stack,
      and an empty stack leaves a justified result for the root. */
  ghost predicate RootSound(w: World, q: Query, m: Machine) {
    if m.stack == [] then EntrySound(w, m.tables, q.root, q.depth, m.limit)
    else m.stack[0].hash == q.root && m.stack[0].depth == q.depth && (m.limit <==> AnyCut(m.stack))
  }

  lemma FinishRoot(w: World, q: Query, m: Machine, cut: bool, publish: bool)
    requires m.stack != [] && RootSound(w, q, m)
    requires Top(m.stack).cut ==> cut
    requires EntrySound(w, Finish(m, cut, publish).tables, Top(m.stack).hash, Top(m.stack).depth, cut)
    ensures RootSound(w, q, Finish(m, cut, publish))
  {
    var below := Below(m.stack);
    assert AnyCut(m.stack) <==> Top(m.stack).cut || AnyCut(below);
    if below == [] {
      assert Finish(m, cut, publish).limit == cut;
    } else {
      var merged := Merge(below, cut);
      assert Below(merged) == Below(below) && merged[0].hash == below[0].hash && merged[0].depth == below[0].depth;
      assert AnyCut(merged) <==> AnyCut(below) || cut;
    }
  }

  lemma ReplaceTopRoot(w: World, q: Query, m: Machine, g: Frame)
    requires m.stack != [] && RootSound(w, q, m)
    requires g.hash == Top(m.stack).hash && g.depth == Top(m.stack).depth && g.cut == Top(m.stack).cut
    ensures RootSound(w, q, m.(stack := Below(m.stack) + [g]))
  {
    assert Below(Below(m.stack) + [g]) == Below(m.stack);
  }

  lemma PushRoot(w: World, q: Query, m: Machine, f: Frame)
    requires m.stack != [] && RootSound(w, q, m) && !f.cut
    ensures RootSound(w, q, m.(stack := m.stack + [f]))
  {
    assert Below(m.stack + [f]) == m.stack;
  }

  ghost predicate MachineSound(w: World, q: Query, m: Machine) {
    && StackShape(w, m.stack)
    && SoundTables(w, m.tables, m.log)
    && StackSound(w, q, m.tables, m.log, m.stack, None)
    && RootSound(w, q, m)
  }

  lemma {:induction false} StackSoundGrows(w: World, q: Query, t: Tables, log: seq<Edge>, t': Tables,
                                           log': seq<Edge>, stack: seq<Frame>, child: Option<Hash>)
    requires StackSound(w, q, t, log, stack, child)
    requires t.covered <= t'.covered && t.coverage.Keys <= t'.coverage.Keys && t.seen <= t'.seen && log <= log'
    ensures StackSound(w, q, t', log', stack, child)
    decreases |stack|
  {
    if stack != [] {
      assert forall e :: e in log ==> e in log';
      StackSoundGrows(w, q, t, log, t', log', Below(stack), Some(Top(stack).hash));
    }
  }

  /** A frame takes over the result of its finished child. */
  lemma MergeFrameSound(w: World, t: Tables, log: seq<Edge>, f: Frame, child: Hash, cut: bool)
    requires f.state >= 1 && f.depth > 0
    requires FrameSound(w, t, log, f, Some(child)) && Linked(w, f.hash, child)
    requires EntrySound(w, t, child, f.depth - 1, cut)
    ensures FrameSound(w, t, log, f.(cut := f.cut || cut), None)
  {
    if cut {
      var e: Edge :| IsEdge(w, e) && e.source == f.hash && Target(w, e) == child;
      CutFromSuccessor(w, e, f.depth - 1);
    }
    var g := f.(cut := f.cut || cut);
    forall e: Edge | IsEdge(w, e) && e.source == f.hash && !Todo(g, e)
      ensures e in log && Explored(w, t, Target(w, e), g.depth - 1, g.cut)
    {
      assert !Todo(f, e);
    }
  }

  lemma PushedSound(w: World, q: Query, t: Tables, log: seq<Edge>, below: seq<Frame>, f: Frame)
    requires FrameSound(w, t, log, f, None) && OnPath(w, q, f) && StackSound(w, q, t, log, below, Some(f.hash))
    ensures StackSound(w, q, t, log, below + [f], None)
  {
    assert Below(below + [f]) == below && Top(below + [f]) == f;
  }

  lemma MergeStackSound(w: World, q: Query, t: Tables, log: seq<Edge>, stack: seq<Frame>, child: Hash, depth: int,
                        cut: bool)
    requires stack != [] ==> Top(stack).state >= 1 && Top(stack).depth - 1 == depth >= 0
    requires StackSound(w, q, t, log, stack, Some(child))
    requires EntrySound(w, t, child, depth, cut)
    ensures StackSound(w, q, t, log, Merge(stack, cut), None)
  {
    if stack != [] {
      var f := Top(stack);
      MergeFrameSound(w, t, log, f, child, cut);
      PushedSound(w, q, t, log, Below(stack), f.(cut := f.cut || cut));
    }
  }

  lemma PublishSound(w: World, t: Tables, log: seq<Edge>, s: Hash, d: int, cut: bool)
    requires SoundTables(w, t, log) && s in t.seen
    requires CleanWithin(w, s, Bound(d)) && !w.failed(s)
    requires cut ==> CutAt(w, s, Bound(d))
    requires !cut ==> forall e: Edge :: IsEdge(w, e) && e.source == s ==> e in log && Target(w, e) in t.covered
    requires d > 0 ==> forall e: Edge :: IsEdge(w, e) && e.source == s ==> Answered(t, Target(w, e), d - 1)
    ensures SoundTables(w, Publish(t, s, d, cut), log)
    ensures EntrySound(w, Publish(t, s, d, cut), s, d, cut)
  {
    var t' := Publish(t, s, d, cut);
    forall s', d' | (s', d') in t'.coverage ensures EntrySound(w, t', s', d', t'.coverage[(s', d')]) {
      if (s', d') != (s, d) {
        assert (s', d') in t.coverage;
      }
    }
  }

  /** Popping a frame with a justified result. */
  lemma FinishSound(w: World, q: Query, m: Machine, cut: bool, publish: bool)
    requires MachineSound(w, q, m) && m.stack != [] && (Top(m.stack).cut ==> cut)
    requires var f, t := Top(m.stack), Finish(m, cut, publish).tables;
             SoundTables(w, t, m.log) && EntrySound(w, t, f.hash, f.depth, cut)
    ensures MachineSound(w, q, Finish(m, cut, publish))
  {
    var f, next := Top(m.stack), Finish(m, cut, publish);
    var below := Below(m.stack);
    assert StackShape(w, below) by {
      assert forall i :: 0 <= i < |below| ==> below[i] == m.stack[i];
    }
    MergeShape(w, below, cut);
    StackSoundGrows(w, q, m.tables, m.log, next.tables, m.log, below, Some(f.hash));
    MergeStackSound(w, q, next.tables, m.log, below, f.hash, f.depth, cut);
    FinishRoot(w, q, m, cut, publish);
  }

  /** A violation the machine stops at is a real failing state within the depth. */
  ghost predicate RealViolation(w: World, q: Query) {
    exists k: nat, t: Hash :: k <= Bound(q.depth) && ReachIn(w, q.root, k, t) && w.failed(t)
  }

  ghost predicate StepSound(w: World, q: Query, step: Step) {
    if step.Violated? then SoundTables(w, step.next.tables, step.next.log) && RealViolation(w, q)
    else MachineSound(w, q, step.next)
  }

  lemma SeenGrows(w: World, q: Query, m: Machine, s: Hash)
    requires MachineSound(w, q, m) && m.stack != []
    ensures MachineSound(w, q, m.(tables := m.tables.(seen := m.tables.seen + {s})))
  {
    var m' := m.(tables := m.tables.(seen := m.tables.seen + {s}));
    forall s', d' | (s', d') in m'.tables.coverage
      ensures EntrySound(w, m'.tables, s', d', m'.tables.coverage[(s', d')])
    {
      assert (s', d') in m.tables.coverage;
    }
    StackSoundGrows(w, q, m.tables, m.log, m'.tables, m.log, m.stack, None);
  }

  lemma CachedSound(w: World, t: Tables, log: seq<Edge>, s: Hash, d: int)
    requires SoundTables(w, t, log) && Cached(t, s, d).Some?
    ensures EntrySound(w, t, s, d, Cached(t, s, d).value)
  {
    if s in t.covered {
      CoveredIsClean(w, t.covered, s, Bound(d));
    }
  }

  /** The result `cut` of an entered frame is published: it has no action, or no depth. */
  lemma LeafSound(w: World, q: Query, m: Machine, cut: bool)
    requires MachineSound(w, q, m) && m.stack != []
    requires var f := Top(m.stack);
             && f.hash in m.tables.seen && !w.failed(f.hash) && !f.cut
             && cut == (Enabled(w, f.hash) != []) && (cut ==> f.depth <= 0)
    ensures MachineSound(w, q, Finish(m, cut, true))
  {
    var f := Top(m.stack);
    if cut {
      assert CleanWithin(w, f.hash, 0) && CutAt(w, f.hash, 0) by { assert ReachIn(w, f.hash, 0, f.hash); }
    } else {
      CleanFromSuccessors(w, f.hash, Bound(f.depth));
    }
    PublishSound(w, m.tables, m.log, f.hash, f.depth, cut);
    FinishSound(w, q, m, cut, true);
  }

  /** An entered frame starts with every edge to do. */
  lemma OpenSound(w: World, q: Query, m: Machine, g: Frame)
    requires MachineSound(w, q, m) && m.stack != [] && FrameShape(w, g)
    requires var f := Top(m.stack);
             && f.hash in m.tables.seen && !f.cut
             && g.hash == f.hash && g.depth == f.depth && g.state == 1 && g.pos == 0 && !g.cut && g.actors != []
    ensures MachineSound(w, q, m.(stack := Below(m.stack) + [g]))
  {
    assert Below(Below(m.stack) + [g]) == Below(m.stack);
    forall e: Edge | IsEdge(w, e) && e.source == g.hash ensures Todo(g, e) {
      var i :| 0 <= i < |g.actors| && g.actors[i] == e.actor;
    }
    assert FrameSound(w, m.tables, m.log, g, None);
    ReplaceTopShape(w, m.stack, g);
    ReplaceTopRoot(w, q, m, g);
  }

  lemma EnterSound(w: World, q: Query, m: Machine)
    requires MachineSound(w, q, m) && m.stack != [] && Top(m.stack).state == 0
    ensures StepSound(w, q, Enter(w, m))
  {
    SeenGrows(w, q, m, Top(m.stack).hash);
    var m' := m.(tables := m.tables.(seen := m.tables.seen + {Top(m.stack).hash}));
    assert Top(m'.stack) == NewFrame(Top(m.stack).hash, Top(m.stack).depth);
    EnterSeenSound(w, q, m', Enter(w, m));
  }

  lemma EnterSeenSound(w: World, q: Query, m: Machine, step: Step)
    requires MachineSound(w, q, m) && m.stack != []
    requires var f := Top(m.stack); f == NewFrame(f.hash, f.depth) && f.hash in m.tables.seen
    requires step == Enter(w, m)
    ensures StepSound(w, q, step)
  {
    var f := Top(m.stack);
    assert m.tables.(seen := m.tables.seen + {f.hash}) == m.tables;
    if Cached(m.tables, f.hash, f.depth).Some? {
      CachedSound(w, m.tables, m.log, f.hash, f.depth);
      FinishSound(w, q, m, Cached(m.tables, f.hash, f.depth).value, false);
    } else if w.failed(f.hash) {
      assert OnPath(w, q, f);
    } else if Enabled(w, f.hash) == [] || f.depth <= 0 {
      LeafSound(w, q, m, Enabled(w, f.hash) != []);
    } else {
      OpenSound(w, q, m, f.(snapshot := Some(f.hash), actors := Enabled(w, f.hash), state := 1, pos := 0));
    }
  }

  lemma ReplaceTopShape(w: World, stack: seq<Frame>, g: Frame)
    requires stack != [] && StackShape(w, stack) && FrameShape(w, g) && g.depth == Top(stack).depth
    ensures StackShape(w, Below(stack) + [g])
  {
    var next := Below(stack) + [g];
    forall i | 0 <= i < |next| - 1 ensures Suspended(next[i]) && next[i + 1].depth == next[i].depth - 1 {
      assert next[i] == stack[i] && next[i + 1].depth == stack[i + 1].depth;
    }
  }

  /** Replacing the top frame by one with the same edges still to do. */
  lemma ReplaceTopSound(w: World, q: Query, m: Machine, g: Frame)
    requires MachineSound(w, q, m) && m.stack != []
    requires var f := Top(m.stack);
             && FrameShape(w, g) && f.state >= 1 && g.state >= 1
             && g.hash == f.hash && g.depth == f.depth && g.cut == f.cut
             && forall e: Edge :: IsEdge(w, e) && e.source == f.hash && Todo(f, e) ==> Todo(g, e)
    ensures MachineSound(w, q, m.(stack := Below(m.stack) + [g]))
  {
    ReplaceTopShape(w, m.stack, g);
    ReplaceTopRoot(w, q, m, g);
    assert Below(Below(m.stack) + [g]) == Below(m.stack);
  }

  lemma BeginActorSound(w: World, q: Query, m: Machine)
    requires MachineSound(w, q, m) && m.stack != [] && Top(m.stack).state == 1
    ensures StepSound(w, q, BeginActor(m))
  {
    var f := Top(m.stack);
    if f.pos >= |f.actors| {
      assert forall e: Edge :: IsEdge(w, e) && e.source == f.hash ==>
          e in m.log && Explored(w, m.tables, Target(w, e), f.depth - 1, f.cut);
      CleanFromSuccessors(w, f.hash, f.depth);
      PublishSound(w, m.tables, m.log, f.hash, f.depth, f.cut);
      FinishSound(w, q, m, f.cut, true);
    } else {
      ReplaceTopSound(w, q, m, f.(choices := [], cardinality := -1, state := 2));
    }
  }

  lemma NextChoiceSound(w: World, q: Query, m: Machine)
    requires MachineSound(w, q, m) && m.stack != [] && Top(m.stack).state == 3
    ensures MachineSound(w, q, NextChoice(m))
  {
    ReplaceTopSound(w, q, m, Top(m.stack).(state := 2));
  }

  /** Suspending a frame leaves every edge to do but the one just executed. */
  lemma SuspendTodo(w: World, random: nat -> nat, log: seq<Edge>, f: Frame, e: Edge)
    requires f.state == 2 && Todo(f, e) && Remaining(w, random, log, f) != []
    requires e.actor == f.actors[f.pos] ==> ValidChoice(w.cardinality(f.hash, e.actor), e.choice)
    ensures var queue := Remaining(w, random, log, f);
            (e.actor == f.actors[f.pos] && e.choice == queue[|queue| - 1])
            || Todo(Suspend(w, f, queue[..|queue| - 1]), e)
  {
    var queue := Remaining(w, random, log, f);
    if Later(f.actors, f.pos, e.actor) {
      var i :| f.pos < i < |f.actors| && f.actors[i] == e.actor;
      assert i > f.pos + 1 ==> Later(f.actors, f.pos + 1, e.actor);
    } else {
      if f.cardinality < 0 {
        var card := w.cardinality(f.hash, f.actors[f.pos]);
        QueueExact(card, FirstChoice(card, random(|log|)), e.choice);
      }
      var i :| 0 <= i < |queue| && queue[i] == e.choice;
      assert i < |queue| - 1 ==> queue[..|queue| - 1][i] == e.choice;
    }
  }

  /** Each edge that is no longer to do was done before or is the one just executed. */
  lemma SuspendEdge(w: World, random: nat -> nat, t: Tables, log: seq<Edge>, f: Frame, e: Edge)
    requires FrameShape(w, f) && f.state == 2 && FrameSound(w, t, log, f, None)
    requires Remaining(w, random, log, f) != [] && IsEdge(w, e) && e.source == f.hash
    ensures var queue := Remaining(w, random, log, f);
            || Todo(Suspend(w, f, queue[..|queue| - 1]), e)
            || e == Edge(f.hash, f.actors[f.pos], queue[|queue| - 1])
            || (e in log && Explored(w, t, Target(w, e), f.depth - 1, f.cut))
  {
    if Todo(f, e) {
      SuspendTodo(w, random, log, f, e);
    }
  }

  lemma SuspendSound(w: World, random: nat -> nat, t: Tables, log: seq<Edge>, f: Frame)
    requires FrameShape(w, f) && f.state == 2 && FrameSound(w, t, log, f, None)
    requires Remaining(w, random, log, f) != []
    ensures var queue := Remaining(w, random, log, f);
            var e := Edge(f.hash, f.actors[f.pos], queue[|queue| - 1]);
            FrameSound(w, t, log + [e], Suspend(w, f, queue[..|queue| - 1]), Some(Target(w, e)))
  {
    var queue := Remaining(w, random, log, f);
    var e := Edge(f.hash, f.actors[f.pos], queue[|queue| - 1]);
    var g := Suspend(w, f, queue[..|queue| - 1]);
    forall e': Edge | IsEdge(w, e') && e'.source == g.hash && !Todo(g, e')
      ensures e' in log + [e]
      ensures Explored(w, t, Target(w, e'), g.depth - 1, g.cut) || Some(Target(w, e)) == Some(Target(w, e'))
    {
      SuspendEdge(w, random, t, log, f, e');
    }
  }

  lemma LogGrows(w: World, t: Tables, log: seq<Edge>, e: Edge)
    requires SoundTables(w, t, log)
    ensures SoundTables(w, t, log + [e])
  {
    assert forall e' :: e' in log ==> e' in log + [e];
  }

  /** Pushing the successor reached by `e` on a suspended frame. */
  lemma PushSound(w: World, q: Query, t: Tables, log: seq<Edge>, base: seq<Frame>, g: Frame, e: Edge)
    requires IsEdge(w, e) && e.source == g.hash && g.depth > 0
    requires StackSound(w, q, t, log, base, Some(g.hash))
    requires FrameSound(w, t, log + [e], g, Some(Target(w, e))) && OnPath(w, q, g)
    ensures StackSound(w, q, t, log + [e], base + [g] + [NewFrame(Target(w, e), g.depth - 1)], None)
  {
    var child := NewFrame(Target(w, e), g.depth - 1);
    StackSoundGrows(w, q, t, log, t, log + [e], base, Some(g.hash));
    ReachSnoc(w, q.root, q.depth - g.depth, e);
    assert Linked(w, g.hash, Target(w, e));
    assert Below(base + [g]) == base;
    assert StackSound(w, q, t, log + [e], base + [g], Some(child.hash));
    assert Below(base + [g] + [child]) == base + [g];
  }

  lemma PushMachineSound(w: World, q: Query, m: Machine, g: Frame, e: Edge)
    requires MachineSound(w, q, m) && m.stack != []
    requires g.hash == Top(m.stack).hash && g.depth == Top(m.stack).depth > 0 && FrameShape(w, g) && Suspended(g)
    requires g.cut == Top(m.stack).cut && IsEdge(w, e) && e.source == g.hash
    requires FrameSound(w, m.tables, m.log + [e], g, Some(Target(w, e)))
    ensures MachineSound(w, q,
              m.(log := m.log + [e], stack := Below(m.stack) + [g] + [NewFrame(Target(w, e), g.depth - 1)]))
  {
    var stack := Below(m.stack) + [g] + [NewFrame(Target(w, e), g.depth - 1)];
    assert SoundTables(w, m.tables, m.log + [e]) by {
      LogGrows(w, m.tables, m.log, e);
    }
    assert StackSound(w, q, m.tables, m.log + [e], stack, None) by {
      PushSound(w, q, m.tables, m.log, Below(m.stack), g, e);
    }
    assert StackShape(w, stack) by {
      assert m.stack == Below(m.stack) + [Top(m.stack)];
      PushShape(w, Below(m.stack), Top(m.stack), g, NewFrame(Target(w, e), g.depth - 1));
    }
    assert RootSound(w, q, m.(log := m.log + [e], stack := stack)) by {
      ReplaceTopRoot(w, q, m, g);
      PushRoot(w, q, m.(stack := Below(m.stack) + [g]), NewFrame(Target(w, e), g.depth - 1));
    }
  }

  lemma ViolatingEdge(w: World, q: Query, m: Machine, e: Edge)
    requires MachineSound(w, q, m) && m.stack != [] && Top(m.stack).depth > 0
    requires IsEdge(w, e) && e.source == Top(m.stack).hash && w.failed(Target(w, e))
    ensures StepSound(w, q, Violated(m.(log := m.log + [e])))
  {
    LogGrows(w, m.tables, m.log, e);
    ReachSnoc(w, q.root, q.depth - Top(m.stack).depth, e);
  }

  /** What executing a choice does, as an edge and a suspended frame. */
  lemma RunEdgeForm(w: World, random: nat -> nat, m: Machine)
    requires m.stack != [] && FrameShape(w, Top(m.stack)) && Top(m.stack).state == 2
    ensures var f, queue := Top(m.stack), Remaining(w, random, m.log, Top(m.stack));
            && queue != []
            && var e, g := Edge(f.hash, f.actors[f.pos], queue[|queue| - 1]), Suspend(w, f, queue[..|queue| - 1]);
               && IsEdge(w, e) && FrameShape(w, g) && Suspended(g) && g.hash == f.hash && g.depth == f.depth > 0 &&
                  g.cut == f.cut
               && RunEdge(w, random, m) ==
                  if w.failed(Target(w, e)) then Violated(m.(log := m.log + [e]))
                  else Entered(m.(log := m.log + [e],
                                  stack := Below(m.stack) + [g] + [NewFrame(Target(w, e), g.depth - 1)]))
  {
    var f := Top(m.stack);
    RemainingShape(w, random, m.log, f);
    var queue := Remaining(w, random, m.log, f);
    SuspendShape(w, f, queue[..|queue| - 1]);
    var g := Suspend(w, f, queue[..|queue| - 1]);
    var child := NewFrame(Target(w, Edge(f.hash, f.actors[f.pos], queue[|queue| - 1])), f.depth - 1);
    assert Below(m.stack) + [g, child] == Below(m.stack) + [g] + [child];
  }

  /** The search stays sound whether the executed edge violates or pushes a frame. */
  lemma EdgeStepSound(w: World, q: Query, m: Machine, g: Frame, e: Edge, step: Step)
    requires MachineSound(w, q, m) && m.stack != []
    requires g.hash == Top(m.stack).hash && g.depth == Top(m.stack).depth > 0 && FrameShape(w, g) && Suspended(g)
    requires g.cut == Top(m.stack).cut && IsEdge(w, e) && e.source == g.hash
    requires FrameSound(w, m.tables, m.log + [e], g, Some(Target(w, e)))
    requires step == if w.failed(Target(w, e)) then Violated(m.(log := m.log + [e]))
                     else Entered(m.(log := m.log + [e],
                                     stack := Below(m.stack) + [g] + [NewFrame(Target(w, e), g.depth - 1)]))
    ensures StepSound(w, q, step)
  {
    if w.failed(Target(w, e)) {
      ViolatingEdge(w, q, m, e);
    } else {
      PushMachineSound(w, q, m, g, e);
    }
  }

  lemma RunEdgeSound(w: World, random: nat -> nat, q: Query, m: Machine)
    requires MachineSound(w, q, m) && m.stack != [] && Top(m.stack).state == 2
    ensures Remaining(w, random, m.log, Top(m.stack)) != []
    ensures StepSound(w, q, RunEdge(w, random, m))
  {
    var f := Top(m.stack);
    RunEdgeForm(w, random, m);
    SuspendSound(w, random, m.tables, m.log, f);
    var queue := Remaining(w, random, m.log, f);
    var e := Edge(f.hash, f.actors[f.pos], queue[|queue| - 1]);
    EdgeStepSound(w, q, m, Suspend(w, f, queue[..|queue| - 1]), e, RunEdge(w, random, m));
  }
}
