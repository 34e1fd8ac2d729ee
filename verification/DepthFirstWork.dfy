/** Termination of the frame machine, for every depth and every world: each frame weighs
    the choices it has yet to execute by a bound on the search below them. */
module DepthFirstWork {
  import opened Common
  import opened Graph
  import opened Choices
  import opened DepthFirst

  /** Loop iterations of an unmemoised search of `s` to depth `d`. */
  function Work(w: World, s: Hash, d: int): nat
    decreases Bound(d), 2, 0
  {
    if d <= 0 then 1 else 1 + ActorsWork(w, s, d, Enabled(w, s))
  }

  function ActorsWork(w: World, s: Hash, d: int, actors: seq<Actor>): (r: nat)
    requires d > 0
    ensures r >= 1
    decreases Bound(d), 1, |actors|
  {
    if actors == [] then 1
    else RangeWork(w, s, d, actors[0], w.cardinality(s, actors[0])) + ActorsWork(w, s, d, actors[1..])
  }

  function ChoiceWork(w: World, s: Hash, d: int, a: Actor, c: int): nat
    requires d > 0
    decreases Bound(d), 0, 0
  {
    2 + Work(w, w.step(s, a, c), d - 1)
  }

  /** The work of all choices of an action, in the order of the choices. */
  function RangeWork(w: World, s: Hash, d: int, a: Actor, n: nat): nat
    requires d > 0
    decreases Bound(d), 0, n + 1
  {
    if n == 0 then ChoiceWork(w, s, d, a, -1)
    else if n == 1 then ChoiceWork(w, s, d, a, 0)
    else RangeWork(w, s, d, a, n - 1) + ChoiceWork(w, s, d, a, n - 1)
  }

  /** The work of a list of choices, in the order they are popped. */
  function QueueWork(w: World, s: Hash, d: int, a: Actor, queue: seq<int>): nat
    requires d > 0
  {
    if queue == [] then 0
    else ChoiceWork(w, s, d, a, queue[|queue| - 1]) + QueueWork(w, s, d, a, queue[..|queue| - 1])
  }

  lemma {:induction false} OthersWork(w: World, s: Hash, d: int, a: Actor, n: nat, first: int)
    requires d > 0 && n > 0
    ensures QueueWork(w, s, d, a, Others(n, first)) + (if 0 <= first < n then ChoiceWork(w, s, d, a, first) else 0)
            == RangeWork(w, s, d, a, n)
    decreases n
  {
    if n == 1 {
      assert Others(0, first) == [];
    } else {
      OthersWork(w, s, d, a, n - 1, first);
      if n - 1 != first {
        assert Others(n, first)[..|Others(n, first)| - 1] == Others(n - 1, first);
      }
    }
  }

  /** Whatever choice is drawn first, the queue weighs as much as the action. */
  lemma QueueWorkIsRangeWork(w: World, s: Hash, d: int, a: Actor, n: nat, first: int)
    requires d > 0 && ValidChoice(n, first)
    ensures QueueWork(w, s, d, a, Queue(n, first)) == RangeWork(w, s, d, a, n)
  {
    assert Queue(n, first)[..|Queue(n, first)| - 1] == Others(n, first);
    if n > 0 {
      OthersWork(w, s, d, a, n, first);
    }
  }

  function FrameWork(w: World, f: Frame): nat
    requires FrameShape(w, f)
  {
    if f.state == 0 then Work(w, f.hash, f.depth)
    else if f.state == 1 || (f.state == 2 && f.cardinality < 0) then ActorsWork(w, f.hash, f.depth, f.actors[f.pos..])
    else (if f.state == 3 then 1 else 0)
         + QueueWork(w, f.hash, f.depth, f.actors[f.pos], f.choices)
         + ActorsWork(w, f.hash, f.depth, f.actors[f.pos + 1..])
  }

  function StackWork(w: World, stack: seq<Frame>): nat
    requires StackShape(w, stack)
  {
    if stack == [] then 0 else FrameWork(w, Top(stack)) + StackWork(w, Below(stack))
  }

  lemma CutWeighsNothing(w: World, f: Frame, g: Frame)
    requires FrameShape(w, f) && FrameShape(w, g) && g == f.(cut := g.cut)
    ensures FrameWork(w, g) == FrameWork(w, f)
  {
  }

  lemma MergeWork(w: World, stack: seq<Frame>, cut: bool)
    requires StackShape(w, stack) && (stack != [] ==> Top(stack).state != 0)
    ensures StackShape(w, Merge(stack, cut))
    ensures StackWork(w, Merge(stack, cut)) == StackWork(w, stack)
  {
    MergeShape(w, stack, cut);
    if stack != [] {
      var f, g := Top(stack), Top(Merge(stack, cut));
      assert g == f.(cut := g.cut) && Below(Merge(stack, cut)) == Below(stack);
      CutWeighsNothing(w, f, g);
    }
  }

  lemma FinishWork(w: World, m: Machine, cut: bool, publish: bool)
    requires m.stack != [] && StackShape(w, m.stack)
    ensures StackShape(w, Finish(m, cut, publish).stack)
    ensures StackWork(w, Finish(m, cut, publish).stack) < StackWork(w, m.stack)
  {
    MergeWork(w, Below(m.stack), cut);
  }

  lemma EnterWork(w: World, m: Machine)
    requires m.stack != [] && StackShape(w, m.stack) && Top(m.stack).state == 0
    ensures var step := Enter(w, m);
            !step.Violated? ==> StackShape(w, step.next.stack) && StackWork(w, step.next.stack) < StackWork(w, m.stack)
  {
    var f := Top(m.stack);
    var m' := m.(tables := m.tables.(seen := m.tables.seen + {f.hash}));
    if Enter(w, m).Finished? {
      var known := Cached(m'.tables, f.hash, f.depth);
      FinishWork(w, m', if known.Some? then known.value else Enabled(w, f.hash) != [], known.None?);
    } else if Enter(w, m).Entered? {
      var next := Enter(w, m).next;
      assert Below(next.stack) == Below(m.stack);
      assert Top(next.stack).actors[0..] == Enabled(w, f.hash);
    }
  }

  lemma BeginActorWork(w: World, m: Machine)
    requires m.stack != [] && StackShape(w, m.stack) && Top(m.stack).state == 1
    ensures var step := BeginActor(m);
            && StackShape(w, step.next.stack)
            && StackWork(w, step.next.stack) <= StackWork(w, m.stack)
            && (step.Finished? ==> StackWork(w, step.next.stack) < StackWork(w, m.stack))
  {
    var f := Top(m.stack);
    if f.pos >= |f.actors| {
      FinishWork(w, m, f.cut, true);
    } else {
      assert Below(BeginActor(m).next.stack) == Below(m.stack);
    }
  }

  /** A frame about to execute a choice weighs its remaining choices and later actions. */
  lemma RemainingWork(w: World, random: nat -> nat, log: seq<Edge>, f: Frame)
    requires FrameShape(w, f) && f.state == 2
    ensures FrameWork(w, f) ==
            QueueWork(w, f.hash, f.depth, f.actors[f.pos], Remaining(w, random, log, f))
            + ActorsWork(w, f.hash, f.depth, f.actors[f.pos + 1..])
  {
    if f.cardinality < 0 {
      var a := f.actors[f.pos];
      var card := w.cardinality(f.hash, a);
      QueueWorkIsRangeWork(w, f.hash, f.depth, a, card, FirstChoice(card, random(|log|)));
      assert f.actors[f.pos..] == [a] + f.actors[f.pos + 1..];
    }
  }

  lemma SuspendedWork(w: World, f: Frame, rest: seq<int>)
    requires FrameShape(w, f) && f.state == 2
    requires InRange(rest, w.cardinality(f.hash, f.actors[f.pos]))
    ensures FrameShape(w, Suspend(w, f, rest))
    ensures FrameWork(w, Suspend(w, f, rest)) <=
            1 + QueueWork(w, f.hash, f.depth, f.actors[f.pos], rest)
            + ActorsWork(w, f.hash, f.depth, f.actors[f.pos + 1..])
  {
    SuspendShape(w, f, rest);
  }

  lemma SuspendWork(w: World, random: nat -> nat, log: seq<Edge>, f: Frame)
    requires FrameShape(w, f) && f.state == 2
    ensures var queue := Remaining(w, random, log, f);
            && queue != []
            && FrameShape(w, Suspend(w, f, queue[..|queue| - 1]))
            && FrameWork(w, Suspend(w, f, queue[..|queue| - 1]))
               + Work(w, w.step(f.hash, f.actors[f.pos], queue[|queue| - 1]), f.depth - 1) < FrameWork(w, f)
  {
    RemainingShape(w, random, log, f);
    RemainingWork(w, random, log, f);
    var queue := Remaining(w, random, log, f);
    SuspendedWork(w, f, queue[..|queue| - 1]);
  }

  lemma TwoOnTop(w: World, stack: seq<Frame>, below: seq<Frame>, f: Frame)
    requires StackShape(w, stack) && stack != [] && Below(stack) == below + [f]
    ensures StackShape(w, below) && FrameShape(w, f)
    ensures StackWork(w, stack) == FrameWork(w, Top(stack)) + FrameWork(w, f) + StackWork(w, below)
  {
    assert Top(below + [f]) == f && Below(below + [f]) == below;
  }

  lemma RunEdgeWork(w: World, random: nat -> nat, m: Machine)
    requires m.stack != [] && StackShape(w, m.stack) && Top(m.stack).state == 2
    ensures Remaining(w, random, m.log, Top(m.stack)) != []
    ensures var step := RunEdge(w, random, m);
            !step.Violated? ==> StackShape(w, step.next.stack) && StackWork(w, step.next.stack) < StackWork(w, m.stack)
  {
    RunEdgeRefines(w, random, m);
    var f := Top(m.stack);
    SuspendWork(w, random, m.log, f);
    if !RunEdge(w, random, m).Violated? {
      var next := RunEdge(w, random, m).next;
      var queue := Remaining(w, random, m.log, f);
      var g := Suspend(w, f, queue[..|queue| - 1]);
      assert Below(next.stack) == Below(m.stack) + [g];
      TwoOnTop(w, next.stack, Below(m.stack), g);
    }
  }

  lemma NextChoiceWork(w: World, m: Machine)
    requires m.stack != [] && StackShape(w, m.stack) && Top(m.stack).state == 3
    ensures StackShape(w, NextChoice(m).stack)
    ensures StackWork(w, NextChoice(m).stack) < StackWork(w, m.stack)
  {
    assert Below(NextChoice(m).stack) == Below(m.stack);
  }
}
