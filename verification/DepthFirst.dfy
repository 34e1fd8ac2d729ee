/** The depth-bounded depth-first search, twice: as the recursive memoised search it is
    meant to be, and as the explicit stack of four-state frames that runs it.  The step
    functions of the frame machine are here; the class that runs them is in Search. */
module DepthFirst {
  import opened Common
  import opened Graph
  import opened Choices

  /** The tables a depth-first search reads and writes.  `coverage` maps an exact bounded
      query to whether a depth cut was met below it. */
  datatype Tables = Tables(seen: set<Hash>, covered: set<Hash>, coverage: map<(Hash, int), bool>)

  function Publish(t: Tables, s: Hash, d: int, cut: bool): Tables {
    t.(coverage := t.coverage[(s, d) := cut], covered := if cut then t.covered else t.covered + {s})
  }

  /** The answer the tables already hold for a query, if any. */
  function Cached(t: Tables, s: Hash, d: int): Option<bool> {
    if s in t.covered then Some(false)
    else if (s, d) in t.coverage then Some(t.coverage[(s, d)])
    else None
  }

  // ---- The recursive search -------------------------------------------------------

  datatype Outcome = Outcome(tables: Tables, log: seq<Edge>, violated: bool, cut: bool)

  function Bound(d: int): nat {
    if d <= 0 then 0 else d
  }

  /** Search `s` to depth `d`; `log` records every executed edge in order. */
  function Visit(w: World, random: nat -> nat, t: Tables, log: seq<Edge>, s: Hash, d: int): Outcome
    decreases Bound(d), 3, 0, 0
  {
    var t := t.(seen := t.seen + {s});
    if Cached(t, s, d).Some? then Outcome(t, log, false, Cached(t, s, d).value)
    else if w.failed(s) then Outcome(t, log, true, false)
    else if Enabled(w, s) == [] then Outcome(Publish(t, s, d, false), log, false, false)
    else if d <= 0 then Outcome(Publish(t, s, d, true), log, false, true)
    else VisitActors(w, random, t, log, s, d, 0, false)
  }

  /** Search below the actions of `s` from number `i` on. */
  function VisitActors(w: World, random: nat -> nat, t: Tables, log: seq<Edge>, s: Hash, d: int, i: nat,
                       cut: bool): Outcome
    requires d > 0
    decreases Bound(d), 2, |Enabled(w, s)| - i, 0
  {
    if i >= |Enabled(w, s)| then Outcome(Publish(t, s, d, cut), log, false, cut)
    else
      var card := w.cardinality(s, Enabled(w, s)[i]);
      VisitChoices(w, random, t, log, s, d, i, Queue(card, FirstChoice(card, random(|log|))), cut)
  }

  /** Search below the queued choices of action `i`, then below the later actions. */
  function VisitChoices(w: World, random: nat -> nat, t: Tables, log: seq<Edge>, s: Hash, d: int, i: nat,
                        queue: seq<int>, cut: bool): Outcome
    requires d > 0 && i < |Enabled(w, s)|
    decreases Bound(d), 2, |Enabled(w, s)| - i - 1, |queue| + 1
  {
    if queue == [] then VisitActors(w, random, t, log, s, d, i + 1, cut)
    else
      var e := Edge(s, Enabled(w, s)[i], queue[|queue| - 1]);
      if w.failed(Target(w, e)) then Outcome(t, log + [e], true, false)
      else
        var child := Visit(w, random, t, log + [e], Target(w, e), d - 1);
        if child.violated then child
        else VisitChoices(w, random, child.tables, child.log, s, d, i, queue[..|queue| - 1], cut || child.cut)
  }

  // ---- The frame machine ----------------------------------------------------------

  /** A frame of the explicit stack.  `state` is 0 on entry, 1 before an action, 2 before
      executing a choice and 3 between choices; `snapshot` is the opened saved state. */
  datatype Frame = Frame(
    hash: Hash, depth: int, state: nat, snapshot: Option<Hash>, actors: seq<Actor>,
    pos: nat, choices: seq<int>, cardinality: int, cut: bool)

  datatype Machine = Machine(tables: Tables, log: seq<Edge>, stack: seq<Frame>, limit: bool)

  function NewFrame(s: Hash, d: int): Frame {
    Frame(s, d, 0, None, [], 0, [], -1, false)
  }

  function Top(stack: seq<Frame>): Frame
    requires stack != []
  {
    stack[|stack| - 1]
  }

  function Below(stack: seq<Frame>): seq<Frame>
    requires stack != []
  {
    stack[..|stack| - 1]
  }

  function Merge(stack: seq<Frame>, cut: bool): seq<Frame> {
    if stack == [] then [] else Below(stack) + [Top(stack).(cut := Top(stack).cut || cut)]
  }

  function Advance(f: Frame): Frame {
    f.(pos := f.pos + 1, state := 1)
  }

  /** Pop the finished top frame and hand its result to the frame below. */
  function Finish(m: Machine, cut: bool, publish: bool): Machine
    requires m.stack != []
  {
    var f := Top(m.stack);
    Machine(if publish then Publish(m.tables, f.hash, f.depth, cut) else m.tables,
            m.log, Merge(Below(m.stack), cut), m.limit || cut)
  }

  datatype Step = Entered(next: Machine) | Finished(next: Machine) | Violated(next: Machine)

  /** State 0: answer from the tables, stop at a failing state, or start on the actions. */
  function Enter(w: World, m: Machine): Step
    requires m.stack != []
  {
    var f := Top(m.stack);
    var m := m.(tables := m.tables.(seen := m.tables.seen + {f.hash}));
    match Cached(m.tables, f.hash, f.depth)
    case Some(cut) => Finished(Finish(m, cut, false))
    case None =>
      if w.failed(f.hash) then Violated(m)
      else if Enabled(w, f.hash) == [] then Finished(Finish(m, false, true))
      else if f.depth <= 0 then Finished(Finish(m, true, true))
      else
        var g := f.(snapshot := Some(f.hash), actors := Enabled(w, f.hash), state := 1, pos := 0);
        Entered(m.(stack := Below(m.stack) + [g]))
  }

  /** State 1: finish the frame after its last action, or start on the next one. */
  function BeginActor(m: Machine): Step
    requires m.stack != []
  {
    var f := Top(m.stack);
    if f.pos >= |f.actors| then Finished(Finish(m, f.cut, true))
    else Entered(m.(stack := Below(m.stack) + [f.(choices := [], cardinality := -1, state := 2)]))
  }

  /** The choices a frame in state 2 or 3 has yet to execute. */
  function Remaining(w: World, random: nat -> nat, log: seq<Edge>, f: Frame): seq<int>
    requires f.pos < |f.actors|
  {
    if f.state == 2 && f.cardinality < 0 then
      var card := w.cardinality(f.hash, f.actors[f.pos]);
      Queue(card, FirstChoice(card, random(|log|)))
    else f.choices
  }

  /** A frame that waits for the successor it has just pushed, with `rest` still to do.
      Its snapshot is dropped and reopened when the frame is on top again. */
  function Suspend(w: World, f: Frame, rest: seq<int>): Frame
    requires f.pos < |f.actors|
  {
    var g := f.(choices := rest, cardinality := w.cardinality(f.hash, f.actors[f.pos]), snapshot := None);
    if rest != [] then g.(state := 3) else Advance(g)
  }

  /** State 2: execute one choice and push a frame for its successor. */
  function RunEdge(w: World, random: nat -> nat, m: Machine): Step
    requires m.stack != []
    requires Top(m.stack).pos < |Top(m.stack).actors|
    requires Remaining(w, random, m.log, Top(m.stack)) != []
  {
    var f := Top(m.stack);
    var queue := Remaining(w, random, m.log, f);
    var e := Edge(f.hash, f.actors[f.pos], queue[|queue| - 1]);
    var rest := queue[..|queue| - 1];
    var log := m.log + [e];
    if w.failed(Target(w, e)) then Violated(m.(log := log))
    else
      Entered(m.(log := log, stack := Below(m.stack) + [Suspend(w, f, rest), NewFrame(Target(w, e), f.depth - 1)]))
  }

  /** State 3: the next choice, or the next action. */
  function NextChoice(m: Machine): Machine
    requires m.stack != []
  {
    var f := Top(m.stack);
    m.(stack := Below(m.stack) + [if f.choices == [] then Advance(f) else f.(state := 2)])
  }

  // ---- What every frame satisfies -------------------------------------------------

  /** The fields of a frame are consistent with the state it stands for. */
  predicate FrameShape(w: World, f: Frame) {
    && f.state <= 3
    && (f.snapshot.Some? ==> f.snapshot.value == f.hash)
    && (f.state == 0 ==> f == NewFrame(f.hash, f.depth))
    && (f.state >= 1 ==>
          && !w.failed(f.hash) && f.depth > 0
          && f.actors == Enabled(w, f.hash) && f.pos <= |f.actors|)
    && (f.state >= 2 ==> f.pos < |f.actors|)
    && (f.state == 2 && f.cardinality < 0 ==> f.choices == [])
    && (f.state == 3 || (f.state == 2 && f.cardinality >= 0) ==>
          && f.choices != []
          && f.cardinality == w.cardinality(f.hash, f.actors[f.pos])
          && InRange(f.choices, f.cardinality))
  }

  predicate Suspended(f: Frame) {
    f.state == 1 || f.state == 3
  }

  predicate StackShape(w: World, stack: seq<Frame>) {
    && (forall i :: 0 <= i < |stack| ==> FrameShape(w, stack[i]))
    && (forall i :: 0 <= i < |stack| - 1 ==> Suspended(stack[i]) && stack[i + 1].depth == stack[i].depth - 1)
  }

  // ---- Refinement -----------------------------------------------------------------

  /** What the recursive search does from the point a frame has reached. */
  function FinishFrame(w: World, random: nat -> nat, t: Tables, log: seq<Edge>, f: Frame): Outcome
    requires FrameShape(w, f)
  {
    if f.state == 0 then Visit(w, random, t, log, f.hash, f.depth)
    else if f.state == 1 then VisitActors(w, random, t, log, f.hash, f.depth, f.pos, f.cut)
    else VisitChoices(w, random, t, log, f.hash, f.depth, f.pos, Remaining(w, random, log, f), f.cut)
  }

  /** The final result of the recursive search resumed from a whole stack. */
  function Resume(w: World, random: nat -> nat, m: Machine): Outcome
    requires StackShape(w, m.stack)
    decreases |m.stack|
  {
    if m.stack == [] then Outcome(m.tables, m.log, false, m.limit)
    else
      var r := FinishFrame(w, random, m.tables, m.log, Top(m.stack));
      if r.violated then r
      else
        MergeShape(w, Below(m.stack), r.cut);
        Resume(w, random, Machine(r.tables, r.log, Merge(Below(m.stack), r.cut), m.limit || r.cut))
  }

  /** What a search adds to: the executed edges and the discovered states. */
  predicate Extends(o: Outcome, t: Tables, log: seq<Edge>) {
    log <= o.log && t.seen <= o.tables.seen
  }

  lemma {:induction false} VisitExtends(w: World, random: nat -> nat, t: Tables, log: seq<Edge>, s: Hash, d: int)
    ensures Extends(Visit(w, random, t, log, s, d), t, log)
    decreases Bound(d), 3, 0, 0
  {
    if d > 0 {
      VisitActorsExtends(w, random, t.(seen := t.seen + {s}), log, s, d, 0, false);
    }
  }

  lemma {:induction false} VisitActorsExtends(w: World, random: nat -> nat, t: Tables, log: seq<Edge>, s: Hash, d: int,
                                              i: nat, cut: bool)
    requires d > 0
    ensures Extends(VisitActors(w, random, t, log, s, d, i, cut), t, log)
    decreases Bound(d), 2, |Enabled(w, s)| - i, 0
  {
    if i < |Enabled(w, s)| {
      var card := w.cardinality(s, Enabled(w, s)[i]);
      VisitChoicesExtends(w, random, t, log, s, d, i, Queue(card, FirstChoice(card, random(|log|))), cut);
    }
  }

  lemma {:induction false} VisitChoicesExtends(w: World, random: nat -> nat, t: Tables, log: seq<Edge>, s: Hash, d: int,
                                               i: nat, queue: seq<int>, cut: bool)
    requires d > 0 && i < |Enabled(w, s)|
    ensures Extends(VisitChoices(w, random, t, log, s, d, i, queue, cut), t, log)
    decreases Bound(d), 2, |Enabled(w, s)| - i - 1, |queue| + 1
  {
    if queue == [] {
      VisitActorsExtends(w, random, t, log, s, d, i + 1, cut);
    } else {
      var e := Edge(s, Enabled(w, s)[i], queue[|queue| - 1]);
      if !w.failed(Target(w, e)) {
        VisitExtends(w, random, t, log + [e], Target(w, e), d - 1);
        var child := Visit(w, random, t, log + [e], Target(w, e), d - 1);
        if !child.violated {
          VisitChoicesExtends(w, random, child.tables, child.log, s, d, i, queue[..|queue| - 1], cut || child.cut);
        }
      }
    }
  }

  lemma FrameExtends(w: World, random: nat -> nat, t: Tables, log: seq<Edge>, f: Frame)
    requires FrameShape(w, f)
    ensures Extends(FinishFrame(w, random, t, log, f), t, log)
  {
    if f.state == 0 {
      VisitExtends(w, random, t, log, f.hash, f.depth);
    } else if f.state == 1 {
      VisitActorsExtends(w, random, t, log, f.hash, f.depth, f.pos, f.cut);
    } else {
      VisitChoicesExtends(w, random, t, log, f.hash, f.depth, f.pos, Remaining(w, random, log, f), f.cut);
    }
  }

  /** Whatever is still to come only adds to what a search has done so far. */
  lemma {:induction false} ResumeExtends(w: World, random: nat -> nat, m: Machine)
    requires StackShape(w, m.stack)
    ensures Extends(Resume(w, random, m), m.tables, m.log)
    decreases |m.stack|
  {
    if m.stack != [] {
      FrameExtends(w, random, m.tables, m.log, Top(m.stack));
      var r := FinishFrame(w, random, m.tables, m.log, Top(m.stack));
      if !r.violated {
        MergeShape(w, Below(m.stack), r.cut);
        ResumeExtends(w, random, Machine(r.tables, r.log, Merge(Below(m.stack), r.cut), m.limit || r.cut));
      }
    }
  }

  lemma MergeShape(w: World, stack: seq<Frame>, cut: bool)
    requires StackShape(w, stack)
    requires stack != [] ==> Top(stack).state != 0
    ensures StackShape(w, Merge(stack, cut))
  {
  }

  /** A cut met below a state is never lost. */
  lemma {:induction false} CutIsKept(w: World, random: nat -> nat, t: Tables, log: seq<Edge>, s: Hash, d: int,
                                     i: nat, queue: seq<int>, cut: bool)
    requires d > 0 && i < |Enabled(w, s)|
    ensures var r := VisitChoices(w, random, t, log, s, d, i, queue, cut); cut && !r.violated ==> r.cut
    decreases |Enabled(w, s)| - i, |queue|
  {
    if queue == [] {
      if i + 1 < |Enabled(w, s)| {
        var card := w.cardinality(s, Enabled(w, s)[i + 1]);
        CutIsKept(w, random, t, log, s, d, i + 1, Queue(card, FirstChoice(card, random(|log|))), cut);
      }
    } else {
      var e := Edge(s, Enabled(w, s)[i], queue[|queue| - 1]);
      var child := Visit(w, random, t, log + [e], Target(w, e), d - 1);
      CutIsKept(w, random, child.tables, child.log, s, d, i, queue[..|queue| - 1], cut || child.cut);
    }
  }

  /** Popping a finished frame is one unfolding of the resumed search. */
  lemma FinishRefines(w: World, random: nat -> nat, m: Machine, cut: bool, publish: bool, t: Tables)
    requires m.stack != [] && StackShape(w, m.stack)
    requires FinishFrame(w, random, t, m.log, Top(m.stack)) ==
             Outcome(Finish(m, cut, publish).tables, m.log, false, cut)
    ensures StackShape(w, Finish(m, cut, publish).stack)
    ensures Resume(w, random, m.(tables := t)) == Resume(w, random, Finish(m, cut, publish))
  {
    MergeShape(w, Below(m.stack), cut);
  }

  /** The machine stops at a violation exactly as the recursive search does. */
  predicate SameStop(r: Outcome, m: Machine) {
    r.violated && r.tables == m.tables && r.log == m.log
  }

  /** One step of the machine leaves the result of the recursive search unchanged. */
  predicate StepRefines(w: World, random: nat -> nat, m: Machine, step: Step)
    requires StackShape(w, m.stack)
  {
    if step.Violated? then SameStop(Resume(w, random, m), step.next)
    else StackShape(w, step.next.stack) && Resume(w, random, m) == Resume(w, random, step.next)
  }

  lemma EnterRefines(w: World, random: nat -> nat, m: Machine)
    requires m.stack != [] && StackShape(w, m.stack) && Top(m.stack).state == 0
    ensures StepRefines(w, random, m, Enter(w, m))
  {
    var f := Top(m.stack);
    var m' := m.(tables := m.tables.(seen := m.tables.seen + {f.hash}));
    match Enter(w, m) {
      case Violated(next) =>
      case Finished(next) =>
        var cut, publish :=
          if Cached(m'.tables, f.hash, f.depth).Some? then Cached(m'.tables, f.hash, f.depth).value
          else Enabled(w, f.hash) != [], Cached(m'.tables, f.hash, f.depth).None?;
        FinishRefines(w, random, m', cut, publish, m.tables);
      case Entered(next) =>
        assert Below(next.stack) == Below(m.stack);
    }
  }

  lemma BeginActorRefines(w: World, random: nat -> nat, m: Machine)
    requires m.stack != [] && StackShape(w, m.stack) && Top(m.stack).state == 1
    ensures StepRefines(w, random, m, BeginActor(m))
  {
    var f := Top(m.stack);
    if f.pos >= |f.actors| {
      FinishRefines(w, random, m, f.cut, true, m.tables);
    } else {
      assert Below(BeginActor(m).next.stack) == Below(m.stack);
    }
  }

  lemma RemainingShape(w: World, random: nat -> nat, log: seq<Edge>, f: Frame)
    requires FrameShape(w, f) && f.state == 2
    ensures var queue := Remaining(w, random, log, f);
            && queue != []
            && ValidChoice(w.cardinality(f.hash, f.actors[f.pos]), queue[|queue| - 1])
            && (w.cardinality(f.hash, f.actors[f.pos]) == 0 ==> |queue| == 1)
            && InRange(queue[..|queue| - 1], w.cardinality(f.hash, f.actors[f.pos]))
  {
    var card := w.cardinality(f.hash, f.actors[f.pos]);
    if f.cardinality < 0 {
      var first := FirstChoice(card, random(|log|));
      OthersInRange(card, first);
      assert Queue(card, first)[..|Queue(card, first)| - 1] == Others(card, first);
    }
  }

  lemma SuspendShape(w: World, f: Frame, rest: seq<int>)
    requires FrameShape(w, f) && f.state == 2
    requires InRange(rest, w.cardinality(f.hash, f.actors[f.pos]))
    ensures var g := Suspend(w, f, rest);
            FrameShape(w, g) && Suspended(g) && g.hash == f.hash && g.depth == f.depth && g.cut == f.cut
  {
  }

  /** A frame about to execute a choice: its recursive search is that of the pushed
      successor followed by that of the suspended frame. */
  lemma SuspendRefines(w: World, random: nat -> nat, t: Tables, log: seq<Edge>, f: Frame)
    requires FrameShape(w, f) && f.state == 2
    ensures var queue := Remaining(w, random, log, f);
            && queue != []
            && var e, rest := Edge(f.hash, f.actors[f.pos], queue[|queue| - 1]), queue[..|queue| - 1];
               var r := FinishFrame(w, random, t, log, f);
               && FrameShape(w, Suspend(w, f, rest)) && Suspended(Suspend(w, f, rest))
               && (w.failed(Target(w, e)) ==> r == Outcome(t, log + [e], true, false))
               && (!w.failed(Target(w, e)) ==>
                     var child := Visit(w, random, t, log + [e], Target(w, e), f.depth - 1);
                     if child.violated then r == child
                     else r == FinishFrame(w, random, child.tables, child.log,
                                           Suspend(w, f, rest).(cut := f.cut || child.cut))
                          && (child.cut && !r.violated ==> r.cut))
  {
    RemainingShape(w, random, log, f);
    var queue := Remaining(w, random, log, f);
    var e, rest := Edge(f.hash, f.actors[f.pos], queue[|queue| - 1]), queue[..|queue| - 1];
    if !w.failed(Target(w, e)) {
      var child := Visit(w, random, t, log + [e], Target(w, e), f.depth - 1);
      CutIsKept(w, random, child.tables, child.log, f.hash, f.depth, f.pos, rest, f.cut || child.cut);
      assert !child.violated ==>
          FinishFrame(w, random, t, log, f) ==
          VisitChoices(w, random, child.tables, child.log, f.hash, f.depth, f.pos, rest, f.cut || child.cut);
    }
  }

  lemma ResumeTop(w: World, random: nat -> nat, t: Tables, log: seq<Edge>, base: seq<Frame>, f: Frame, limit: bool)
    requires StackShape(w, base + [f]) && FrameShape(w, f)
    ensures var r := FinishFrame(w, random, t, log, f);
            && StackShape(w, Merge(base, r.cut))
            && Resume(w, random, Machine(t, log, base + [f], limit)) ==
               if r.violated then r
               else Resume(w, random, Machine(r.tables, r.log, Merge(base, r.cut), limit || r.cut))
  {
    assert Below(base + [f]) == base;
    assert forall i :: 0 <= i < |base| ==> (base + [f])[i] == base[i];
    MergeShape(w, base, FinishFrame(w, random, t, log, f).cut);
  }

  /** Splitting the search of `f` into that of a pushed `g` followed by that of `parent`. */
  lemma PushRefines(w: World, random: nat -> nat, t: Tables, log: seq<Edge>, t': Tables, log': seq<Edge>,
                    base: seq<Frame>, f: Frame, parent: Frame, g: Frame, limit: bool)
    requires StackShape(w, base + [f]) && StackShape(w, base + [parent] + [g])
    requires FrameShape(w, f) && FrameShape(w, g) && FrameShape(w, parent) && parent.state != 0
    requires var r, child := FinishFrame(w, random, t, log, f), FinishFrame(w, random, t', log', g);
             if child.violated then r == child
             else r == FinishFrame(w, random, child.tables, child.log, parent.(cut := parent.cut || child.cut))
                  && (child.cut && !r.violated ==> r.cut)
    ensures Resume(w, random, Machine(t, log, base + [f], limit)) ==
            Resume(w, random, Machine(t', log', base + [parent] + [g], limit))
  {
    var child := FinishFrame(w, random, t', log', g);
    ResumeTop(w, random, t, log, base, f, limit);
    ResumeTop(w, random, t', log', base + [parent], g, limit);
    assert Merge(base + [parent], child.cut) == base + [parent.(cut := parent.cut || child.cut)] by {
      assert Below(base + [parent]) == base;
    }
    if !child.violated {
      ResumeTop(w, random, child.tables, child.log, base, parent.(cut := parent.cut || child.cut), limit || child.cut);
    }
  }

  lemma RunEdgeRefines(w: World, random: nat -> nat, m: Machine)
    requires m.stack != [] && StackShape(w, m.stack) && Top(m.stack).state == 2
    ensures Remaining(w, random, m.log, Top(m.stack)) != []
    ensures StepRefines(w, random, m, RunEdge(w, random, m))
  {
    var f := Top(m.stack);
    var base := Below(m.stack);
    assert m.stack == base + [f];
    SuspendRefines(w, random, m.tables, m.log, f);
    ResumeTop(w, random, m.tables, m.log, base, f, m.limit);
    if RunEdge(w, random, m).Entered? {
      var queue := Remaining(w, random, m.log, f);
      var parent := Suspend(w, f, queue[..|queue| - 1]);
      var next := RunEdge(w, random, m).next;
      var child := Top(next.stack);
      assert next.stack == base + [parent] + [child];
      PushShape(w, base, f, parent, child);
      PushRefines(w, random, m.tables, m.log, next.tables, next.log, base, f, parent, child, m.limit);
    }
  }

  lemma PushShape(w: World, base: seq<Frame>, f: Frame, parent: Frame, g: Frame)
    requires StackShape(w, base + [f])
    requires FrameShape(w, parent) && Suspended(parent) && parent.depth == f.depth
    requires FrameShape(w, g) && g.depth == f.depth - 1
    ensures StackShape(w, base + [parent] + [g])
  {
    var was, stack := base + [f], base + [parent] + [g];
    forall i | 0 <= i < |stack| - 1
      ensures Suspended(stack[i]) && stack[i + 1].depth == stack[i].depth - 1
    {
      if i < |base| {
        assert stack[i] == was[i] && stack[i + 1].depth == was[i + 1].depth;
      }
    }
    forall i | 0 <= i < |stack| ensures FrameShape(w, stack[i]) {
      if i < |base| {
        assert stack[i] == was[i];
      }
    }
  }

  lemma NextChoiceRefines(w: World, random: nat -> nat, m: Machine)
    requires m.stack != [] && StackShape(w, m.stack) && Top(m.stack).state == 3
    ensures StackShape(w, NextChoice(m).stack)
    ensures Resume(w, random, m) == Resume(w, random, NextChoice(m))
  {
    assert Below(NextChoice(m).stack) == Below(m.stack);
  }
}
