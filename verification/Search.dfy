/** The search driver: four tables shared by every breadth-first and depth-first run of a
    session, and the loops that update them. */
module Search {
  import opened Common
  import opened Graph
  import opened Choices
  import opened DepthFirst
  import opened DepthFirstSound
  import opened DepthFirstTables
  import opened DepthFirstWork
  import opened BreadthFirst

  /** How control leaves one section of the depth-first loop body. */
  datatype Flow = FallThrough | NextIteration | Stop

  function StepOf(flow: Flow, m: Machine): Step {
    match flow
    case FallThrough => Entered(m)
    case NextIteration => Finished(m)
    case Stop => Violated(m)
  }

  /** The state of a depth-first run that will end as the recursive search `target` does. */
  ghost predicate Running(w: World, random: nat -> nat, q: Query, target: Outcome, m: Machine) {
    MachineSound(w, q, m) && Resume(w, random, m) == target
  }

  /** A step that the recursive search takes too. */
  ghost predicate GoodStep(w: World, random: nat -> nat, q: Query, target: Outcome, step: Step) {
    if step.Violated? then
      SoundTables(w, step.next.tables, step.next.log) && RealViolation(w, q) && SameStop(target, step.next)
    else Running(w, random, q, target, step.next)
  }

  /** The step makes progress by the measure of the whole stack. */
  ghost predicate Shrinks(w: World, m: Machine, step: Step)
    requires StackShape(w, m.stack)
  {
    !step.Violated? ==> StackShape(w, step.next.stack) && StackWork(w, step.next.stack) < StackWork(w, m.stack)
  }

  lemma ShrinksFrom(w: World, m: Machine, m': Machine, step: Step)
    requires StackShape(w, m.stack) && StackShape(w, m'.stack) && StackWork(w, m'.stack) <= StackWork(w, m.stack)
    requires Shrinks(w, m', step)
    ensures Shrinks(w, m, step)
  {
  }

  lemma EnterGood(w: World, random: nat -> nat, q: Query, target: Outcome, m: Machine)
    requires Running(w, random, q, target, m) && m.stack != [] && Top(m.stack).state == 0
    ensures GoodStep(w, random, q, target, Enter(w, m)) && Shrinks(w, m, Enter(w, m))
  {
    EnterSound(w, q, m);
    EnterRefines(w, random, m);
    EnterWork(w, m);
  }

  lemma BeginActorGood(w: World, random: nat -> nat, q: Query, target: Outcome, m: Machine)
    requires Running(w, random, q, target, m) && m.stack != [] && Top(m.stack).state == 1
    ensures GoodStep(w, random, q, target, BeginActor(m))
    ensures var step := BeginActor(m);
            && !step.Violated? && (step.Finished? ==> Shrinks(w, m, step))
            && (step.Entered? ==> step.next.stack != [] && Top(step.next.stack).state == 2
                                  && StackWork(w, step.next.stack) <= StackWork(w, m.stack))
  {
    BeginActorSound(w, q, m);
    BeginActorRefines(w, random, m);
    BeginActorWork(w, m);
  }

  lemma RunEdgeGood(w: World, random: nat -> nat, q: Query, target: Outcome, m: Machine)
    requires Running(w, random, q, target, m) && m.stack != [] && Top(m.stack).state == 2
    ensures Remaining(w, random, m.log, Top(m.stack)) != []
    ensures GoodStep(w, random, q, target, RunEdge(w, random, m)) && Shrinks(w, m, RunEdge(w, random, m))
  {
    RunEdgeSound(w, random, q, m);
    RunEdgeRefines(w, random, m);
    RunEdgeWork(w, random, m);
  }

  lemma NextChoiceGood(w: World, random: nat -> nat, q: Query, target: Outcome, m: Machine)
    requires Running(w, random, q, target, m) && m.stack != [] && Top(m.stack).state == 3
    ensures Running(w, random, q, target, NextChoice(m)) && Shrinks(w, m, Entered(NextChoice(m)))
  {
    NextChoiceSound(w, q, m);
    NextChoiceRefines(w, random, m);
    NextChoiceWork(w, m);
  }

  /** Execute the next choice of a frame on its snapshot, reopened if it was dropped. */
  method TakeNext(w: World, random: nat -> nat, log: seq<Edge>, f: Frame)
    returns (edge: Edge, target: Hash, card: int, rest: seq<int>)
    requires FrameShape(w, f) && f.state == 2
    ensures var pending := Remaining(w, random, log, f);
            && pending != []
            && edge == Edge(f.hash, f.actors[f.pos], pending[|pending| - 1])
            && target == Target(w, edge)
            && card == w.cardinality(f.hash, f.actors[f.pos])
            && rest == pending[..|pending| - 1]
  {
    RemainingShape(w, random, log, f);
    var actor := f.actors[f.pos];
    var source := if f.snapshot.Some? then f.snapshot.value else f.hash;
    var preset, choices := -1, f.choices;
    if f.cardinality >= 0 {
      preset, choices := choices[|choices| - 1], choices[..|choices| - 1];
    }
    var r, choice;
    r, choice, card, rest := SearchActorChoice(w, Depth, random(|log|), source, actor, preset, f.cardinality, choices);
    edge, target := Edge(source, actor, choice), r.value;
  }

  /** No interrupt was received before turn `n`. */
  ghost predicate Quiet(interrupted: nat -> bool, n: nat) {
    forall k: nat :: k < n ==> !interrupted(k)
  }

  lemma QuietStep(interrupted: nat -> bool, n: nat)
    requires Quiet(interrupted, n) && !interrupted(n)
    ensures Quiet(interrupted, n + 1)
  {
  }

  /** After `n` expansions: the first one by whose end the interrupt was received was the last. */
  ghost predicate StopsWhenTold(interrupted: nat -> bool, n: nat, verdict: Verdict) {
    if verdict == Interrupted then n > 0 && interrupted(n - 1) && Quiet(interrupted, n - 1) else Quiet(interrupted, n)
  }

  datatype Verdict = Complete | DepthLimit | Incomplete | IllegalState | Interrupted

  class Driver {
    const w: World
    const random: nat -> nat
    var seen: set<Hash>                     // state_set
    var ledger: Ledger                      // expanded_remaining
    var covered: set<Hash>                  // fully_covered
    var coverage: map<(Hash, int), bool>    // dfs_coverage
    var queue: seq<Hash>                    // the state queue
    var log: seq<Edge>                      // every transition executed so far

    ghost function TablesNow(): Tables
      reads this
    {
      Tables(seen, covered, coverage)
    }

    ghost function MachineNow(stack: seq<Frame>, limit: bool): Machine
      reads this
    {
      Machine(TablesNow(), log, stack, limit)
    }

    /** What every run keeps, however it ends. */
    ghost predicate Valid()
      reads this
    {
      SoundTables(w, TablesNow(), log) && LedgerSound(w, ledger, seen, log) && Honest(w, ledger)
    }

    constructor (w: World, random: nat -> nat)
      ensures Valid() && this.w == w && this.random == random
      ensures seen == {} && ledger == map[] && covered == {} && coverage == map[] && log == []
    {
      this.w, this.random := w, random;
      seen, ledger, covered, coverage, queue, log := {}, map[], {}, map[], [], [];
    }

    method ClearSearchBookkeeping()
      modifies this`seen, this`ledger, this`covered, this`coverage
      ensures seen == {} && ledger == map[] && covered == {} && coverage == map[]
      ensures Valid()
    {
      seen, ledger, covered, coverage := {}, map[], {}, map[];
    }

    // ---- Depth-first ----------------------------------------------------------------

    method FinishFrame(stack: seq<Frame>, limit: bool, cut: bool, publish: bool)
      returns (stack': seq<Frame>, limit': bool)
      requires stack != []
      modifies this`covered, this`coverage
      ensures MachineNow(stack', limit') == Finish(old(MachineNow(stack, limit)), cut, publish)
    {
      var f := Top(stack);
      if publish {
        coverage := coverage[(f.hash, f.depth) := cut];
        if !cut {
          covered := covered + {f.hash};
        }
      }
      stack' := Below(stack);
      if stack' != [] {
        var parent := Top(stack');
        stack' := Below(stack') + [parent.(cut := parent.cut || cut)];
      }
      limit' := limit || cut;
    }

    method EnterFrame(stack: seq<Frame>, limit: bool) returns (flow: Flow, stack': seq<Frame>, limit': bool)
      requires stack != []
      modifies this`seen, this`covered, this`coverage
      ensures StepOf(flow, MachineNow(stack', limit')) == Enter(w, old(MachineNow(stack, limit)))
      ensures old(seen) <= seen
    {
      flow, stack', limit' := NextIteration, stack, limit;
      var f := Top(stack);
      seen := seen + {f.hash};
      if f.hash in covered {
        stack', limit' := FinishFrame(stack, limit, false, false);
      } else if (f.hash, f.depth) in coverage {
        stack', limit' := FinishFrame(stack, limit, coverage[(f.hash, f.depth)], false);
      } else if w.failed(f.hash) {
        flow := Stop;
      } else {
        var actors := Enabled(w, f.hash);
        if actors == [] {
          stack', limit' := FinishFrame(stack, limit, false, true);
        } else if f.depth <= 0 {
          stack', limit' := FinishFrame(stack, limit, true, true);
        } else {
          flow := FallThrough;
          stack' := Below(stack) + [f.(snapshot := Some(f.hash), actors := actors, state := 1, pos := 0)];
        }
      }
    }

    method StartActor(stack: seq<Frame>, limit: bool) returns (flow: Flow, stack': seq<Frame>, limit': bool)
      requires stack != []
      modifies this`covered, this`coverage
      ensures StepOf(flow, MachineNow(stack', limit')) == BeginActor(old(MachineNow(stack, limit)))
    {
      var f := Top(stack);
      if f.pos >= |f.actors| {
        flow := NextIteration;
        stack', limit' := FinishFrame(stack, limit, f.cut, true);
      } else {
        flow, limit' := FallThrough, limit;
        stack' := Below(stack) + [f.(choices := [], cardinality := -1, state := 2)];
      }
    }

    /** Execute the next choice of the top frame and push a frame for its successor. */
    method RunChoice(stack: seq<Frame>, limit: bool) returns (flow: Flow, stack': seq<Frame>, limit': bool)
      requires stack != [] && FrameShape(w, Top(stack)) && Top(stack).state == 2
      modifies this`log
      ensures Remaining(w, random, old(log), Top(stack)) != []
      ensures StepOf(flow, MachineNow(stack', limit')) == RunEdge(w, random, old(MachineNow(stack, limit)))
      ensures old(log) <= log && |log| <= |old(log)| + 1
    {
      flow, stack', limit' := Stop, stack, limit;
      var f := Top(stack);
      var edge, target, card, rest := TakeNext(w, random, log, f);
      log := log + [edge];
      if !w.failed(target) {
        flow := FallThrough;
        f := f.(choices := rest, cardinality := card, snapshot := None);
        f := if rest != [] then f.(state := 3) else Advance(f);
        stack' := Below(stack) + [f, NewFrame(target, f.depth - 1)];
      }
    }

    /** The end of the loop body: a frame in state 2 or 3. */
    method RunOrRest(stack: seq<Frame>, limit: bool, ghost q: Query, ghost target: Outcome)
      returns (flow: Flow, stack': seq<Frame>, limit': bool)
      requires stack != [] && Running(w, random, q, target, MachineNow(stack, limit))
      requires Top(stack).state >= 2
      modifies this`log
      ensures GoodStep(w, random, q, target, StepOf(flow, MachineNow(stack', limit')))
      ensures Shrinks(w, old(MachineNow(stack, limit)), StepOf(flow, MachineNow(stack', limit')))
      ensures old(log) <= log && |log| <= |old(log)| + 1
    {
      if Top(stack).state == 2 {
        RunEdgeGood(w, random, q, target, MachineNow(stack, limit));
        flow, stack', limit' := RunChoice(stack, limit);
      } else {
        NextChoiceGood(w, random, q, target, MachineNow(stack, limit));
        var f := Top(stack);
        flow, limit' := FallThrough, limit;
        stack' := Below(stack) + [if f.choices == [] then Advance(f) else f.(state := 2)];
      }
    }

    /** State 1, and state 2 if the frame has an action left. */
    method StartOrFinish(stack: seq<Frame>, limit: bool, ghost q: Query, ghost target: Outcome)
      returns (flow: Flow, stack': seq<Frame>, limit': bool)
      requires stack != [] && Running(w, random, q, target, MachineNow(stack, limit))
      requires Top(stack).state == 1
      modifies this`covered, this`coverage, this`log
      ensures GoodStep(w, random, q, target, StepOf(flow, MachineNow(stack', limit')))
      ensures Shrinks(w, old(MachineNow(stack, limit)), StepOf(flow, MachineNow(stack', limit')))
      ensures old(log) <= log && |log| <= |old(log)| + 1
    {
      ghost var m := MachineNow(stack, limit);
      BeginActorGood(w, random, q, target, m);
      flow, stack', limit' := StartActor(stack, limit);
      if flow == FallThrough {
        ghost var m' := MachineNow(stack', limit');
        flow, stack', limit' := RunOrRest(stack', limit', q, target);
        ShrinksFrom(w, m, m', StepOf(flow, MachineNow(stack', limit')));
      }
    }

    /** The loop body for a frame that has been entered before. */
    method Continue(stack: seq<Frame>, limit: bool, ghost q: Query, ghost target: Outcome)
      returns (flow: Flow, stack': seq<Frame>, limit': bool)
      requires stack != [] && Running(w, random, q, target, MachineNow(stack, limit))
      requires Top(stack).state >= 1
      modifies this`covered, this`coverage, this`log
      ensures GoodStep(w, random, q, target, StepOf(flow, MachineNow(stack', limit')))
      ensures Shrinks(w, old(MachineNow(stack, limit)), StepOf(flow, MachineNow(stack', limit')))
      ensures old(log) <= log && |log| <= |old(log)| + 1
    {
      if Top(stack).state == 1 {
        flow, stack', limit' := StartOrFinish(stack, limit, q, target);
      } else {
        flow, stack', limit' := RunOrRest(stack, limit, q, target);
      }
    }

    /** One iteration of the loop: the sections of the body the top frame passes through. */
    method Iterate(stack: seq<Frame>, limit: bool, ghost q: Query, ghost target: Outcome)
      returns (flow: Flow, stack': seq<Frame>, limit': bool)
      requires stack != [] && Running(w, random, q, target, MachineNow(stack, limit))
      modifies this`seen, this`covered, this`coverage, this`log
      ensures GoodStep(w, random, q, target, StepOf(flow, MachineNow(stack', limit')))
      ensures Shrinks(w, old(MachineNow(stack, limit)), StepOf(flow, MachineNow(stack', limit')))
      ensures old(seen) <= seen && old(log) <= log && |log| <= |old(log)| + 1
    {
      flow, stack', limit' := FallThrough, stack, limit;
      if Top(stack).state == 0 {
        EnterGood(w, random, q, target, MachineNow(stack, limit));
        flow, stack', limit' := EnterFrame(stack, limit);
      }
      if flow == FallThrough {
        flow, stack', limit' := Continue(stack', limit', q, target);
      }
    }

    /** Run the explicit stack for `root` to depth `depth`.  `interrupted` says whether the
        interrupt signal has been received by the start of a turn of the loop; the first such
        turn is the last. */
    method RunStack(root: Hash, depth: int, interrupted: nat -> bool) returns (verdict: Verdict, ghost turns: nat)
      requires Valid()
      modifies this`seen, this`covered, this`coverage, this`log
      ensures Valid() && old(seen) <= seen && old(log) <= log
      ensures verdict == IllegalState ==> RealViolation(w, Query(root, depth))
      ensures verdict == Complete || verdict == DepthLimit ==>
                EntrySound(w, TablesNow(), root, depth, verdict == DepthLimit)
      ensures verdict == Complete || verdict == DepthLimit || verdict == IllegalState || verdict == Interrupted
      ensures var r := Visit(w, random, old(TablesNow()), old(log), root, depth);
              && (verdict != Interrupted ==>
                   r.tables == TablesNow() && r.log == log && r.violated == (verdict == IllegalState))
              && (verdict == Complete || verdict == DepthLimit ==> r.cut == (verdict == DepthLimit))
              && log <= r.log && seen <= r.tables.seen
      ensures |log| <= |old(log)| + turns && Quiet(interrupted, turns)
      ensures if verdict == Interrupted then interrupted(turns) else turns > 0
    {
      ghost var q := Query(root, depth);
      ghost var target := Visit(w, random, TablesNow(), log, root, depth);
      var stack, limit := [NewFrame(root, depth)], false;
      StartGood(w, random, q, TablesNow(), log);
      var k := 0;
      while stack != []
        invariant Running(w, random, q, target, MachineNow(stack, limit))
        invariant old(seen) <= seen && old(log) <= log
        invariant |log| <= |old(log)| + k && Quiet(interrupted, k) && (k > 0 || stack != [])
        decreases StackWork(w, stack)
      {
        if interrupted(k) {
          verdict, turns := Interrupted, k;
          ResumeExtends(w, random, MachineNow(stack, limit));
          LedgerGrows(w, ledger, old(seen), old(log), seen, log);
          return;
        }
        QuietStep(interrupted, k);
        k := k + 1;
        var flow;
        flow, stack, limit := Iterate(stack, limit, q, target);
        if flow == Stop {
          verdict, turns := IllegalState, k;
          LedgerGrows(w, ledger, old(seen), old(log), seen, log);
          return;
        }
      }
      LedgerGrows(w, ledger, old(seen), old(log), seen, log);
      verdict, turns := if limit then DepthLimit else Complete, k;
    }

    /** Search `root` to depth `depth`.  An uninterrupted run executes exactly the edges of the
        recursive search and ends with its tables and its result, which `Searched` describes
        without it; an interrupted one has executed the first of them. */
    method DoDfs(root: Hash, depth: int, interrupted: nat -> bool) returns (verdict: Verdict, ghost turns: nat)
      requires Valid()
      modifies this`seen, this`covered, this`coverage, this`log
      ensures Valid() && old(seen) <= seen && old(log) <= log
      ensures verdict == IllegalState ==> RealViolation(w, Query(root, depth))
      ensures verdict == Complete || verdict == DepthLimit ==>
                EntrySound(w, TablesNow(), root, depth, verdict == DepthLimit)
      ensures verdict == Complete || verdict == DepthLimit || verdict == IllegalState || verdict == Interrupted
      ensures verdict != Interrupted ==>
                && seen == old(seen) + {root}
                           + (set e | e in log[|old(log)|..] && !w.failed(Target(w, e)) :: Target(w, e))
                && Searched(w, root, depth, old(TablesNow()), old(log), TablesNow(), log, verdict == IllegalState)
      ensures verdict != Interrupted && (root in old(covered) || (root, depth) in old(coverage)) ==>
                && log == old(log) && covered == old(covered) && coverage == old(coverage)
                && verdict == if root in old(covered) || !old(coverage)[(root, depth)] then Complete else DepthLimit
      ensures var r := Visit(w, random, old(TablesNow()), old(log), root, depth);
              && (verdict != Interrupted ==>
                   r.tables == TablesNow() && r.log == log && r.violated == (verdict == IllegalState))
              && log <= r.log && seen <= r.tables.seen
      ensures |log| <= |old(log)| + turns && Quiet(interrupted, turns)
      ensures if verdict == Interrupted then interrupted(turns) else turns > 0
    {
      ghost var t, edges := TablesNow(), log;
      verdict, turns := RunStack(root, depth, interrupted);
      VisitSearches(w, random, t, edges, root, depth);
    }

    // ---- Breadth-first --------------------------------------------------------------

    ghost function WaveNow(queued: set<Hash>): Wave
      reads this
    {
      Wave(seen, queue, queued, log)
    }

    /** Note an executed edge that did not violate, and queue its target if need be. */
    method NoteEdge(edge: Edge, target: Hash, queued: set<Hash>) returns (queued': set<Hash>)
      requires target == Target(w, edge)
      modifies this`seen, this`queue, this`log
      ensures WaveNow(queued') == Discover(w, ledger, old(WaveNow(queued)), edge)
    {
      queued' := queued;
      log := log + [edge];
      if target !in seen {
        seen := seen + {target};
      }
      if Budget(ledger, target) != UNBOUNDED && target !in queued {
        queued' := queued + {target};
        queue := queue + [target];
      }
      assert seen == old(seen) + {target};
    }

    /** Execute every choice of one action of `s`, stopping at the first violation. */
    method ExpandActor(s: Hash, actor: Actor, queued: set<Hash>)
      returns (violated: bool, queued': set<Hash>, ghost delivered: seq<Edge>)
      requires actor in Enabled(w, s)
      modifies this`seen, this`queue, this`log
      ensures DeliveredUpToViolation(w, ActorOrder(w, s, actor), delivered, violated)
      ensures WaveNow(queued') == Settle(w, ledger, old(WaveNow(queued)), delivered, violated)
    {
      queued', delivered := queued, [];
      var cardinality := -1;
      var choices: seq<int> := [];
      var more := true;
      ghost var card := w.cardinality(s, actor);
      ghost var pending := Pending(card, cardinality, choices);
      ghost var order := PopOrder(s, actor, pending);
      while more
        invariant ChoiceState(card, cardinality, choices)
        invariant pending == Pending(card, cardinality, choices)
        invariant more == (pending != [])
        invariant NoneFails(w, delivered)
        invariant order == delivered + PopOrder(s, actor, pending)
        invariant WaveNow(queued') == DiscoverAll(w, ledger, old(WaveNow(queued)), delivered)
        decreases |pending|
      {
        AdvancePop(order, delivered, s, actor, pending);
        var edge, target, card', rest := TakeChoice(w, s, actor, cardinality, choices);
        SettleAppend(w, ledger, old(WaveNow(queued)), delivered, [edge], w.failed(target));
        if w.failed(target) {
          log := log + [edge];
          StopsAtViolation(w, order, delivered, [edge], [edge], PopOrder(s, actor, rest));
          delivered := delivered + [edge];
          return true, queued', delivered;
        }
        queued' := NoteEdge(edge, target, queued');
        delivered, cardinality, choices, pending := delivered + [edge], card', rest, rest;
        more := choices != [];
      }
      violated := false;
    }

    /** Execute every edge of `s`, stopping at the first violation. */
    method ExpandState(s: Hash, queued: set<Hash>)
      returns (violated: bool, queued': set<Hash>, ghost delivered: seq<Edge>)
      modifies this`seen, this`queue, this`log
      ensures DeliveredUpToViolation(w, EdgesOf(w, s), delivered, violated)
      ensures WaveNow(queued') == Settle(w, ledger, old(WaveNow(queued)), delivered, violated)
    {
      queued', delivered := queued, [];
      var actions := Enabled(w, s);
      ghost var order := EdgesOf(w, s);
      for i := 0 to |actions|
        invariant NoneFails(w, delivered)
        invariant order == delivered + EdgeOrder(w, s, actions[i..])
        invariant WaveNow(queued') == DiscoverAll(w, ledger, old(WaveNow(queued)), delivered)
      {
        AdvanceActor(w, order, delivered, s, actions[i..]);
        assert actions[i..][1..] == actions[i + 1..];
        ghost var part;
        violated, queued', part := ExpandActor(s, actions[i], queued');
        SettleAppend(w, ledger, old(WaveNow(queued)), delivered, part, violated);
        if violated {
          StopsAtViolation(w, order, delivered, ActorOrder(w, s, actions[i]), part, EdgeOrder(w, s, actions[i + 1..]));
          delivered := delivered + part;
          return;
        }
        delivered := delivered + part;
      }
      violated := false;
    }

    method AllDiscoveredFullyExpanded() returns (all: bool)
      ensures all <==> forall s :: s in seen ==> FullyExpanded(ledger, s)
    {
      var rest := seen;
      while rest != {}
        invariant rest <= seen
        invariant forall s :: s in seen && s !in rest ==> FullyExpanded(ledger, s)
        decreases rest
      {
        var s :| s in rest;
        if Budget(ledger, s) != UNBOUNDED {
          return false;
        }
        rest := rest - {s};
      }
      all := true;
    }

    /** Pop the head of the queue, which is not expanded yet, and expand it. */
    method ExpandHead(queued: set<Hash>, ghost from: Start, ghost level: map<Hash, nat>, ghost order: seq<Hash>)
      returns (violated: bool, queued': set<Hash>, ghost level': map<Hash, nat>)
      requires RunSound(w, from, ledger, WaveNow(queued), level, order)
      requires queue != [] && !FullyExpanded(ledger, queue[0])
      modifies this`seen, this`queue, this`log, this`ledger
      ensures old(seen) <= seen && old(log) <= log
      ensures violated ==>
                && ledger == old(ledger) && ViolationFound(w, from, order, log)
                && Finds(w, from.log, from.seen + {from.root}, log, seen)
      ensures !violated ==>
                && RunSound(w, from, ledger, WaveNow(queued'), level', order + [old(queue)[0]])
                && (|| Unqueued(WaveNow(queued')) < Unqueued(old(WaveNow(queued)))
                    || (Unqueued(WaveNow(queued')) == Unqueued(old(WaveNow(queued))) && |queue| < |old(queue)|))
    {
      ghost var v := WaveNow(queued);
      level' := level;
      var s := queue[0];
      queue := queue[1..];
      if w.failed(s) {
        RunViolatesAtHead(w, from, ledger, v, level, order);
        return true, queued, level;
      }
      ghost var delivered;
      violated, queued', delivered := ExpandState(s, queued);
      SettleLog(w, ledger, v.(queue := v.queue[1..]), delivered, violated);
      if violated {
        ghost var e := delivered[|delivered| - 1];
        assert IsEdge(w, e) && e.source == s by {
          assert e == EdgesOf(w, s)[|delivered| - 1];
          EdgesOfComplete(w, s);
        }
        SettleFinds(w, ledger, v.(queue := v.queue[1..]), EdgesOf(w, s), delivered, violated);
        FindsTrans(w, from.log, from.seen + {from.root}, v.log, v.seen, log, seen);
        RunViolates(w, from, ledger, v, level, order, e, log);
      } else {
        RunExpands(w, from, ledger, v, level, order);
        ExpandMeasure(w, ledger, v);
        level' := Deepen(v, WaveNow(queued'), level, s);
        ledger := Record(ledger, s, UNBOUNDED);
      }
    }

    method BeginRun(root: Hash) returns (queued: set<Hash>, ghost level: map<Hash, nat>, ghost order: seq<Hash>)
      requires Valid()
      modifies this`seen, this`queue
      ensures RunSound(w, Start(root, ledger, old(seen), log), ledger, WaveNow(queued), level, order) && order == []
    {
      order, level, queued := [], map[root := 0], {root};
      RunStarts(w, Start(root, ledger, seen, log));
      queue := [root];
      seen := seen + {root};
    }

    /** One iteration: drop the head of the queue if it is expanded already, or expand it. */
    method Pump(queued: set<Hash>, ghost from: Start, ghost level: map<Hash, nat>, ghost order: seq<Hash>)
      returns (violated: bool, expanded: bool, queued': set<Hash>, ghost level': map<Hash, nat>,
               ghost order': seq<Hash>)
      requires RunSound(w, from, ledger, WaveNow(queued), level, order) && queue != []
      modifies this`seen, this`queue, this`log, this`ledger
      ensures |order'| == |order| + if expanded && !violated then 1 else 0
      ensures violated ==>
                && order' == order && LedgerIs(ledger, from.ledger, order)
                && ViolationFound(w, from, order, log) && LedgerSound(w, ledger, seen, log)
                && from.log + Expansions(w, order) <= log
                && Finds(w, from.log, from.seen + {from.root}, log, seen)
      ensures !violated ==>
                && RunSound(w, from, ledger, WaveNow(queued'), level', order')
                && (|| Unqueued(WaveNow(queued')) < Unqueued(old(WaveNow(queued)))
                    || (Unqueued(WaveNow(queued')) == Unqueued(old(WaveNow(queued))) && |queue| < |old(queue)|))
    {
      ghost var v := WaveNow(queued);
      if Budget(ledger, queue[0]) == UNBOUNDED {
        violated, expanded, queued', level', order' := false, false, queued, level, order;
        RunSkips(w, from, ledger, v, level, order);
        queue := queue[1..];
      } else {
        expanded, order' := true, order;
        violated, queued', level' := ExpandHead(queued, from, level, order);
        if violated {
          LedgerGrows(w, ledger, v.seen, v.log, seen, log);
        } else {
          order' := order + [v.queue[0]];
        }
      }
    }

    /** Drain the queue from `root`, one whole expansion after another.  `order` lists the
        states expanded by this run.  `interrupted` says whether the interrupt signal has been
        received by the end of an expansion; the first such expansion is the last. */
    method DrainQueue(root: Hash, interrupted: nat -> bool) returns (verdict: Verdict, ghost order: seq<Hash>)
      requires Valid()
      modifies this`seen, this`queue, this`log, this`ledger
      ensures verdict != Interrupted ==>
                LedgerSound(w, ledger, seen, log) && Finds(w, old(log), old(seen) + {root}, log, seen)
      ensures verdict == IllegalState || verdict == Interrupted || verdict == Complete
      ensures verdict == IllegalState ==>
                && ViolationFound(w, Start(root, old(ledger), old(seen), old(log)), order, log)
                && LedgerIs(ledger, old(ledger), order) && old(log) + Expansions(w, order) <= log
      ensures verdict == Interrupted ==> log == old(log) + Expansions(w, order)
      ensures StopsWhenTold(interrupted, |order|, verdict)
      ensures verdict == Complete ==>
                && FullyExpanded(ledger, root) && !FreshViolation(w, old(ledger), root)
                && (LedgerClosed(w, old(ledger)) ==> LedgerClosed(w, ledger))
                && Progress(w, root, old(ledger), old(seen), old(log), ledger, Wave(seen, [], {}, log), order)
                && forall s :: s in seen ==> s in old(seen) || FullyExpanded(ledger, s)
    {
      ghost var from := Start(root, ledger, seen, log);
      var queued;
      ghost var level;
      queued, level, order := BeginRun(root);
      var k := 0;
      while queue != []
        invariant RunSound(w, from, ledger, WaveNow(queued), level, order)
        invariant k == |order| && Quiet(interrupted, k)
        decreases Unqueued(WaveNow(queued)), |queue|
      {
        var violated, expanded;
        violated, expanded, queued, level, order := Pump(queued, from, level, order);
        if violated {
          return IllegalState, order;
        }
        if expanded {
          if interrupted(k) {
            return Interrupted, order;
          }
          QuietStep(interrupted, k);
          k := k + 1;
        }
      }
      RunEnds(w, from, ledger, WaveNow(queued), level, order);
      verdict := Complete;
    }

    /** Drain the queue and account for the ledger it leaves. */
    method RunQueue(root: Hash, interrupted: nat -> bool) returns (verdict: Verdict, ghost order: seq<Hash>)
      requires Valid()
      modifies this`seen, this`queue, this`log, this`ledger
      ensures verdict == IllegalState || verdict == Interrupted || verdict == Complete
      ensures verdict != Interrupted ==>
                Valid() && root in seen && Finds(w, old(log), old(seen) + {root}, log, seen)
      ensures StopsWhenTold(interrupted, |order|, verdict)
      ensures verdict == Interrupted ==> log == old(log) + Expansions(w, order)
      ensures verdict == IllegalState ==>
                && Stopped(w, Start(root, old(ledger), old(seen), old(log)), ledger, seen, order, log)
                && ViolationWithin(w, root, None) && FreshViolation(w, old(ledger), root)
      ensures verdict == Complete ==>
                && Ended(w, Start(root, old(ledger), old(seen), old(log)), ledger, seen, order, log)
                && !FreshViolation(w, old(ledger), root)
                && forall s :: s in seen ==> s in old(seen) || FullyExpanded(ledger, s)
    {
      ghost var from, tables := Start(root, ledger, seen, log), TablesNow();
      verdict, order := DrainQueue(root, interrupted);
      if verdict != Interrupted {
        TablesGrow(w, tables, from.log, seen, log);
        assert TablesNow() == tables.(seen := seen);
        if verdict == IllegalState {
          StopKeepsHonest(w, from, ledger, seen, order, log);
        } else {
          EndKeepsHonest(w, from, ledger, seen, order, log);
        }
        assert Valid();
      }
    }

    /** The verdict of a run whose queue is empty, and what it adds to the covered states. */
    method Conclude(root: Hash) returns (verdict: Verdict)
      requires Valid() && root in seen
      modifies this`covered
      ensures Valid() && (verdict == Complete || verdict == Incomplete)
      ensures verdict == Complete <==> forall s :: s in seen ==> FullyExpanded(ledger, s)
      ensures verdict == Complete ==> CleanClosed(w, seen) && covered == seen && AllClean(w, root)
      ensures verdict == Complete ==> forall t: Hash :: Reachable(w, root, t) ==> t in seen
      ensures verdict == Incomplete ==> covered == old(covered)
    {
      verdict := Incomplete;
      var all := AllDiscoveredFullyExpanded();
      if all {
        verdict := Complete;
        AllExpandedIsClosed(w, ledger, seen, log);
        CoverAll(w, TablesNow(), log);
        covered := covered + seen;
        ReachableIsSeen(w, root, seen);
      }
    }

    /** Breadth-first search from `root`.  It ends for every world, since there are finitely
        many hashes.  Left alone, it stops at a violation exactly when one can be reached
        without going on from a state that an earlier run expanded, and the one it stops at
        is a nearest of those; with nothing expanded before, a nearest of all. */
    method ExecBfs(root: Hash, interrupted: nat -> bool) returns (verdict: Verdict, ghost order: seq<Hash>)
      requires Valid()
      modifies this
      ensures Valid()
      ensures VerdictTrue(w, Bfs(root, interrupted), verdict)
      ensures verdict == IllegalState ==>
                Stopped(w, Start(root, old(ledger), old(seen), old(log)), ledger, seen, order, log)
      ensures verdict != Interrupted ==> (verdict == IllegalState <==> FreshViolation(w, old(ledger), root))
      ensures verdict != Interrupted && LedgerClosed(w, old(ledger)) ==>
                (verdict == IllegalState <==> ViolationWithin(w, root, None))
      ensures verdict == Complete || verdict == Incomplete ==>
                && Ended(w, Start(root, old(ledger), old(seen), old(log)), ledger, seen, order, log)
                && (verdict == Complete <==> forall s :: s in seen ==> FullyExpanded(ledger, s))
      ensures verdict == Complete ==> root in seen && CleanClosed(w, seen) && covered == seen
      ensures old(seen) == {} && NoneExpanded(old(ledger)) ==>
                && verdict != Incomplete
                && (verdict == Complete ==> forall t: Hash :: t in seen <==> Reachable(w, root, t))
      ensures verdict == Interrupted ==>
                && seen == {} && ledger == map[] && covered == {} && coverage == map[]
                && log == old(log) + Expansions(w, order)
      ensures verdict != Interrupted ==>
                seen == old(seen) + {root}
                        + (set e | e in log[|old(log)|..] && !w.failed(Target(w, e)) :: Target(w, e))
      ensures StopsWhenTold(interrupted, |order|, verdict)
    {
      if LedgerClosed(w, ledger) {
        ClosedLedgerFindsViolations(w, ledger, seen, log, root);
      }
      verdict, order := RunQueue(root, interrupted);
      if verdict == Interrupted {
        ClearSearchBookkeeping();
      } else if verdict == Complete {
        verdict := Conclude(root);
      }
    }

    /** Depth-first search from `root` to `depth`. */
    method ExecDfs(root: Hash, depth: int, interrupted: nat -> bool) returns (verdict: Verdict)
      requires Valid()
      modifies this
      ensures Valid() && ledger == old(ledger) && old(seen) <= seen
      ensures VerdictTrue(w, Dfs(root, depth, interrupted), verdict)
      ensures verdict == Complete ==> root in covered
    {
      queue := [];
      ghost var turns;
      verdict, turns := DoDfs(root, depth, interrupted);
      if verdict == Complete {
        ReachableIsSeen(w, root, covered);
      }
    }

    method Execute(c: Command) returns (verdict: Verdict)
      requires Valid()
      modifies this
      ensures Valid() && VerdictTrue(w, c, verdict)
    {
      match c {
        case Bfs(root, interrupted) =>
          ghost var order;
          verdict, order := ExecBfs(root, interrupted);
        case Dfs(root, depth, interrupted) =>
          verdict := ExecDfs(root, depth, interrupted);
      }
    }

    /** Any sequence of searches: every verdict of the session is true, and breadth-first runs
        can be relied on from then on if and only if the ledger it leaves is closed. */
    method Session(commands: seq<Command>) returns (verdicts: seq<Verdict>)
      requires Valid()
      modifies this
      ensures Valid() && |verdicts| == |commands|
      ensures forall i :: 0 <= i < |commands| ==> VerdictTrue(w, commands[i], verdicts[i])
      ensures Reliable(w, ledger) <==> LedgerClosed(w, ledger)
    {
      verdicts := [];
      for i := 0 to |commands|
        invariant Valid() && |verdicts| == i
        invariant forall j :: 0 <= j < i ==> VerdictTrue(w, commands[j], verdicts[j])
      {
        var verdict := Execute(commands[i]);
        verdicts := verdicts + [verdict];
      }
      ReliableIffClosed(w, ledger, seen, log);
    }
  }

  lemma StartGood(w: World, random: nat -> nat, q: Query, t: Tables, log: seq<Edge>)
    requires SoundTables(w, t, log)
    ensures Running(w, random, q, Visit(w, random, t, log, q.root, q.depth),
                    Machine(t, log, [NewFrame(q.root, q.depth)], false))
  {
    var f := NewFrame(q.root, q.depth);
    var m := Machine(t, log, [f], false);
    assert Below(m.stack) == [];
    assert OnPath(w, q, f) by { assert ReachIn(w, q.root, 0, q.root); }
    assert StackShape(w, m.stack);
    var r := Visit(w, random, t, log, q.root, q.depth);
    assert FinishFrame(w, random, t, log, f) == r;
    assert Merge([], r.cut) == [];
    assert StackSound(w, q, t, log, m.stack, None);
    assert AnyCut(m.stack) <==> f.cut || AnyCut([]);
    assert RootSound(w, q, m);
    assert Resume(w, random, m) == r;
  }

  lemma TablesGrow(w: World, t: Tables, log: seq<Edge>, seen: set<Hash>, log': seq<Edge>)
    requires SoundTables(w, t, log) && t.seen <= seen && log <= log'
    ensures SoundTables(w, t.(seen := seen), log')
  {
    var t' := t.(seen := seen);
    assert forall e :: e in log ==> e in log';
    forall s, d | (s, d) in t'.coverage ensures EntrySound(w, t', s, d, t'.coverage[(s, d)]) {
      assert (s, d) in t.coverage;
    }
  }

  /** A closed, clean and executed set of discovered states may be declared covered. */
  lemma CoverAll(w: World, t: Tables, log: seq<Edge>)
    requires SoundTables(w, t, log) && CleanClosed(w, t.seen)
    requires forall e: Edge :: e.source in t.seen && IsEdge(w, e) ==> e in log
    ensures SoundTables(w, t.(covered := t.covered + t.seen), log)
  {
    var t' := t.(covered := t.covered + t.seen);
    assert t'.covered == t.seen;
    forall s, d | (s, d) in t'.coverage ensures EntrySound(w, t', s, d, t'.coverage[(s, d)]) {
      assert (s, d) in t.coverage;
    }
  }

  lemma ReachableIsSeen(w: World, root: Hash, states: set<Hash>)
    requires CleanClosed(w, states) && root in states
    ensures AllClean(w, root)
    ensures forall t: Hash :: Reachable(w, root, t) ==> t in states
  {
    forall k: nat, t: Hash | ReachIn(w, root, k, t) ensures t in states && !w.failed(t) {
      ClosureContainsReach(w, states, root, k, t);
    }
  }

  lemma FoundIsReal(w: World, from: Start, order: seq<Hash>, log: seq<Edge>)
    requires ViolationFound(w, from, order, log)
    ensures ViolationWithin(w, from.root, None) && FreshViolation(w, from.ledger, from.root)
    ensures NoneExpanded(from.ledger) ==> exists d: nat :: NearestViolation(w, from.root, d, Found(w, from, log))
  {
    var d: nat :| StoppedAt(w, from, order, log, d);
    FreshReachIsReach(w, from.ledger, from.root, d, Found(w, from, log));
    if NoneExpanded(from.ledger) {
      FreshIsNearest(w, from.ledger, from.root, d, Found(w, from, log));
    }
  }

  // ---- What the verdicts say ------------------------------------------------------

  datatype Command =
    | Bfs(root: Hash, interrupted: nat -> bool)
    | Dfs(root: Hash, depth: int, interrupted: nat -> bool)

  ghost predicate AllClean(w: World, root: Hash) {
    forall k: nat, t: Hash :: ReachIn(w, root, k, t) ==> !w.failed(t)
  }

  ghost predicate ViolationWithin(w: World, root: Hash, bound: Option<nat>) {
    exists k: nat, t: Hash :: (bound.Some? ==> k <= bound.value) && ReachIn(w, root, k, t) && w.failed(t)
  }

  /** The meaning of a printed verdict, in terms of the system under test alone. */
  ghost predicate VerdictTrue(w: World, c: Command, verdict: Verdict) {
    match verdict
    case Complete => AllClean(w, c.root)
    case DepthLimit => c.Dfs? && CleanWithin(w, c.root, Bound(c.depth)) && CutAt(w, c.root, Bound(c.depth))
    case IllegalState => ViolationWithin(w, c.root, if c.Dfs? then Some(Bound(c.depth)) else None)
    case Incomplete => c.Bfs?
    case Interrupted => exists k: nat :: c.interrupted(k)
  }

  /** A session never contradicts itself about a root. */
  lemma VerdictsAgree(w: World, c: Command, v: Verdict, c': Command, v': Verdict)
    requires VerdictTrue(w, c, v) && VerdictTrue(w, c', v') && c.root == c'.root
    ensures v == Complete ==> v' != IllegalState
    ensures v == DepthLimit && v' == IllegalState && c'.Dfs? ==> Bound(c'.depth) > Bound(c.depth)
  {
    if v' == IllegalState {
      var bound := if c'.Dfs? then Some(Bound(c'.depth)) else None;
      var k: nat, t: Hash :| (bound.Some? ==> k <= bound.value) && ReachIn(w, c.root, k, t) && w.failed(t);
    }
  }

  /** A depth-first search that is left alone stops at a violation exactly when there is one
      within its depth. */
  lemma DfsFindsViolations(w: World, c: Command, verdict: Verdict)
    requires c.Dfs? && VerdictTrue(w, c, verdict) && (forall k: nat :: !c.interrupted(k))
    ensures verdict == IllegalState <==> ViolationWithin(w, c.root, Some(Bound(c.depth)))
  {
  }

  // ---- When a breadth-first search can be relied on -------------------------------

  /** A run from any root reports a violation exactly when one can be reached. */
  ghost predicate Reliable(w: World, ledger: Ledger) {
    forall root: Hash :: FreshViolation(w, ledger, root) <==> ViolationWithin(w, root, None)
  }

  /** A violation lies behind an expanded state. */
  ghost predicate Hides(w: World, ledger: Ledger) {
    exists s: Hash :: FullyExpanded(ledger, s) && ViolationWithin(w, s, None)
  }

  /** What every ledger of a session satisfies: it is left open only by a stop at a violation
      behind a state that was expanded. */
  ghost predicate Honest(w: World, ledger: Ledger) {
    LedgerClosed(w, ledger) || Hides(w, ledger)
  }

  /** With nothing expanded, or with every discovered state expanded, the ledger is closed. */
  lemma ClosedLedgers(w: World, ledger: Ledger, seen: set<Hash>, log: seq<Edge>)
    requires LedgerSound(w, ledger, seen, log)
    requires NoneExpanded(ledger) || forall s :: s in seen ==> FullyExpanded(ledger, s)
    ensures LedgerClosed(w, ledger)
  {
  }

  /** A walk either avoids leaving expanded states or ends in one. */
  lemma {:induction false} WalkIsFreshOrExpanded(w: World, ledger: Ledger, root: Hash, k: nat, t: Hash)
    requires LedgerClosed(w, ledger) && ReachIn(w, root, k, t)
    ensures FreshReach(w, ledger, root, k, t) || FullyExpanded(ledger, t)
    decreases k
  {
    if k != 0 {
      var e := ReachLast(w, root, k, t);
      WalkIsFreshOrExpanded(w, ledger, root, k - 1, e.source);
    }
  }

  /** A run over a closed ledger reports a violation if and only if one can be reached. */
  lemma ClosedLedgerFindsViolations(w: World, ledger: Ledger, seen: set<Hash>, log: seq<Edge>, root: Hash)
    requires LedgerSound(w, ledger, seen, log) && LedgerClosed(w, ledger)
    ensures FreshViolation(w, ledger, root) <==> ViolationWithin(w, root, None)
  {
    forall k: nat, t: Hash | FreshReach(w, ledger, root, k, t) ensures ReachIn(w, root, k, t) {
      FreshReachIsReach(w, ledger, root, k, t);
    }
    forall k: nat, t: Hash | ReachIn(w, root, k, t) && w.failed(t) ensures FreshReach(w, ledger, root, k, t) {
      WalkIsFreshOrExpanded(w, ledger, root, k, t);
    }
  }

  /** A run from an expanded state finds nothing. */
  lemma ExpandedIsSilent(w: World, ledger: Ledger, seen: set<Hash>, log: seq<Edge>, s: Hash)
    requires LedgerSound(w, ledger, seen, log) && FullyExpanded(ledger, s)
    ensures !FreshViolation(w, ledger, s)
  {
    forall k: nat, t: Hash | FreshReach(w, ledger, s, k, t) ensures !w.failed(t) {
      StuckAtRoot(w, ledger, s, k, t);
    }
  }

  /** A closed ledger hides nothing. */
  lemma ClosedHidesNothing(w: World, ledger: Ledger, seen: set<Hash>, log: seq<Edge>)
    requires LedgerSound(w, ledger, seen, log) && LedgerClosed(w, ledger)
    ensures !Hides(w, ledger)
  {
    forall s: Hash | FullyExpanded(ledger, s) ensures !ViolationWithin(w, s, None) {
      ExpandedIsSilent(w, ledger, seen, log, s);
      ClosedLedgerFindsViolations(w, ledger, seen, log, s);
    }
  }

  /** Of the system at hand: runs can be relied on if and only if every successor of an
      expanded state is expanded. */
  lemma ReliableIffClosed(w: World, ledger: Ledger, seen: set<Hash>, log: seq<Edge>)
    requires LedgerSound(w, ledger, seen, log) && Honest(w, ledger)
    ensures Reliable(w, ledger) <==> LedgerClosed(w, ledger)
  {
    if LedgerClosed(w, ledger) {
      forall root: Hash ensures FreshViolation(w, ledger, root) <==> ViolationWithin(w, root, None) {
        ClosedLedgerFindsViolations(w, ledger, seen, log, root);
      }
    } else {
      var s: Hash :| FullyExpanded(ledger, s) && ViolationWithin(w, s, None);
      ExpandedIsSilent(w, ledger, seen, log, s);
    }
  }

  /** What a run that ended with an empty queue has done: the root is expanded, and the ledger
      is closed if and only if it was before. */
  ghost predicate Ended(w: World, from: Start, ledger: Ledger, seen: set<Hash>, order: seq<Hash>, log: seq<Edge>) {
    && FullyExpanded(ledger, from.root)
    && Progress(w, from.root, from.ledger, from.seen, from.log, ledger, Wave(seen, [], {}, log), order)
    && (LedgerClosed(w, ledger) <==> LedgerClosed(w, from.ledger))
  }

  lemma EndKeepsHonest(w: World, from: Start, ledger: Ledger, seen: set<Hash>, order: seq<Hash>, log: seq<Edge>)
    requires Honest(w, from.ledger) && LedgerSound(w, ledger, seen, log) && FullyExpanded(ledger, from.root)
    requires Progress(w, from.root, from.ledger, from.seen, from.log, ledger, Wave(seen, [], {}, log), order)
    requires LedgerClosed(w, from.ledger) ==> LedgerClosed(w, ledger)
    ensures Honest(w, ledger) && Ended(w, from, ledger, seen, order, log)
  {
    if !LedgerClosed(w, from.ledger) {
      var s: Hash :| FullyExpanded(from.ledger, s) && ViolationWithin(w, s, None);
      assert FullyExpanded(ledger, s);
      if LedgerClosed(w, ledger) {
        ClosedHidesNothing(w, ledger, seen, log);
      }
    }
  }

  /** How near the violation is that a run stops at. */
  lemma StopsWithinOne(w: World, from: Start, order: seq<Hash>, log: seq<Edge>)
    requires LedgerSound(w, from.ledger, from.seen, from.log) && ViolationFound(w, from, order, log)
    ensures order == [] <==> ViolationWithin(w, from.root, Some(1))
    ensures order != [] ==> from.root in order
  {
    var root, ledger := from.root, from.ledger;
    var d: nat :| StoppedAt(w, from, order, log, d);
    FreshReachIsReach(w, ledger, root, d, Found(w, from, log));
    if FullyExpanded(ledger, root) {
      StuckAtRoot(w, ledger, root, d, Found(w, from, log));
    }
    assert FreshReach(w, ledger, root, 0, root);
    forall k: nat, t: Hash | k <= 1 && ReachIn(w, root, k, t) && w.failed(t) ensures d <= 1 {
      if k == 1 {
        var e := ReachLast(w, root, k, t);
      }
      assert FreshReach(w, ledger, root, k, t);
    }
  }

  /** What a run that stopped at a violation has done: it found a nearest one, and the ledger
      is closed if and only if it was before and the root or a successor of it fails. */
  ghost predicate Stopped(w: World, from: Start, ledger: Ledger, seen: set<Hash>, order: seq<Hash>, log: seq<Edge>) {
    && ViolationFound(w, from, order, log)
    && (NoneExpanded(from.ledger) ==> exists d: nat :: NearestViolation(w, from.root, d, Found(w, from, log)))
    && from.seen <= seen && from.root in seen
    && LedgerIs(ledger, from.ledger, order) && from.log + Expansions(w, order) <= log
    && (FullyExpanded(ledger, from.root) <==> !ViolationWithin(w, from.root, Some(1)))
    && (LedgerClosed(w, ledger) <==> LedgerClosed(w, from.ledger) && ViolationWithin(w, from.root, Some(1)))
  }

  lemma StopKeepsHonest(w: World, from: Start, ledger: Ledger, seen: set<Hash>, order: seq<Hash>, log: seq<Edge>)
    requires LedgerSound(w, from.ledger, from.seen, from.log) && Honest(w, from.ledger)
    requires ViolationFound(w, from, order, log) && from.seen <= seen && from.root in seen
    requires LedgerSound(w, ledger, seen, log) && LedgerIs(ledger, from.ledger, order)
    requires from.log + Expansions(w, order) <= log
    ensures Honest(w, ledger) && Stopped(w, from, ledger, seen, order, log)
    ensures ViolationWithin(w, from.root, None) && FreshViolation(w, from.ledger, from.root)
  {
    StopsWithinOne(w, from, order, log);
    FoundIsReal(w, from, order, log);
    if FullyExpanded(from.ledger, from.root) {
      ExpandedIsSilent(w, from.ledger, from.seen, from.log, from.root);
    }
    if order == [] {
      assert forall s: Hash :: FullyExpanded(ledger, s) <==> FullyExpanded(from.ledger, s);
    } else {
      assert FullyExpanded(ledger, from.root) && Hides(w, ledger);
      if LedgerClosed(w, ledger) {
        ClosedHidesNothing(w, ledger, seen, log);
      }
    }
  }

  /** What matters of a run for the next one from the same root. */
  method RunOnce(d: Driver, root: Hash, interrupted: nat -> bool) returns (verdict: Verdict)
    requires d.Valid()
    modifies d
    ensures d.Valid() && VerdictTrue(d.w, Bfs(root, interrupted), verdict)
    ensures verdict != Interrupted ==> (verdict == IllegalState <==> FreshViolation(d.w, old(d.ledger), root))
    ensures verdict == IllegalState ==> (FullyExpanded(d.ledger, root) <==> !ViolationWithin(d.w, root, Some(1)))
  {
    ghost var order;
    verdict, order := d.ExecBfs(root, interrupted);
  }

  /** Whatever the tables held, a breadth-first search repeated from the same root after it
      stopped at a violation reports it again if and only if the root or a successor of it
      fails, and otherwise ends with incomplete coverage. */
  method RepeatBfs(d: Driver, root: Hash, interrupted: nat -> bool, interrupted': nat -> bool)
    returns (first: Verdict, second: Verdict)
    requires d.Valid()
    modifies d
    ensures d.Valid()
    ensures VerdictTrue(d.w, Bfs(root, interrupted), first) && VerdictTrue(d.w, Bfs(root, interrupted'), second)
    ensures first != Interrupted ==> (first == IllegalState <==> FreshViolation(d.w, old(d.ledger), root))
    ensures first == IllegalState && second != Interrupted ==>
              second == if ViolationWithin(d.w, root, Some(1)) then IllegalState else Incomplete
  {
    first := RunOnce(d, root, interrupted);
    ghost var ledger := d.ledger;
    if first == IllegalState {
      if FullyExpanded(ledger, root) {
        ExpandedIsSilent(d.w, ledger, d.seen, d.log, root);
      } else {
        NearIsFresh(d.w, ledger, root);
      }
    }
    second := RunOnce(d, root, interrupted');
  }

  /** What fails within one step of a state that is not expanded is found from there. */
  lemma NearIsFresh(w: World, ledger: Ledger, root: Hash)
    requires ViolationWithin(w, root, Some(1)) && !FullyExpanded(ledger, root)
    ensures FreshViolation(w, ledger, root)
  {
    var k: nat, t: Hash :| k <= 1 && ReachIn(w, root, k, t) && w.failed(t);
    assert FreshReach(w, ledger, root, 0, root);
    if k == 1 {
      var e := ReachLast(w, root, k, t);
      assert FreshReach(w, ledger, root, 1, t);
    }
  }

  /** Three states in a row, the last one failing. */
  const ROW: World := World((s: Hash) => if s < 2 then [Actor(0, 0, Normal)] else [],
                            (s: Hash, a: Actor) => 0,
                            (s: Hash, a: Actor, c: int) => if s == 0 then 1 else 2,
                            (s: Hash) => s == 2)

  lemma RowFails()
    ensures FreshViolation(ROW, map[], 0) && !ViolationWithin(ROW, 0, Some(1))
  {
    var a := Actor(0, 0, Normal);
    var first, second := Edge(0, a, -1), Edge(1, a, -1);
    assert IsEdge(ROW, first) && Target(ROW, first) == 1 && IsEdge(ROW, second) && Target(ROW, second) == 2;
    assert FreshReach(ROW, map[], 0, 0, 0);
    assert FreshReach(ROW, map[], 0, 1, 1);
    assert FreshReach(ROW, map[], 0, 2, 2);
    forall k: nat, t: Hash | k <= 1 && ReachIn(ROW, 0, k, t) ensures t == k {
      if k == 1 {
        var e := ReachLast(ROW, 0, k, t);
      }
    }
  }

  /** So a violation that was found can be missed. */
  method RepeatedBfsMissesViolation() returns (first: Verdict, second: Verdict)
    ensures first == IllegalState && second == Incomplete
  {
    RowFails();
    var d := new Driver(ROW, (k: nat) => 0);
    first, second := RepeatBfs(d, 0, (k: nat) => false, (k: nat) => false);
  }
}
