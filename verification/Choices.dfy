/** Choice discovery: the first execution of an actor action reveals how many choices
    it offers, and the remaining ones are executed from a list popped at its back. */
module Choices {
  import opened Common
  import opened Graph

  datatype SearchMode = Breadth | Depth

  /** What `state_transition` leaves in `ptmc_state.choose` for an action offering
      `cardinality` choices: a depth-first search without a preset draws at random. */
  function Selected(mode: SearchMode, cardinality: nat, preset: int, random: nat): int {
    if cardinality != 0 && mode == Depth && preset < 0 then random % cardinality else preset
  }

  /** The choices below `n` other than `first`, in ascending order. */
  function Others(n: nat, first: int): seq<int> {
    if n == 0 then []
    else if n - 1 == first then Others(n - 1, first)
    else Others(n - 1, first) + [n - 1]
  }

  /** The choice an action is first executed with. */
  function FirstChoice(cardinality: nat, random: nat): int {
    if cardinality == 0 then -1 else random % cardinality
  }

  /** Every choice of an action, the first to execute at the back. */
  function Queue(cardinality: nat, first: int): seq<int> {
    Others(cardinality, first) + [first]
  }

  /** The edges executed by popping `queue` from its back. */
  function PopOrder(s: Hash, a: Actor, queue: seq<int>): seq<Edge> {
    if queue == [] then []
    else [Edge(s, a, queue[|queue| - 1])] + PopOrder(s, a, queue[..|queue| - 1])
  }

  /** The order in which a breadth-first search executes the choices of one action. */
  function ActorOrder(w: World, s: Hash, a: Actor): seq<Edge> {
    PopOrder(s, a, Queue(w.cardinality(s, a), FirstChoice(w.cardinality(s, a), 0)))
  }

  /** The edges of `actors` at `s` in the order a breadth-first search executes them. */
  function EdgeOrder(w: World, s: Hash, actors: seq<Actor>): seq<Edge> {
    if actors == [] then []
    else ActorOrder(w, s, actors[0]) + EdgeOrder(w, s, actors[1..])
  }

  lemma {:induction false} OthersExact(n: nat, first: int, c: int)
    ensures c in Others(n, first) <==> 0 <= c < n && c != first
    ensures multiset(Others(n, first))[c] <= 1
    decreases n
  {
    if n != 0 {
      OthersExact(n - 1, first, c);
    }
  }

  predicate InRange(choices: seq<int>, n: nat) {
    forall k :: 0 <= k < |choices| ==> 0 <= choices[k] < n
  }

  lemma OthersInRange(n: nat, first: int)
    ensures InRange(Others(n, first), n)
  {
    forall k | 0 <= k < |Others(n, first)| ensures 0 <= Others(n, first)[k] < n {
      OthersExact(n, first, Others(n, first)[k]);
    }
  }

  /** The queue of an action holds every valid choice exactly once and nothing else. */
  lemma QueueExact(cardinality: nat, first: int, c: int)
    requires ValidChoice(cardinality, first)
    ensures multiset(Queue(cardinality, first))[c] == if ValidChoice(cardinality, c) then 1 else 0
    ensures c in Queue(cardinality, first) <==> ValidChoice(cardinality, c)
  {
    OthersExact(cardinality, first, c);
    var others := Others(cardinality, first);
    assert c in others <==> multiset(others)[c] > 0;
    assert multiset(Queue(cardinality, first)) == multiset(others) + multiset{first};
  }

  lemma {:induction false} OthersLength(n: nat, first: int)
    ensures |Others(n, first)| == if 0 <= first < n then n - 1 else n
    decreases n
  {
    if n != 0 {
      OthersLength(n - 1, first);
    }
  }

  /** The other choices ascend. */
  lemma {:induction false} OthersAt(n: nat, first: int, i: nat)
    requires i < |Others(n, first)|
    ensures Others(n, first)[i] == if 0 <= first <= i then i + 1 else i
    decreases n
  {
    OthersLength(n, first);
    OthersLength(n - 1, first);
    if i < |Others(n - 1, first)| {
      OthersAt(n - 1, first, i);
    }
  }

  lemma {:induction false} PopOrderAt(s: Hash, a: Actor, queue: seq<int>, k: nat)
    requires k < |queue|
    ensures |PopOrder(s, a, queue)| == |queue| && PopOrder(s, a, queue)[k] == Edge(s, a, queue[|queue| - 1 - k])
    decreases queue
  {
    if |queue| > 1 {
      PopOrderAt(s, a, queue[..|queue| - 1], if k == 0 then 0 else k - 1);
    }
  }

  /** A breadth-first search executes choice 0 of an action first and then the others from the
      last one down. */
  lemma ActorOrderAt(w: World, s: Hash, a: Actor, k: nat)
    requires k < |ActorOrder(w, s, a)|
    ensures var card := w.cardinality(s, a);
            ActorOrder(w, s, a)[k] == Edge(s, a, if card == 0 then -1 else if k == 0 then 0 else card - k)
  {
    var card := w.cardinality(s, a);
    var queue := Queue(card, FirstChoice(card, 0));
    OthersLength(card, FirstChoice(card, 0));
    PopOrderCount(s, a, queue, Edge(s, a, 0));
    PopOrderAt(s, a, queue, k);
    if 0 < k {
      OthersAt(card, 0, card - 1 - k);
    }
  }

  lemma {:induction false} PopOrderCount(s: Hash, a: Actor, queue: seq<int>, e: Edge)
    ensures |PopOrder(s, a, queue)| == |queue|
    ensures multiset(PopOrder(s, a, queue))[e] ==
            if e.source == s && e.actor == a then multiset(queue)[e.choice] else 0
    decreases queue
  {
    if queue != [] {
      var last := queue[|queue| - 1];
      var rest := queue[..|queue| - 1];
      PopOrderCount(s, a, rest, e);
      assert queue == rest + [last];
      assert multiset(queue) == multiset(rest) + multiset{last};
      assert multiset(PopOrder(s, a, queue)) == multiset{Edge(s, a, last)} + multiset(PopOrder(s, a, rest));
    }
  }

  predicate Distinct<T(==)>(items: seq<T>) {
    forall i, j :: 0 <= i < j < |items| ==> items[i] != items[j]
  }

  /** The number of edges of `actors`: an action without a choice still takes one step. */
  function EdgeTotal(w: World, s: Hash, actors: seq<Actor>): nat {
    if actors == [] then 0
    else (if w.cardinality(s, actors[0]) == 0 then 1 else w.cardinality(s, actors[0]))
         + EdgeTotal(w, s, actors[1..])
  }

  /** An action's choices are executed once each, and nothing else is. */
  lemma ActorOrderCount(w: World, s: Hash, a: Actor, e: Edge)
    ensures |ActorOrder(w, s, a)| == if w.cardinality(s, a) == 0 then 1 else w.cardinality(s, a)
    ensures multiset(ActorOrder(w, s, a))[e] ==
            if e.source == s && e.actor == a && ValidChoice(w.cardinality(s, a), e.choice) then 1 else 0
  {
    var card := w.cardinality(s, a);
    var first := FirstChoice(card, 0);
    QueueExact(card, first, e.choice);
    OthersLength(card, first);
    PopOrderCount(s, a, Queue(card, first), e);
  }

  lemma MultisetOfAppend<T>(a: seq<T>, b: seq<T>, x: T)
    ensures multiset(a + b)[x] == multiset(a)[x] + multiset(b)[x]
  {
  }

  lemma {:induction false} EdgeOrderCount(w: World, s: Hash, actors: seq<Actor>, e: Edge)
    requires Distinct(actors)
    ensures |EdgeOrder(w, s, actors)| == EdgeTotal(w, s, actors)
    ensures multiset(EdgeOrder(w, s, actors))[e] ==
            if e.source == s && e.actor in actors && ValidChoice(w.cardinality(s, e.actor), e.choice) then 1 else 0
    decreases actors
  {
    if actors != [] {
      var a, rest := actors[0], actors[1..];
      DistinctTail(actors, e.actor);
      ActorOrderCount(w, s, a, e);
      EdgeOrderCount(w, s, rest, e);
      MultisetOfAppend(ActorOrder(w, s, a), EdgeOrder(w, s, rest), e);
    }
  }

  lemma DistinctTail<T>(items: seq<T>, x: T)
    requires items != [] && Distinct(items)
    ensures Distinct(items[1..]) && items[0] !in items[1..]
    ensures x in items <==> x == items[0] || x in items[1..]
  {
    assert items == [items[0]] + items[1..];
  }

  /** Choice discovery is exact: expanding a state executes each of its edges exactly
      once, executes nothing else, and the number of edges is the sum over its actions
      of their choices, an action without a choice counting once. */
  lemma EnumerationExact(w: World, s: Hash, e: Edge)
    requires Distinct(Enabled(w, s))
    ensures multiset(EdgeOrder(w, s, Enabled(w, s)))[e] == if IsEdge(w, e) && e.source == s then 1 else 0
    ensures |EdgeOrder(w, s, Enabled(w, s))| == EdgeTotal(w, s, Enabled(w, s))
  {
    EdgeOrderCount(w, s, Enabled(w, s), e);
  }

  /** Execute one choice of one actor action.  The first execution discovers the
      cardinality and fills the list of remaining choices; a later one must repeat it. */
  method SearchActorChoice(w: World, mode: SearchMode, random: nat, source: Hash, actor: Actor,
                           preset: int, cardinality: int, remaining: seq<int>)
    returns (r: Result<Hash>, choice: int, cardinality': int, remaining': seq<int>)
    requires actor in Enabled(w, source)
    ensures var discovered := w.cardinality(source, actor);
            var selected := Selected(mode, discovered, preset, random);
            && (r.Ok? <==> (discovered != 0 ==> 0 <= selected < discovered)
                           && (cardinality >= 0 ==> discovered == cardinality && discovered != 0 && selected == preset))
            && (r.Ok? ==>
                  && choice == (if discovered == 0 then -1 else selected)
                  && r.value == Target(w, Edge(source, actor, choice))
                  && cardinality' == discovered
                  && remaining' == if cardinality < 0 then remaining + Others(discovered, choice) else remaining)
  {
    choice, cardinality', remaining' := -1, cardinality, remaining;
    var discovered := w.cardinality(source, actor);
    var selected := Selected(mode, discovered, preset, random);
    if discovered != 0 && (selected < 0 || selected >= discovered) {
      return Err, choice, cardinality', remaining';
    }
    if cardinality < 0 {
      cardinality' := discovered;
      for c := 0 to discovered
        invariant remaining' == remaining + Others(c, selected)
      {
        if c != selected {
          remaining' := remaining' + [c];
        }
      }
    } else if discovered != cardinality || discovered == 0 || selected != preset {
      return Err, choice, cardinality', remaining';
    }
    choice := if discovered == 0 then -1 else selected;
    r := Ok(Target(w, Edge(source, actor, choice)));
  }

  datatype EnumerationKind = Expanded | Terminal | DepthCut | Violation

  function Classify(w: World, s: Hash, mayExpand: bool): EnumerationKind {
    if w.failed(s) then Violation
    else if Enabled(w, s) == [] then Terminal
    else if !mayExpand then DepthCut
    else Expanded
  }

  predicate NoneFails(w: World, edges: seq<Edge>) {
    forall i :: 0 <= i < |edges| ==> !w.failed(Target(w, edges[i]))
  }

  /** `delivered` is all of `order`, or `order` up to its first violating edge. */
  predicate DeliveredUpToViolation(w: World, order: seq<Edge>, delivered: seq<Edge>, violated: bool) {
    && delivered <= order
    && (!violated ==> delivered == order && NoneFails(w, order))
    && (violated ==>
          && delivered != []
          && w.failed(Target(w, delivered[|delivered| - 1]))
          && NoneFails(w, delivered[..|delivered| - 1]))
  }

  lemma AdvancePop(order: seq<Edge>, delivered: seq<Edge>, s: Hash, a: Actor, queue: seq<int>)
    requires queue != [] && order == delivered + PopOrder(s, a, queue)
    ensures order == delivered + [Edge(s, a, queue[|queue| - 1])] + PopOrder(s, a, queue[..|queue| - 1])
  {
    var e := Edge(s, a, queue[|queue| - 1]);
    var rest := PopOrder(s, a, queue[..|queue| - 1]);
    assert delivered + ([e] + rest) == delivered + [e] + rest;
  }

  lemma AdvanceActor(w: World, order: seq<Edge>, delivered: seq<Edge>, s: Hash, actors: seq<Actor>)
    requires actors != [] && order == delivered + EdgeOrder(w, s, actors)
    ensures order == delivered + ActorOrder(w, s, actors[0]) + EdgeOrder(w, s, actors[1..])
  {
    var head := ActorOrder(w, s, actors[0]);
    var rest := EdgeOrder(w, s, actors[1..]);
    assert delivered + (head + rest) == delivered + head + rest;
  }

  lemma StopsAtViolation(w: World, order: seq<Edge>, before: seq<Edge>, part: seq<Edge>, more: seq<Edge>,
                         rest: seq<Edge>)
    requires order == before + part + rest && NoneFails(w, before)
    requires DeliveredUpToViolation(w, part, more, true)
    ensures DeliveredUpToViolation(w, order, before + more, true)
  {
    var delivered := before + more;
    assert delivered <= before + part <= order;
    assert delivered[|delivered| - 1] == more[|more| - 1];
    assert delivered[..|delivered| - 1] == before + more[..|more| - 1];
  }

  /** The discovered cardinality, -1 before the first execution, and the choices left. */
  predicate ChoiceState(card: nat, cardinality: int, choices: seq<int>) {
    if cardinality < 0 then choices == [] else cardinality == card && InRange(choices, card)
  }

  /** The choices still to execute, the next one at the back. */
  function Pending(card: nat, cardinality: int, choices: seq<int>): seq<int> {
    if cardinality < 0 then Queue(card, FirstChoice(card, 0)) else choices
  }

  /** One iteration of the loop over an action's choices in a breadth-first search. */
  method TakeChoice(w: World, source: Hash, actor: Actor, cardinality: int, choices: seq<int>)
    returns (edge: Edge, target: Hash, cardinality': int, choices': seq<int>)
    requires actor in Enabled(w, source)
    requires ChoiceState(w.cardinality(source, actor), cardinality, choices)
    requires Pending(w.cardinality(source, actor), cardinality, choices) != []
    ensures var card := w.cardinality(source, actor);
            var pending := Pending(card, cardinality, choices);
            && edge == Edge(source, actor, pending[|pending| - 1])
            && target == Target(w, edge)
            && cardinality' >= 0 && ChoiceState(card, cardinality', choices')
            && choices' == pending[..|pending| - 1]
  {
    var preset, remaining := 0, choices;
    if cardinality >= 0 {
      preset, remaining := choices[|choices| - 1], choices[..|choices| - 1];
    }
    var r, choice, card, rest := SearchActorChoice(w, Breadth, 0, source, actor, preset, cardinality, remaining);
    OthersInRange(w.cardinality(source, actor), choice);
    edge, target, cardinality', choices' := Edge(source, actor, choice), r.value, card, rest;
  }

  /** Execute every choice of one action, stopping after the first that violates. */
  method EnumerateActor(w: World, source: Hash, actor: Actor) returns (violated: bool, delivered: seq<Edge>)
    requires actor in Enabled(w, source)
    ensures DeliveredUpToViolation(w, ActorOrder(w, source, actor), delivered, violated)
  {
    delivered := [];
    var cardinality := -1;
    var choices: seq<int> := [];
    var more := true;
    ghost var card := w.cardinality(source, actor);
    ghost var pending := Pending(card, cardinality, choices);
    ghost var order := PopOrder(source, actor, pending);
    while more
      invariant ChoiceState(card, cardinality, choices)
      invariant pending == Pending(card, cardinality, choices)
      invariant more == (pending != [])
      invariant NoneFails(w, delivered)
      invariant order == delivered + PopOrder(source, actor, pending)
      decreases |pending|
    {
      AdvancePop(order, delivered, source, actor, pending);
      var edge, target, card', rest := TakeChoice(w, source, actor, cardinality, choices);
      if w.failed(target) {
        StopsAtViolation(w, order, delivered, [edge], [edge], PopOrder(source, actor, rest));
        return true, delivered + [edge];
      }
      delivered, cardinality, choices, pending := delivered + [edge], card', rest, rest;
      more := choices != [];
    }
    violated := false;
  }

  /** Deliver every edge of a state, stopping after the first one that violates. */
  method EnumerateState(w: World, source: Hash, mayExpand: bool)
    returns (kind: EnumerationKind, delivered: seq<Edge>)
    ensures match Classify(w, source, mayExpand)
            case Expanded =>
              && (kind == Expanded || kind == Violation)
              && DeliveredUpToViolation(w, EdgeOrder(w, source, Enabled(w, source)), delivered, kind == Violation)
            case other => kind == other && delivered == []
  {
    delivered := [];
    var actions := Enabled(w, source);
    kind := Classify(w, source, mayExpand);
    if kind != Expanded {
      return;
    }
    ghost var order := EdgeOrder(w, source, actions);
    for i := 0 to |actions|
      invariant kind == Expanded
      invariant NoneFails(w, delivered)
      invariant order == delivered + EdgeOrder(w, source, actions[i..])
    {
      var violated, more := EnumerateActor(w, source, actions[i]);
      AdvanceActor(w, order, delivered, source, actions[i..]);
      assert actions[i..][1..] == actions[i + 1..];
      if violated {
        StopsAtViolation(w, order, delivered, ActorOrder(w, source, actions[i]), more,
                         EdgeOrder(w, source, actions[i + 1..]));
        return Violation, delivered + more;
      }
      delivered := delivered + more;
    }
  }
}
