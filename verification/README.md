# DetSim: verified model

DetSim explores the states of real processes by re-executing them one system call at a time.
This project models the parts of it whose answers are claims about all executions, and proves
those claims in Dafny.

- **Search** (`Graph`, `Choices`, `DepthFirst*`, `BreadthFirst`, `Search`): a system under test is a
  graph of states with enabled actions, choices discovered on the first run, and failing states.
  The explicit-stack depth-first search with its two memo tables, the breadth-first search with its
  ledger and the tables both share are a class whose methods are the source's loops. The
  depth-first loop is proved to be the recursive memoized search, to terminate, and to publish only
  true entries. The breadth-first search is proved to stop at a nearest violation among what its
  ledger lets it reach, and to discover exactly the reachable states from empty tables. Both discover
  exactly what their edges lead to and stop at the first interrupt. Every verdict printed in any
  session of both is proved true.
- **Parallel frontier** (`Frontier`): states leased to workers, results committed in any order,
  workers lost, depths improved late. Every operation is told field by field, and its status is
  proved to mean what it says: exactly the
  reachable states, at their shortest distances, as far as no budget cut the search off.
- **Unfinished system calls** (`Deadline`, `Futex`, `Pending`, `Lifetime*`, `ProcessState`): calls that
  wait, are retried or are ready, with futex queues, ktime deadlines and the table of blocked
  threads. Over every run the calls returned to a thread are the calls it made, once each, with the
  right arguments and results; each call is suspended exactly when it should be and times out exactly
  when it asked to; retries follow readiness; and which waits a futex call ends is told by the words
  of the calls alone. Every state of a run passes the check of
  saved states as long as no waiter is put at address zero, and that condition is exact for the
  agreement of queues and calls.
- **Bakery lock** (`Bakery`): the example target, one shared access per step: mutual exclusion, first
  come first served, at most one overtaking, and no starvation in fair interleavings.
- **Observation expressions** (`Observation`) in checked 64-bit arithmetic against the unbounded
  integers, the **member-offset cache** (`SymbolCache`) against an uncached lookup, and **writev**
  (`Writev`) against the concatenation of the guest's segments.

Some promised properties do not hold as promised; each has a concrete input that shows it, and the
exact condition under which it does hold:

- A breadth-first run repeated after it stopped at a violation can end with incomplete coverage and
  miss the violation (`RepeatedBfsMissesViolation`); a run reports one exactly when one can be
  reached over states not yet expanded (`ExecBfs`). The repeated run misses exactly the violations two
  or more steps away (`RepeatBfs`), and in every state a session leaves, runs can be relied on
  exactly when the ledger is closed (`ReliableIffClosed`, `Session`).
- A deadline is not the saturating sum for operands of 9223372036 seconds
  (`DeadlineCanBeClamped`, `DeadlineIsSaturatingSum`); for all others a call waits until exactly the
  moment asked for (`CallsWaitAsAsked`).
- A requeue to address zero ends waits nobody woke, and a requeue from there leads to a state that
  the check of saved states rejects (`RequeueToZeroBreaksCheck`, `ThreeCallsBreakCheck`); so does a
  wait there (`WaitAtZeroBreaksCheck`). Queues and calls stay in step exactly when no waiter is put at
  address zero (`StepKeepsInvIff`, `RunKeepsInvIff`), and exactly then the check keeps accepting what
  follows (`OrderlyIffAccepted`).
- Exactly 2^64 symbol changes revive a stale cache entry (`WrappedCounterMisleads`); the cache is
  transparent exactly when no trusted entry disagrees with the type table (`CacheIsTransparentIff`), as
  over every run with fewer changes (`CounterRangeSuffices`).
- Mutual exclusion needs the choosing flag (`ExclusionNeedsChoosing`).

What the rest of the system contributes is a parameter: the graph of the system under test, the
random first choice of the depth-first search, interrupts, readiness of descriptors, the outcome of
retried I/O, guest memory, the parser of debug information, worker results (which must be true of
the graph). States are identified by their hashes, without collisions. `dafny verify dfyconfig.toml`
checks the whole project.

## Model

| member | source | states |
|---|---|---|
| `Choices.OthersExact` | src/core/scheduler.cpp:703-706 | the choices left after the first run are exactly the other ones, each once |
| `Choices.OthersAt` | src/core/scheduler.cpp:703-706 | and in this order: those below the first, then those above it |
| `Choices.QueueExact` | src/core/scheduler.cpp:700-709 | together with the first they are every choice below the cardinality, each once, or the single -1 of an action without choices |
| `Choices.ActorOrderCount` | src/core/scheduler.cpp:740-757 | an action delivers max(1, cardinality) edges, each of its choices exactly once |
| `Choices.ActorOrderAt` | src/core/scheduler.cpp:740-757 | the edges come in a definite order: the first choice, then the others from the highest to the lowest |
| `Choices.EdgeOrderCount` | src/core/scheduler.cpp:740-757 | over any list of distinct actions each edge is delivered exactly once and the number of edges is the sum of max(1, cardinality) |
| `Choices.EnumerationExact` | src/core/scheduler.cpp:723-761 | for every source the enumeration delivers every edge of the state graph that leaves it exactly once, and nothing else |
| `Choices.SearchActorChoice` | src/core/scheduler.cpp:687-711 | the first run discovers the cardinality and the other choices, a later run must repeat it with its preset; anything else is refused |
| `Choices.TakeChoice` | src/core/scheduler.cpp:743-757 | popping the last choice and executing it keeps what is delivered plus what is still queued equal to the whole order |
| `Choices.EnumerateActor` | src/core/scheduler.cpp:740-757 | one action delivers its edges in order, up to and including the first violation |
| `Choices.EnumerateState` | src/core/scheduler.cpp:713-761 | a state is classified as violation, terminal or depth cut, or delivers its whole edge order up to the first violation, with the number of edges emitted |
| `DepthFirst.FinishRefines` | src/core/scheduler.cpp:1034-1047 | finishing a frame hands its result to its parent exactly as a return of the recursive search does, published or not |
| `DepthFirst.EnterRefines` | src/core/scheduler.cpp:1078-1121 | state 0 of a frame (covered, cached, violating, terminal, cut or opened) is what the recursive search does on entry |
| `DepthFirst.BeginActorRefines` | src/core/scheduler.cpp:1123-1137 | state 1 moves to the next action, or returns, as the recursive search does |
| `DepthFirst.RunEdgeRefines` | src/core/scheduler.cpp:1139-1198 | state 2 executes the same edge as the recursive search and suspends the frame so that the rest of its choices follow the child |
| `DepthFirst.NextChoiceRefines` | src/core/scheduler.cpp:1200-1210 | state 3 changes nothing the search can observe |
| `DepthFirst.CutIsKept` | src/core/scheduler.cpp:133-137 | a cut below a state is never lost while its other choices are searched |
| `DepthFirstTables.VisitDiscovers` | src/core/scheduler.cpp:1078-1198 | the states discovered are the root and exactly the targets of the executed edges that do not fail |
| `DepthFirstTables.VisitStops` | src/core/scheduler.cpp:1104-1198 | every executed edge is real and starts within the depth; a failing target can only be that of the last edge, and the search stops there or at a failing root |
| `DepthFirstTables.VisitRecords` | src/core/scheduler.cpp:1034-1043 | no published result is ever changed, what is covered grows by exactly the states published without a cut, and nothing deeper than asked is published |
| `DepthFirstTables.VisitCounts` | src/core/scheduler.cpp:1007-1214 | a search that ends executes each edge exactly as often as results were published for its source with a step left to take: no query is enumerated twice |
| `DepthFirstTables.VisitSearches` | src/core/scheduler.cpp:1007-1214 | all four at once, for every query and whatever the tables held |
| `DepthFirstWork.QueueWorkIsRangeWork` | src/core/scheduler.cpp:703-706 | whatever choice runs first, the remaining work is the same |
| `DepthFirstWork.FinishWork` | src/core/scheduler.cpp:1034-1047 | finishing a frame lowers the measure of the whole stack |
| `DepthFirstWork.EnterWork` | src/core/scheduler.cpp:1078-1121 | opening a frame, or answering it from a table, lowers it |
| `DepthFirstWork.BeginActorWork` | src/core/scheduler.cpp:1123-1137 | starting the next action does not raise it and returning lowers it |
| `DepthFirstWork.RunEdgeWork` | src/core/scheduler.cpp:1139-1198 | executing an edge and pushing the child lowers it for every finite cardinality and depth |
| `DepthFirstWork.NextChoiceWork` | src/core/scheduler.cpp:1200-1210 | going back for the next choice lowers it |
| `DepthFirstSound.PublishSound` | src/core/scheduler.cpp:1034-1043 | a published entry (state, depth) means: no violation within that depth, and a recorded cut is a real walk of that length to a state with enabled actions; an entry without a cut covers the whole closed set; and every query it was made of is answered too |
| `DepthFirstSound.FinishSound` | src/core/scheduler.cpp:1034-1047 | finishing a frame keeps all tables, the whole stack and the verdict of the root true |
| `DepthFirstSound.CachedSound` | src/core/scheduler.cpp:1088-1102 | an answer taken from either table is true of the query at hand |
| `DepthFirstSound.EnterSound` | src/core/scheduler.cpp:1078-1121 | so does entering a frame; a state it stops at really violates |
| `DepthFirstSound.BeginActorSound` | src/core/scheduler.cpp:1123-1137 | so does starting an action; a frame returns only when all its edges were executed and all its children finished |
| `DepthFirstSound.RunEdgeSound` | src/core/scheduler.cpp:1139-1198 | so does executing an edge and pushing the child; a violating edge is real |
| `DepthFirstSound.NextChoiceSound` | src/core/scheduler.cpp:1200-1210 | so does going back for the next choice |
| `BreadthFirst.EdgesOfComplete` | src/core/scheduler.cpp:872-924 | the edges executed for a state are all edges that leave it |
| `BreadthFirst.AllExpandedIsClosed` | src/core/scheduler.cpp:155-161 | when every discovered state is fully expanded the set is closed under every edge, free of violations, and every edge was executed |
| `BreadthFirst.ExpandSound` | src/core/scheduler.cpp:859-926 | expanding the head of the queue keeps the ledger, the queue and the two-level distance invariant |
| `BreadthFirst.ExpandQueue` | src/core/scheduler.cpp:917-920 | a state is queued at most once per run |
| `BreadthFirst.SettleFinds` | src/core/scheduler.cpp:906-921 | what is discovered is exactly what the executed edges lead to without failing |
| `BreadthFirst.ViolationIsNearest` | src/core/scheduler.cpp:900-902 | whatever ledger a run starts from, the violating edge it stops at leads to a state nearest to the root among all failing states it can reach over states not yet expanded, and everything nearer than the edge's source has been expanded |
| `BreadthFirst.NearerIsExpanded` | src/core/scheduler.cpp:850-926 | every state nearer than the head of the queue has been expanded |
| `BreadthFirst.NearerIsClean` | src/core/scheduler.cpp:850-926 | no edge out of a state nearer than the head of the queue leads to a violation, and each leads to a state expanded before the run or at most one step deeper |
| `BreadthFirst.FreshIsNearest` | src/core/scheduler.cpp:868-902 | with nothing expanded before the run, a nearest violation among what it can reach is a nearest violation of all |
| `BreadthFirst.ExpandMeasure` | src/core/scheduler.cpp:859-926 | each expansion uses up one of finitely many unexpanded states |
| `BreadthFirst.FreshReachIsExpanded` | src/core/scheduler.cpp:868-869 | what can be reached without passing an already expanded state has been expanded when the queue is empty |
| `BreadthFirst.RunViolates` | src/core/scheduler.cpp:900-902 | the state a run stopped at, read off its log, is a nearest one among the failing states it can reach, at a definite distance; what is two or more steps nearer has been expanded, and nothing at all where the distance is at most one |
| `BreadthFirst.RunViolatesAtHead` | src/core/scheduler.cpp:870-871 | a state that turns out to fail when it is taken from the queue is the root, before any edge |
| `Search.Driver.constructor` | src/core/scheduler.cpp:124-140 | empty tables are sound |
| `Search.Driver.ClearSearchBookkeeping` | src/core/scheduler.cpp:163-169 | all four tables are dropped together |
| `Search.Driver.FinishFrame` | src/core/scheduler.cpp:1034-1047 | the in-place update is the specified one |
| `Search.Driver.EnterFrame` | src/core/scheduler.cpp:1078-1121 | the in-place update is the specified one |
| `Search.Driver.StartActor` | src/core/scheduler.cpp:1123-1137 | the in-place update is the specified one |
| `Search.Driver.RunChoice` | src/core/scheduler.cpp:1139-1198 | the in-place update is the specified one, with the snapshot reopened when it was dropped |
| `Search.TakeNext` | src/core/scheduler.cpp:1139-1156 | a dropped snapshot is reopened to the same state; the edge and the remaining choices are those of the specification |
| `Search.Driver.Iterate` | src/core/scheduler.cpp:1049-1211 | one turn of the loop is one step of the recursive search and lowers the measure |
| `Search.Driver.DoDfs` | src/core/scheduler.cpp:1007-1214 | the explicit-stack search terminates, executes exactly the edge sequence and computes exactly the tables and the result of the recursive memoized search, or, interrupted, has executed a prefix of that sequence; its verdict is true of the graph; without an interrupt the states discovered are the root and what the executed edges lead to without failing, no edge is executed for a query already answered, and the run stops in the very turn in which it is first told to |
| `Search.Driver.RunStack` | src/core/scheduler.cpp:1049-1214 | the loop itself, with the number of its turns: the interrupt is asked for in each and obeyed at once |
| `DepthFirst.ResumeExtends` | src/core/scheduler.cpp:1049-1076 | whatever a search still has to do only adds to the edges executed and the states discovered |
| `Search.Driver.NoteEdge` | src/core/scheduler.cpp:906-921 | a successor is discovered, and queued unless it is expanded or queued already |
| `Search.Driver.ExpandState` | src/core/scheduler.cpp:872-924 | a state's edges are executed in order up to the first violation |
| `Search.Driver.AllDiscoveredFullyExpanded` | src/core/scheduler.cpp:155-161 | the check is exact |
| `Search.Driver.ExpandHead` | src/core/scheduler.cpp:859-926 | one state taken from the queue keeps the invariant of the run, or ends it at a nearest violation |
| `Search.Driver.DrainQueue` | src/core/scheduler.cpp:803-962 | the queue is drained with every invariant kept, each state expanded at most once and everything the edges lead to discovered, or the run ends at a nearest violation, or before the first expansion at which it is interrupted |
| `Search.Driver.ExecBfs` | src/core/scheduler.cpp:780-982 | complete means closed, violation-free and containing the root; from empty tables the discovered set is exactly the reachable set; a violation is reported if and only if one can be reached over states not yet expanded, and over a closed ledger if and only if one can be reached at all; the state it stops at is a nearest one, of all when nothing was expanded before; the ledger is closed afterwards if and only if it was before and no violation two or more steps away was stopped at; an interrupt leaves empty tables; without an interrupt the states discovered are the root and what the executed edges lead to without failing; it is interrupted exactly before the first expansion at which it is told to, and then has executed the edges of the states expanded so far |
| `Search.Driver.RunQueue` | src/core/scheduler.cpp:803-962 | the drained run leaves the ledger closed, or with a violation behind an expanded state |
| `Search.Driver.Conclude` | src/core/scheduler.cpp:964-973 | complete exactly when every discovered state is expanded, and then everything reachable is discovered and clean |
| `Search.Driver.ExecDfs` | src/core/scheduler.cpp:1216-1258 | complete means nothing violates anywhere below the root; depth limit means nothing violates within the depth and something lies beyond it |
| `Search.Driver.Session` | src/core/scheduler.cpp:126-169 | over every sequence of breadth-first and depth-first runs sharing the tables, with violation stops and interrupts, every verdict is true of the graph and the tables stay sound; after it, breadth-first runs report a violation exactly when one can be reached if and only if the ledger is closed |
| `Search.VerdictsAgree` | src/core/scheduler.cpp:964-973 | verdicts of a session never contradict each other |
| `Search.DfsFindsViolations` | src/core/scheduler.cpp:1104-1106 | an uninterrupted depth-first search, of whatever depth, stops at a violation exactly when one lies within it |
| `Search.RepeatedBfsMissesViolation` | src/core/scheduler.cpp:868-869 | an instance: on three states in a row the first run stops at the violation and the second, from the same root, ends with incomplete coverage |
| `Search.ClosedLedgerFindsViolations` | src/core/scheduler.cpp:868-869 | where every successor of an expanded state is expanded, a run reports a violation if and only if one can be reached |
| `Search.ClosedLedgers` | src/core/scheduler.cpp:155-169 | the ledger is closed when nothing is expanded and when every discovered state is |
| `Search.ReliableIffClosed` | src/core/scheduler.cpp:868-869 | for every ledger a session can leave, runs from all roots report a violation exactly when one can be reached, if and only if every successor of an expanded state is expanded |
| `Search.StopKeepsHonest` | src/core/scheduler.cpp:900-902 | a run that stops at a violation leaves the ledger closed if and only if it was and the root or a successor of it fails; otherwise the root is expanded and hides the violation |
| `Search.EndKeepsHonest` | src/core/scheduler.cpp:964-973 | a run that ends with an empty queue leaves the ledger closed if and only if it was |
| `Search.RepeatBfs` | src/core/scheduler.cpp:868-869 | whatever the tables held, a run repeated from the same root after a stop at a violation reports it again if and only if the root or a successor of it fails, and otherwise ends with incomplete coverage |
| `Bakery.StepKeepsInv` | examples/bakery/bakery.c:25-45 | every single shared access keeps the invariant, re-reads in the maximum and in the spin condition included |
| `Bakery.RunKeepsInv` | examples/bakery/bakery.c:47-58 | it holds after every schedule |
| `Bakery.MutualExclusion` | examples/bakery/bakery.c:25-45 | in no interleaving are both threads between lock and unlock |
| `Bakery.FirstComeFirstServed` | examples/bakery/bakery.c:25-41 | a thread that finished its doorway before the other began its own enters first |
| `Bakery.NeverBothBlocked` | examples/bakery/bakery.c:34-40 | in every reachable state at most one thread is blocked |
| `Bakery.BlockedIffStuck` | examples/bakery/bakery.c:34-40 | a waiting thread is blocked if and only if no number of its own steps takes it into its critical section |
| `Bakery.OvertakenAtMostOnce` | examples/bakery/bakery.c:25-58 | once a thread has left its doorway the other enters at most once before it, in every interleaving |
| `Bakery.StepNears` | examples/bakery/bakery.c:25-45 | no step of either thread takes a waiting thread farther from entering, and one of the needed thread takes it nearer |
| `Bakery.NoStarvation` | examples/bakery/bakery.c:47-58 | in every endless fair interleaving each thread enters again and again, from wherever it stands |
| `Bakery.CanEnter` | examples/bakery/bakery.c:25-41 | from every such state a schedule of bounded length brings a thread into its critical section |
| `Bakery.NoDeadlock` | examples/bakery/bakery.c:25-41 | after every schedule, at most sixty further steps bring a thread into its critical section |
| `Bakery.ExclusionNeedsChoosing` | examples/bakery/bakery.c:17-38 | with the flag compiled out a schedule lets both threads in |
| `Deadline.DeadlineIsCanonical` | src/core/engine/pending_syscall.cpp:85-107 | a deadline that is made is canonical, in range for every later check, and not before the moment asked for |
| `Deadline.DeadlineIsSaturatingSum` | src/core/engine/pending_syscall.cpp:91-105 | it is the exact saturating sum if and only if no operand reaches 9223372036 seconds or the sum reaches the limit |
| `Deadline.DeadlineCanBeClamped` | src/core/engine/pending_syscall.cpp:95-97 | an operand of 9223372036 seconds is clamped although the sum would fit |
| `Deadline.DeadlineIsMonotone` | src/core/engine/pending_syscall.cpp:85-107 | it is monotone in the timeout and in the clock |
| `Deadline.DueIsComparison` | src/core/engine/pending_syscall.cpp:146-147 | the due test is the comparison of the two instants |
| `Deadline.TimeoutClockIsLeast` | src/core/engine/pending_syscall.cpp:109-120 | the timeout clock is the least valid microsecond clock at or after both the source and the deadline |
| `Deadline.TimeoutClockInMicros` | src/core/engine/pending_syscall.cpp:109-120 | in numbers: the clock stays, or moves to the deadline rounded up to a microsecond |
| `Deadline.TimeoutClockOvershoot` | src/core/engine/pending_syscall.cpp:109-120 | any other deadline that becomes due with it lies less than a microsecond later |
| `Deadline.MadeDeadlineExpires` | src/core/engine/pending_syscall.cpp:85-156 | every deadline that can be made can be expired |
| `Futex.TakenCount` | src/subsys/sync/futexstate.cpp:118-147 | the number woken is the smaller of the count and the matching waiters, and nobody is lost |
| `Futex.TakenOrLeft` | src/subsys/sync/futexstate.cpp:129-138 | each waiter is woken or stays, never both |
| `Futex.TakenInOrder` | src/subsys/sync/futexstate.cpp:129-138 | waiters are woken first come, first served |
| `Futex.TakenLeftAt` | src/subsys/sync/futexstate.cpp:129-138 | where each waiter of a queue goes: taken in its turn if it matches and fewer than the count before it do, otherwise moved up by the number taken before it |
| `Futex.WakeIsFirst` | src/subsys/sync/futexstate.cpp:118-147 | so exactly those stop waiting, the others keep their order, and no other thread or queue is touched |
| `Futex.AddConsistent` | src/subsys/sync/futexstate.cpp:41-46 | the queues and the thread index stay consistent, and exactly this thread waits in addition |
| `Futex.WakeConsistent` | src/subsys/sync/futexstate.cpp:118-147 | they stay so when waiters are woken, and exactly the woken ones stop waiting |
| `Futex.WakeThreadConsistent` | src/subsys/sync/futexstate.cpp:48-68 | they stay so when one thread is removed, and exactly that one stops waiting |
| `Futex.MoveConsistentIff` | src/subsys/sync/futexstate.cpp:166-190 | moving waiters keeps the two indexes consistent if and only if the target is not address zero or nobody moves; moved to address zero a thread no longer counts as waiting |
| `Futex.RequeueConsistentIff` | src/subsys/sync/futexstate.cpp:166-190 | a requeue keeps the indexes consistent, wakes exactly the first waiters and keeps all others waiting, if and only if the target is not address zero or nobody moves; moved to zero a thread stops counting as waiting without having been woken |
| `Futex.HandleFutexConsistentIff` | src/subsys/sync/futexstate.cpp:70-116 | a futex call keeps the indexes consistent if and only if it does not put a waiter at address zero, by a wait or by a requeue; then only a successful wait adds a waiter, and an error changes nothing |
| `Futex.RefusedIff` | src/subsys/sync/futexstate.cpp:74-113 | by the words of the call: exactly when it is refused with -38, -22, -14 or -11, ends the transition, or is carried out |
| `Futex.HandleFutexKeepsRegistered` | src/subsys/sync/futexstate.cpp:93-102 | every waiter keeps the private flag and bit set of the call that registered it, through all later calls |
| `Futex.WaitArrives` | src/subsys/sync/futexstate.cpp:41-46 | a registered wait joins the end of the queue at its address, with bit 7 and the bit set of its words |
| `Futex.WakeByWords` | src/subsys/sync/futexstate.cpp:118-147 | a wake stops the wait of the first max(1, val) threads at its address whose calls agree with it on bit 7 and share a bit with it, all ones for plain commands, and returns their number |
| `Futex.RequeueByWords` | src/subsys/sync/futexstate.cpp:166-190 | a requeue stops the wait of the first val threads whose calls agree with it on bit 7, puts the next so many at the end of the other queue in their order, keeps the rest, and returns the number of both |
| `Futex.RequeueInPlace` | src/subsys/sync/futexstate.cpp:166-190 | to the address it comes from a requeue only wakes |
| `Futex.CallIsDone` | src/subsys/sync/futexstate.cpp:70-116 | all of this for every call that is carried out |
| `Futex.FutexState.constructor` | src/subsys/sync/futexstate.cpp:13-15 | no thread waits at first |
| `Futex.FutexState.Enqueue` | src/subsys/sync/futexstate.cpp:41-46 | the in-place update is the specified one |
| `Futex.FutexState.RemoveWaiter` | src/subsys/sync/futexstate.cpp:48-68 | the in-place search and erase is the specified removal, whatever the queues hold; it says whether the thread was found |
| `Futex.FutexState.FutexWake` | src/subsys/sync/futexstate.cpp:118-147 | the sweep over the queue is the specified wake and returns its count; where the indexes are consistent exactly the first matching waiters, by flag and bits, stop waiting |
| `Futex.FutexState.FutexRequeue` | src/subsys/sync/futexstate.cpp:166-190 | the in-place wake and move is the specified requeue and returns its count |
| `Futex.FutexState.Dispatch` | src/subsys/sync/futexstate.cpp:70-116 | the dispatch returns and leaves behind what the specified call does, with every error case; where the indexes are consistent, what its own words and those of the waiting calls say |
| `Pending.ValidatedIsExact` | src/core/engine/pending_syscall.cpp:289-335 | over any queues the executable check accepts exactly the states in which every unfinished call is well formed, the index of waiting threads agrees with the calls of all threads, and only live threads are queued; where the two indexes are consistent, exactly those in which a thread is queued if and only if its futex call waits |
| `Pending.FindsThread` | src/core/engine/pending_syscall.cpp:73-82 | a live thread is found by its carrier and by its number |
| `Pending.UpdateKeeps` | src/core/engine/pending_syscall.cpp:175-176 | changing one call together with its place in the queues keeps the invariant and the table of blocked threads |
| `Pending.UpdateBase` | src/core/engine/pending_syscall.cpp:175-176 | whatever the queues hold, changing one call keeps all calls well formed and the table of blocked threads right |
| `Pending.ReadyKeeps` | src/core/engine/pending_syscall.cpp:179-193 | giving a call its result keeps the calls well formed, takes it out of the queues and keeps those in step |
| `Pending.DeadlineKeeps` | src/core/engine/pending_syscall.cpp:122-134 | setting a deadline keeps both, for every call that may have one |
| `Pending.CompleteKeeps` | src/core/engine/pending_syscall.cpp:195-244 | completing or re-suspending a call keeps both |
| `Pending.RefreshFutexRestores` | src/core/engine/pending_syscall.cpp:256-270 | completing the calls of threads that left the queues brings queues and calls back in step, whatever the table held |
| `Pending.RefreshKeeps` | src/core/engine/pending_syscall.cpp:272-287 | granting and withdrawing retries keeps both, and the queues as they are |
| `Pending.RefreshFollows` | src/core/engine/pending_syscall.cpp:246-287 | after it an unfinished I/O call of a live thread may be retried exactly when its descriptor is ready, and waits and blocks its thread exactly when not; a futex call waits only while its thread is in the queues; the table shows exactly the threads whose calls wait |
| `LifetimeSound.AdmitForm` | src/core/engine/pending_syscall.cpp:158-177 | suspending and setting a deadline is one change of one slot, refused exactly for a deadline the call may not have |
| `LifetimeSound.HandleIoSound` | src/core/syscall/handlers.cpp:32-41 | suspending an I/O call keeps all calls well formed and the queues in step, and leaves all other calls alone; it never fails on readable, valid timeouts |
| `LifetimeSound.HandleSleepSound` | src/core/syscall/handlers.cpp:602-632 | so do both sleeps |
| `LifetimeSound.HandleSelectSound` | src/subsys/pending_io.cpp:216-272 | so does pselect6, which fails exactly on a refused mask or a timeout in control memory |
| `LifetimeSound.FutexDeadlineAllowed` | src/core/syscall/handlers.cpp:525-535 | every deadline the futex handler makes is one the call may have |
| `LifetimeSound.HandleFutexSound` | src/core/syscall/handlers.cpp:513-572 | futex waits, wakes and requeues, at whatever address, together with the refresh that follows them keep all calls well formed and only complete the calls of others |
| `LifetimeSound.FutexWaitSound` | src/core/syscall/handlers.cpp:550-555 | a registered wait is suspended with its deadline, and waits unless its address is zero |
| `LifetimeSound.CompleteSound` | src/core/engine/pending_syscall.cpp:195-244 | a call is completed exactly when it has a result or its retry brought one, goes back to waiting when the retry would block, and is refused exactly while it waits; a completion delivers the number and arguments the call was suspended with, and the stored result or the outcome of the retry |
| `LifetimeSound.OfferedTimeoutCompletes` | src/core/state/state_transition.cpp:300-315 | an offered timeout never fails: it moves the clock to the least instant at which the deadline is due and returns its result to the waiting thread |
| `LifetimeSound.StepSound` | src/core/state/state_transition.cpp:300-333 | every action, without any condition on the calls made, keeps all calls well formed and the table of blocked threads right, loses or repeats no call, leaves the calls of other threads as they are and never moves the clock back |
| `LifetimeSound.StepFollowsReadiness` | src/core/engine/pending_syscall.cpp:246-287 | after every action retries, waits and blocked threads are as the readiness of the descriptors and the futex queues say |
| `LifetimeSound.StepEnabled` | src/core/state/state_transition.cpp:300-333 | exactly when an action is possible: a live thread runs unless its call waits, and expires exactly when it waits with a deadline for anything but ready I/O |
| `LifetimeSound.ReturnIsRight` | src/core/engine/pending_syscall.cpp:150-244 | an unfinished call returns the value its phase dictates; a timeout result is returned only by a timeout and not before the deadline |
| `LifetimeSound.RunKeepsBase` | src/core/state/state_transition.cpp:300-333 | over every run the calls stay well formed, the table right and time never runs back |
| `LifetimeSound.EachCallReturnsOnce` | src/core/engine/pending_syscall.cpp:158-244 | over every run the calls returned to a thread are the calls it made, in order and each exactly once, with at most the last one outstanding |
| `LifetimeSound.UnfinishedCallIsKept` | src/core/engine/pending_syscall.cpp:150-287 | until it returns a call keeps its number, arguments, reason and deadline, and a result once given is never overwritten |
| `LifetimeQueues.StepKeepsInvIff` | src/core/state/state_transition.cpp:300-333 | from a state in which queues and calls are in step, an action keeps them so if and only if the guest does not, in it, register a wait at address zero or requeue somebody to it |
| `LifetimeQueues.SaneIsOrderly` | src/subsys/sync/futexstate.cpp:70-116 | enough for that in every state: the word at address zero cannot be read and a requeue names a second address |
| `LifetimeQueues.RunKeepsInvIff` | src/core/state/state_transition.cpp:300-333 | queues and calls are in step in every state of a run if and only if every action of it is orderly in that sense |
| `LifetimeQueues.OrderlyRunValidates` | src/core/engine/pending_syscall.cpp:289-335 | every state of an orderly run passes the check of saved states |
| `LifetimeQueues.OrderlyIffAccepted` | src/core/engine/pending_syscall.cpp:289-335 | an action is orderly if and only if no orderly run after it leads to a state that the check of saved states rejects |
| `LifetimeQueues.DisorderlyBreaksCheck` | src/subsys/sync/futexstate.cpp:70-116 | from every disorderly action the acting thread alone, orderly from then on, can lead the process to a rejected state |
| `LifetimeQueues.WaitAtZeroBreaksCheck` | src/subsys/sync/futexstate.cpp:41-46 | after any registered wait at address zero, a requeue from there by any other idle thread leads to a rejected state |
| `LifetimeQueues.RequeueToZeroBreaksCheck` | src/subsys/sync/futexstate.cpp:166-190 | after any accepted requeue that moves somebody to address zero, one more requeue from there by the same thread leads to a state that the check of saved states rejects |
| `LifetimeQueues.ThreeCallsBreakCheck` | src/subsys/sync/futexstate.cpp:166-190 | so from any state with empty queues and two idle threads a wait at 8, a requeue from 8 to 0 and one from 0 to 16 end in a rejected state |
| `LifetimeTime.CallsWaitAsAsked` | src/subsys/pending_io.cpp:30-83 | whatever call is suspended has a deadline exactly when it asked for one, by the clock it asked for and with the result for its kind, at exactly the moment asked for, or at the end of the range where the time or the clock comes within a second of it; it waits, except for a futex wait at address zero, which is complete at once |
| `LifetimeTime.TimeoutIsNotEarly` | src/core/state/state_transition.cpp:300-315 | from the making of a call over every run to the timeout that ends it, the clock then shows the moment waited for rounded up to a microsecond, or is past it already; never less than was asked for |
| `LifetimeTime.SleepIsNotCutShort` | src/core/syscall/handlers.cpp:602-624 | a sleep returns only by its timeout, so never before the moment it asked for, whatever other threads do |
| `LifetimeTime.AnsweredSleepIsPast` | src/core/syscall/handlers.cpp:615-618 | a sleep answered at once asked for a moment already past |
| `LifetimeExact.IoSuspendsIff` | src/subsys/pending_io.cpp:30-51 | an I/O call is suspended if and only if its attempt found nothing and the caller is prepared to wait, and otherwise answered with its result |
| `LifetimeExact.SleepSuspendsIff` | src/core/syscall/handlers.cpp:602-632 | a sleep is refused, answered with -22, -14 or 0, or suspended, each in exactly the stated cases |
| `LifetimeExact.SelectSuspendsIff` | src/subsys/pending_io.cpp:216-272 | pselect6 is suspended if and only if its arguments are valid, no descriptor is ready and its timeout is not zero; otherwise it is answered with -14, -22, the number found or 0 |
| `LifetimeExact.FutexSuspendsIff` | src/core/syscall/handlers.cpp:513-572 | a futex call is suspended if and only if it joins the queues, and otherwise answered with -14 or -22 for its timeout or with what the queues say |
| `LifetimeFutex.StepQueues` | src/core/state/state_transition.cpp:300-333 | the queues after an action: only a timeout and a futex call touch them |
| `LifetimeFutex.StepKeepsCalls` | src/subsys/sync/futexstate.cpp:93-102 | every orderly action keeps each waiter in the queues with the words of the call its thread waits in |
| `LifetimeFutex.RunKeepsCalls` | src/subsys/sync/futexstate.cpp:93-102 | so it holds in every state of an orderly run |
| `LifetimeFutex.WakeCompletesInTurn` | src/core/syscall/handlers.cpp:546-572 | a wake as the threads see it: of those queued at its address, the first max(1, val) whose own calls it meets get them completed with success, the calls of the others stay as they are, and their number is returned |
| `ProcessState.Process.constructor` | src/core/engine/pending_syscall.cpp:246-254 | a process without unfinished calls has queues and calls in step |
| `ProcessState.Process.FindActor` | src/core/engine/pending_syscall.cpp:73-82 | the search finds the live thread of a carrier |
| `ProcessState.Process.SyncPendingBlocked` | src/core/engine/pending_syscall.cpp:246-254 | the whole table is recomputed: a place is set exactly for a live thread whose call waits |
| `ProcessState.Process.SuspendSyscall` | src/core/engine/pending_syscall.cpp:158-177 | a new call is suspended; only a retried one may be suspended again, keeping its deadline |
| `ProcessState.Process.ReadySyscall` | src/core/engine/pending_syscall.cpp:179-193 | a waiting call gets its result and leaves the queues; anything else is refused without a change |
| `ProcessState.Process.SetPendingDeadline` | src/core/engine/pending_syscall.cpp:122-134 | the deadline is set on an unfinished call that may have it, or nothing changes |
| `ProcessState.Process.ExpirePendingSyscall` | src/core/engine/pending_syscall.cpp:150-156 | a due call becomes ready with its timeout result, any other is left alone |
| `ProcessState.Process.CompletePendingSyscall` | src/core/engine/pending_syscall.cpp:195-244 | what is returned and what is left is the specified completion |
| `ProcessState.Process.RefreshFutexPending` | src/core/engine/pending_syscall.cpp:256-270 | the loop completes exactly the calls of threads out of the queues |
| `ProcessState.Process.RefreshPendingSyscalls` | src/core/engine/pending_syscall.cpp:272-287 | the loops leave every unfinished I/O call of a live thread to be retried exactly when its descriptor is ready and its thread blocked exactly when not, and no futex call waiting whose thread left the queues |
| `ProcessState.Process.ValidatePendingSyscalls` | src/core/engine/pending_syscall.cpp:289-335 | the loops decide exactly the check of saved states |
| `ProcessState.Process.FinishIoCall` | src/core/syscall/handlers.cpp:32-41 | the handler answers or suspends as specified in place; `HandleIoSound` says what that keeps |
| `ProcessState.Process.SleepCall` | src/core/syscall/handlers.cpp:602-624 | the handler answers or suspends as specified in place; `HandleSleepSound` says what that keeps |
| `ProcessState.Process.StartPselectTimer` | src/subsys/pending_io.cpp:216-272 | the handler answers or suspends as specified in place; `HandleSelectSound` says what that keeps |
| `ProcessState.Process.HandleFutexCall` | src/core/syscall/handlers.cpp:513-572 | whatever the queues hold, the handler answers or suspends as specified in place, then completes the calls of woken threads; `HandleFutexSound` says what that keeps |
| `ProcessState.Process.Transition` | src/core/state/state_transition.cpp:300-333 | one whole action in place, completion or handler or timeout and then the refresh: it is the specified step, all calls stay well formed, none is lost or repeated, and queues and calls stay in step if and only if the action is orderly; retries and the table follow the readiness of the descriptors |
| `Observation.BitwiseExact` | src/utils/expr_ast.cpp:355-363 | and, or and xor of 64-bit registers are those of two's complement numbers of unlimited width |
| `Observation.BitwiseMeaning` | src/utils/expr_ast.cpp:355-363 | bit by bit, for numbers of any width and sign |
| `Observation.ShiftIsExact` | src/utils/expr_ast.cpp:307-310 | a shift is let through exactly when its unbounded result fits and the register can do it, and is then multiplication or flooring division by a power of two |
| `Observation.DivisionIsExact` | src/utils/expr_ast.cpp:304-306 | division and remainder truncate toward zero and are let through exactly when the result fits; the remainder of the least number by -1 is refused although it would fit |
| `Observation.TruncDivMeaning` | src/utils/expr_ast.cpp:331-336 | the quotient truncates toward zero and the remainder has the sign of the dividend |
| `Observation.OperatorIsExact` | src/utils/expr_ast.cpp:295-370 | each operator is let through exactly when its unbounded result fits, up to the named guards, and then yields it |
| `Observation.UnaryIsExact` | src/utils/expr_ast.cpp:441-467 | so is each unary operator |
| `Observation.LoadIsExact` | src/utils/expr_ast.cpp:203-211 | cutting a word down to a type's size yields the signed number in the type's own bytes |
| `Observation.EvaluationIsExact` | src/utils/expr_ast.cpp:265-374 | for every expression and memory, evaluation yields a value exactly when every result it computes fits, and the value is the meaning over the unbounded integers, with short-circuit logic and conditionals |
| `Observation.ObservationIsExact` | src/utils/expr_ast.cpp:40-51 | an observation returns exactly for read-only expressions all of whose results fit, and returns their exact value |
| `SymbolCache.CacheTypeByNameEvolves` | src/core/dwarf.cpp:662-681 | materializing a type counts every change of the type table |
| `SymbolCache.CacheTypeInfoEvolves` | src/core/dwarf.cpp:303-316 | so does noting the type of a variable |
| `SymbolCache.GetTypeInfoEvolves` | src/core/dwarf.cpp:1347-1435 | so does a lookup; a type with members is afterwards in the table as it was answered |
| `SymbolCache.ArrayByForm` | src/core/dwarf.cpp:1347-1435 | an array is made up from the name before its first bracket, without trailing spaces |
| `SymbolCache.PointerByForm` | src/core/dwarf.cpp:1347-1435 | an unknown pointer from the name before its first star, and it is kept |
| `SymbolCache.NameByForm` | src/core/dwarf.cpp:1347-1435 | any other name comes from the table, or is read into it, or is empty |
| `SymbolCache.LastWriteStays` | src/core/dwarf.cpp:662-681 | of the types written on the way the last of each name stays |
| `SymbolCache.MemberIsFirst` | src/utils/expr_ast.cpp:666-690 | the answer is the offset and type of the first member of that name; there is none exactly when no member has it or its offset is negative |
| `SymbolCache.EvaluationIsPlainIff` | src/utils/expr_ast.cpp:653-684 | one evaluation answers, and changes the symbol service, as if there were no cache, if and only if an entry it trusts still agrees with the type table |
| `SymbolCache.CacheIsTransparentIff` | src/utils/expr_ast.cpp:653-684 | over every interleaving of evaluations, lookups, materialization, reload and cleanup, however long and from whatever entry, the cached node gives the answers, and after each evaluation leaves the service in the state, of an uncached one, if and only if it trusts no entry that disagrees with the type table |
| `SymbolCache.CacheIsTransparent` | src/utils/expr_ast.cpp:653-684 | a node that starts without an entry trusts no such entry, unless one is trusted again after a multiple of 2^64 changes |
| `SymbolCache.CounterRangeSuffices` | src/core/dwarf.cpp:117-127 | that cannot happen, and the cache is transparent, over every run with fewer than 2^64 changes |
| `SymbolCache.WrappedCounterMisleads` | src/core/dwarf.cpp:117-127 | a run of operations over which the cached answers differ: an evaluation, exactly 2^64 changes of which the last notes another layout, and an evaluation that answers the old offset |
| `SymbolCache.SymbolService.MarkSymbolChange` | src/core/dwarf.cpp:119-127 | the exposed counter is the number of changes modulo 2^64 |
| `SymbolCache.SymbolService.CacheByName` | src/core/dwarf.cpp:662-681 | the in-place update is the specified one |
| `SymbolCache.SymbolService.TypeInfoOf` | src/core/dwarf.cpp:1347-1435 | the lookup answers and updates the table as specified, for arrays, pointers and plain names |
| `SymbolCache.SymbolService.Clear` | src/core/dwarf.cpp:828-856 | everything is dropped and the change counted |
| `SymbolCache.MemberAccessNode.EvalOffset` | src/utils/expr_ast.cpp:653-694 | the member search and the update of the mutable cache fields are the specified ones, the counter being read after the lookup |
| `Writev.ClippedTotal` | src/subsys/io.cpp:134-138 | clipping leaves min(sum of lengths, 0x7ffff000) bytes |
| `Writev.ClippedIsPrefix` | src/subsys/io.cpp:134-138 | and they are the first ones, each at its address |
| `Writev.PreClippedAgrees` | src/subsys/io.cpp:131 | clipping a single segment early agrees with the general loop |
| `Writev.ItemExact` | src/subsys/io.cpp:119-126 | an item is good exactly with sixteen readable bytes, its two words being their digits, and a length up to 2^63 - 1; otherwise it is refused with 14 or 22 |
| `Writev.ImportRejects` | src/subsys/io.cpp:119-126 | the first bad item decides the error |
| `Writev.RangeMeans` | src/subsys/io.cpp:29-37 | a range is refused beyond 2^63 - 1 and not supported beyond the last page below 2^47 |
| `Writev.RangesFirst` | src/subsys/io.cpp:132-133 | the first segment not in range decides |
| `Writev.RefusedBeforeImport` | src/subsys/io.cpp:99-114 | what comes of a bad descriptor, too many segments, a vector out of range and an empty one |
| `Writev.RefusedAfterImport` | src/subsys/io.cpp:115-161 | what comes of a bad item and of segments out of range |
| `Writev.StagedBytes` | src/subsys/io.cpp:131-161 | what is staged is exactly the first min(sum, 0x7ffff000) bytes of the segments |
| `Writev.CommitIsWhole` | src/subsys/io.cpp:131-161 | because staging is limited to 64 MiB a committed write is never cut: it is the whole concatenation; the limit is hit exactly by larger vectors, and a commit happens under exactly the named conditions |
| `Writev.CommittedBytes` | src/subsys/io.cpp:99-170 | the sixteen bytes of each item of the vector are the base-256 digits of its base and its length, and every committed byte is the byte its segment holds, in order, for up to 1024 segments |
| `Writev.ImportVector` | src/subsys/io.cpp:116-127 | the import loop reads the vector; the first bad item decides the error |
| `Writev.CheckRanges` | src/subsys/io.cpp:132-133 | the first segment out of range decides |
| `Writev.ClipVector` | src/subsys/io.cpp:134-138 | the in-place loop clips as specified and its subtraction never goes below zero |
| `Writev.Stage` | src/subsys/io.cpp:155-161 | the staging loop fills the buffer with the gathered bytes, or fails when one cannot be read |
| `Writev.EmuWritev` | src/subsys/io.cpp:99-170 | the whole call returns the specified error, exception or payload; a payload is what the segments hold whose bases and lengths the bytes at the vector spell |
| `ParallelFrontier.OfferStep` | src/core/search/frontier.cpp:47-70 | one turn of the propagation loop keeps every depth a real walk and every known edge relaxed or owed |
| `ParallelFrontier.SpreadSound` | src/core/search/frontier.cpp:47-70 | when the work list is empty every expanded state has its successors at most one step deeper |
| `ParallelFrontier.SpreadGrows` | src/core/search/frontier.cpp:47-70 | every offer is taken, and depths only fall |
| `ParallelFrontier.PropagatedState` | src/core/search/frontier.cpp:47-70 | the state an offer goes to is added as pending, left alone, or brought nearer, a depth cut being opened again |
| `ParallelFrontier.OfferProgresses` | src/core/search/frontier.cpp:47-70 | the loop terminates: an improvement lowers the sum of depths |
| `ParallelFrontier.UpdateIndexOk` | src/core/search/frontier.cpp:21-46 | the pending, layer and phase indexes stay exact when a state changes |
| `ParallelFrontier.AdmitSound` | src/core/search/frontier.cpp:72-82 | admitting a state keeps the frontier sound |
| `ParallelFrontier.AdmitExact` | src/core/search/frontier.cpp:72-82 | what admitting changes, told without the propagation: that state as offered, and no other but nearer |
| `ParallelFrontier.LeaseSound` | src/core/search/frontier.cpp:135-146 | so does leasing one |
| `ParallelFrontier.CommitSound` | src/core/search/frontier.cpp:147-189 | an accepted lease was never used before, and writing its result leaves only its successors to be published |
| `ParallelFrontier.AcceptableMeans` | src/core/search/frontier.cpp:147-177 | which results are taken: of the current lease, of a kind it allows, with fitting successors and reason and room for them |
| `ParallelFrontier.CommitExact` | src/core/search/frontier.cpp:178-186 | what a taken result leaves, field by field: lease gone, successors and phase as reported, pending again exactly for a depth cut whose state has come nearer |
| `ParallelFrontier.AcceptReported` | src/core/search/frontier.cpp:178-186 | the record of all reported results stays in step with the states |
| `ParallelFrontier.LossSound` | src/core/search/frontier.cpp:190-204 | so does losing a worker, whose leases are used up |
| `ParallelFrontier.VerdictsAreTrue` | src/core/search/frontier.cpp:205-211 | complete means the frontier holds exactly the reachable states at their shortest distances; bounded means exactly those at every depth within the limit above which no budget cut the search off, and, where none did, that some state at the limit has successors |
| `ParallelFrontier.StatusTold` | src/core/search/frontier.cpp:205-211 | failed if and only if a failure was committed; running, bounded or complete if and only if there is still work, something beyond the limit or a budget result, or neither |
| `ParallelFrontier.LowestIsExact` | src/core/search/frontier.cpp:90-93 | breadth first, everything down to the depth of the leased state is known at its exact distance, as far as no budget or failure cut the search off above |
| `ParallelFrontier.UncutLevelsAreExact` | src/core/search/frontier.cpp:205-211 | depths are distances as far down as nothing is active, the limit allows and nothing was cut off |
| `ParallelFrontier.Frontier.constructor` | src/core/search/frontier.cpp:10-17 | an empty frontier is sound |
| `ParallelFrontier.Frontier.Update` | src/core/search/frontier.cpp:41-46 | the indexes follow the state |
| `ParallelFrontier.Frontier.Propagate` | src/core/search/frontier.cpp:47-70 | the loop computes the specified propagation; the capacity exceptions inside it cannot be raised |
| `ParallelFrontier.Frontier.Admit` | src/core/search/frontier.cpp:72-82 | refused exactly beyond the limit or without room, otherwise the specified propagation, told as a change of that state and of none other but nearer |
| `ParallelFrontier.Frontier.Select` | src/core/search/frontier.cpp:83-109 | the policy's choice: newest, oldest of the lowest active layer, or oldest of the smallest priority; none only when nothing is pending or a lower layer is in flight |
| `ParallelFrontier.Frontier.Lease` | src/core/search/frontier.cpp:83-146 | a selected state is leased under a number never used before; breadth first at its exact distance, unless the search was cut off above it |
| `ParallelFrontier.Frontier.Commit` | src/core/search/frontier.cpp:147-189 | a result is taken exactly for the current lease with a compatible kind and room for its successors, at most once per lease; the state is then no longer leased, has the reported successors and the reported phase, or is pending exactly for a depth cut above the limit; everything is relaxed afterwards and a refusal changes nothing |
| `ParallelFrontier.Frontier.WorkerLost` | src/core/search/frontier.cpp:190-204 | exactly the leases of that worker are taken back, and their number is returned |
| `ParallelFrontier.Frontier.GetStatus` | src/core/search/frontier.cpp:205-211 | failed if and only if a failure was committed; the verdict from the counters is the true one and means what it says about the graph, the state beyond the limit included |

## Left out

- Random walks (`exec_rand`), statistics, the status monitor, exponential fits and all printing; the random walk's interrupt clears only the set of discovered states, so the session theorems are about breadth-first and depth-first runs.
- State stores, snapshots, page capture and restore, ptrace and the tracing of real processes: a transition is a function of state, action and choice.
- Hash collisions between states; the two-level map of published depth-first results is a map keyed by pairs.
- `CKPT_DISCARD` results, which the choice enumeration refuses before either search could see them.
- Exceptions of the search are not modelled beyond the refusals of the choice enumeration.
- In `Frontier`: allocation failure (the poisoned flag), the counters, and leasing with a locality score; object transport, worker protocol and process management of the parallel search.
- Thread creation and exit, waking of waiters in a discarded memory range, and exits of whole processes: the set of live threads is fixed during a run.
- A pselect6 call that is already waiting is not rescanned when a descriptor becomes ready, so no liveness is stated for it; the guest's descriptor sets and the remaining time written back are not modelled.
- The descriptor, pipe and socket state behind readiness and retries, `emu_select_scan` and `emu_poll`.
- The futex handler's own writes to the table of blocked threads, which the refresh that follows recomputes from scratch.
- An exception after a call was suspended is an error without a resulting state.
- In the bakery lock: machine integers for tickets, weak memory and the output loop inside the critical section, which is one step; the multiprocess variant over a file, whose reads are another sequence of accesses.
- Expression nodes for member access, array indexing, address-of, dereference, casts and sizeof in `Observation` (their loads enter as variables), the behaviour of the operators outside an observation, the parser and the printer.
- Type sizes and the other caches of the symbol service; how a type is read from debug information is an arbitrary function of its name and the types known.
- `CacheIsTransparent`: sufficient only, since an entry trusted after a multiple of 2^64 changes may by chance still be right; `CacheIsTransparentIff` is the exact form.
- `OrderlyRunValidates`: one direction only, since a run may put a waiter at address zero and never meet a rejected state; `OrderlyIffAccepted` is the exact form.
- The check of saved states is not a step of the model: where a state is captured (src/core/state/state.cpp:1616) and before a timeout (src/core/state/state_transition.cpp:210) a rejected state raises an exception, while `Step` and `TimeoutOffered` go on.
- What files and sockets do with the bytes `Writev` hands on.
- File locks, Raft plugins, message parsers, trace tools, the terminal interface and configuration.
