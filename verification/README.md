# Verified models of libpetri's graph scripts, net semantics and nets

This project models the parts of libpetri that decide something about nets, and proves what
those parts promise. `dafny verify dfyconfig.toml` checks it with Dafny 4.11.

| files | what they model |
|---|---|
| `Order`, `Graphs`, `Tarjan`, `Reduction` | `scripts/proof-graph.py`: the adjacency builder, depth-first reachability, Tarjan's algorithm with an explicit work stack, and the transitive reduction computed on the condensation |
| `Wrappers`, `OutputSpecs`, `OutputLaws`, `PetriNets`, `FiringLaws`, `Explorer`, `Verdicts` | `scripts/conformance-corpus.py`: output branches, the one-pass duplicate check, the firing rule with cardinalities, read, inhibitor and reset arcs, timeouts and forwarded inputs, the capped breadth-first exploration, and the verdicts drawn from it |
| `LinearBounds`, `DeadArcs` | linear place bounds and dead-arc detection (`rust/libpetri-core/src/dead_arcs.rs`) over that same firing rule |
| `DebugNet`, `DebugArcs`, `DebugLaws`, `DebugTheorems`, `DebugLiveness` | the net of the debug UI: connection, session phases, the serial message router, replay playback and breakpoint edits |
| `Playback` | the replay buffer with its undo, and playing on from breakpoint to breakpoint |
| `AgentTurn`, `SessionHost` | the README's agent turn, its version without `give-up`, and two turns composed into a session |
| `OpenNet` | the node gadget of the open-net benchmark, closed by the environment its contract describes |
| `FanOut` | the tool fan-out that joins two results by a fresh name |
| `Masking`, `RustTokens`, `LeanTokens`, `LeanStart` | the lexers that blank comments and literals of Lean and Rust sources |

## How the models are cut

- A node of a graph is the rank of its name: names are only compared for equality and order.
- The graph algorithms, the exploration, the dead-arc search, the duplicate check, the replay
  buffer and the maskers are imperative, as in the source, and each method is proved against a
  specification. The nets are state machines, and the theorems about them speak of every run.
- In the debug net and the fan-out an action starts (its inputs are taken) and completes (one
  output leg is written) in two separate steps, with anything in between. The token laws count
  what running actions hold. The environment may deliver messages, selections, ticks and links at
  any time, a transition that waits for a click may start whenever its other inputs allow, and
  every handler may take its failure leg.
- `LinearBounds.Sound` (no place is an input twice, every input needs a token) is what the net
  generator produces. The linear bounds need it, and the firing relation its first half.

## Where the code and its comments differ

- The comment on `transitive_reduction` says that an edge is dropped when its end is reached
  another way. For an edge between two components the code does that exactly unless the only
  other way is a parallel edge between the same two components (`Reduction.FollowsCommentIff`).
  `Reduction.ParallelEdgesKept` is an instance: two mutually dependent nodes both keep their edge
  to a third.
- The comments of the debug UI state its place invariants without the running actions, which
  hold tokens between start and completion. `DebugTheorems.PlaceInvariants` counts them.
- `_Lexer` takes a raw string or character literal for one exactly if a character stands before
  it that belongs to no identifier (`Masking.RawStringIff`, `Masking.CharLiteralIff`). At the very
  start of a source the character before is the empty string, which Python finds in every
  string, so a literal there is not recognised. A space before a source changes nothing in what
  is left of it exactly if no such literal starts it (`LeanStart.SpaceChangesNothingIff`). Code
  behind such a literal can be blanked with it (`Masking.StartHidesCode`), which is not so one
  character later (`Masking.SpaceShowsCode`).

## Conditions that are exact

- `duplicate_in_branch` agrees with the enumeration of branches if and only if what two children
  of an `and` share is shared alive, that is, in a part that offers a branch
  (`OutputSpecs.DuplicateInBranch`). Section IO-012 of the specification asks for two or more
  children of every exclusive choice, and then this always holds. `OutputSpecs.EmptyChoice` shows
  a tree outside the specification where it does not.
- `LinearBounds.NeverRaises`, the condition of `LinearBound`, holds if and only if no firing from
  any marking raises the weight (`LinearBounds.NeverRaisesIff`), for every transition that some
  marking enables and that resets no weighted place it only reads. It covers outcomes that forward a
  drained input, which the verifier's linear routes refuse; `LinearBounds.SurplusMatters` shows
  why a balance of required tokens does not suffice for these.
- The plateau of the budget sweeps starts exactly at the number of activations that can start
  (`OpenNet.BudgetPlateau` and `OpenNet.BudgetBinds`).

## Model

| member | source | states |
|---|---|---|
| Graphs.Adjacency | scripts/proof-graph.py:84-90 | every node has an entry, and a successor is exactly the end of an edge between two different given nodes |
| Order.Sorted | scripts/proof-graph.py:112-112 | the elements in strictly increasing order, each once |
| Reduction.Reachable | scripts/proof-graph.py:93-102 | the nodes seen are exactly those some start reaches, for starts in the graph or not |
| Reduction.SearchStep | scripts/proof-graph.py:96-101 | visiting one node keeps: what is seen or on the stack was reached, and successors of the seen are seen or stacked |
| Tarjan.Search.Start | scripts/proof-graph.py:112-116 | the state after first sight of a node, which is the step `Enter` is about |
| Tarjan.Enter | scripts/proof-graph.py:121-126 | visiting an unvisited successor keeps the ten-part invariant of the search |
| Tarjan.Yield | scripts/proof-graph.py:120-120 | moving an iterator past a node off the stack leaves only that node unaccounted for |
| Tarjan.Lower | scripts/proof-graph.py:129-130 | taking the index of a stacked successor into the low link keeps the invariant |
| Tarjan.Merge | scripts/proof-graph.py:133-135 | leaving a node that is no root hands its part of the stack and its low link to the node below and keeps the invariant |
| Tarjan.SegmentIsComponent | scripts/proof-graph.py:136-143 | a node whose low link equals its index has above it on the stack exactly the nodes it reaches and is reached from |
| Tarjan.Emit | scripts/proof-graph.py:136-146 | taking such a component off the stack, with its least member as representative, keeps the invariant |
| Tarjan.Search.PopComponent | scripts/proof-graph.py:136-146 | the stack is cut at the root, the members leave the on-stack set, and each is mapped to the least of them |
| Tarjan.Search.Follow | scripts/proof-graph.py:120-130 | one successor is entered, lowered or skipped; the invariant stays, and either a new node is numbered or the iterator gets shorter |
| Tarjan.Search.Leave | scripts/proof-graph.py:133-146 | the end of a visit keeps the invariant, root or not |
| Tarjan.Search.Visit | scripts/proof-graph.py:110-146 | a visit ends with nothing suspended, the invariant kept, its node numbered and no number lost |
| Tarjan.Sccs | scripts/proof-graph.py:105-151 | every node gets the least node of its component, and two nodes the same one exactly if each reaches the other |
| Reduction.Condense | scripts/proof-graph.py:160-166 | an edge of the condensation is exactly a pair of different components some edge joins |
| Reduction.CondensedReach | scripts/proof-graph.py:159-166 | reachability in the graph is reachability between components in the condensation |
| Reduction.ReachSets | scripts/proof-graph.py:167-169 | each component's set is exactly what its successors reach |
| Reduction.KeepComponents | scripts/proof-graph.py:170-176 | a successor is kept exactly if no other successor reaches it |
| Reduction.SelectEdges | scripts/proof-graph.py:177-182 | the edges kept are exactly those inside a component or into a kept one |
| Reduction.SurvivesIffNoDetour | scripts/proof-graph.py:170-182 | an edge between components survives, in terms of the graph itself, exactly if the condensation has no detour around it |
| Reduction.ReductionReaches | scripts/proof-graph.py:154-158 | every reachable node stays reachable over surviving edges, by induction on the nodes in between |
| Reduction.ReductionPreservesReach | scripts/proof-graph.py:154-158 | a reduction has exactly the reachability relation of the graph, cycles included |
| Reduction.TransitiveReduction | scripts/proof-graph.py:154-183 | the result keeps exactly the surviving edges and exactly the reachability of the input |
| Reduction.OtherWayIff | scripts/proof-graph.py:154-158 | for an edge between components there is another way exactly if a third component lies between or a parallel edge exists |
| Reduction.FollowsCommentIff | scripts/proof-graph.py:155-158 | the code drops an edge between components as its comment says exactly unless a parallel edge is the only other way |
| Reduction.ParallelEdgesKept | scripts/proof-graph.py:155-158 | an input on which two parallel edges survive although each end is reached another way |
| OutputSpecs.InCross | scripts/conformance-corpus.py:309-312 | the branches of an `and` are exactly the concatenations of one branch of each child |
| OutputSpecs.LeafPlacesAreClaimed | scripts/conformance-corpus.py:187-201 | the places on the leaves are exactly those some branch names, if every choice has an option |
| OutputSpecs.LiveIsNamed | scripts/conformance-corpus.py:298-312 | for every tree: it has a branch, and a branch naming a given place, exactly if the tree says so without enumeration |
| OutputSpecs.LiveSharesMeansRepeats | scripts/conformance-corpus.py:184-203 | for every tree: some enumerated branch names a place twice exactly if two children of an `and` that offers a branch share a live place |
| OutputSpecs.LiveSharesIsShares | scripts/conformance-corpus.py:195-201 | what the pass looks for is implied by that, and is the same if every choice has an option |
| OutputSpecs.Leaves | scripts/conformance-corpus.py:187-201 | the accumulator is the set of leaf places, and the flag says whether some `and` shares one |
| OutputSpecs.DuplicateInBranch | scripts/conformance-corpus.py:184-203 | the one pass misses no branch that names a place twice, and agrees with the enumeration if and only if what is shared is shared alive, so whenever every choice has an option |
| OutputSpecs.EmptyChoice | scripts/conformance-corpus.py:195-201 | a tree with an empty choice where the condition fails: a duplicate is reported though there is no branch |
| OutputLaws.AlternativesAreWrites | scripts/conformance-corpus.py:298-312 | the enumerated branches are exactly those an action may write: one child of each choice, every child of each `and`, one after the other |
| OutputLaws.TimeoutChildExactly | scripts/conformance-corpus.py:325-337 | under a timeout every leaf is deposited, in reading order, a forward as a forward; it is an error exactly if a choice or timeout is among the nodes |
| OutputLaws.TimeoutLeavesExactly | scripts/conformance-corpus.py:322-343 | an expired timeout is the first one in reading order, and there is none exactly if no node is one |
| OutputLaws.LeafPlacesAreRead | scripts/conformance-corpus.py:187-201 | the leaf places are those of the places and forward targets in reading order |
| FiringLaws.TakesTheMost | rust/libpetri-core/src/input.rs:82-115 | an input is satisfied exactly if some amount it allows is there, and takes the most it allows |
| FiringLaws.EnabledIffMayStart | scripts/conformance-corpus.py:358-364 | a transition is enabled exactly if every input may take some amount, reads are marked and inhibitors empty |
| FiringLaws.OutcomesIffMayWrite | scripts/conformance-corpus.py:346-356 | its outcomes are exactly what a completing action may write and what an expired timeout deposits |
| FiringLaws.FireIffBecomes | scripts/conformance-corpus.py:366-385 | the marking afterwards is, place by place, what is left unless reset, one token for each deposit, and what each forward passes on |
| FiringLaws.StepIffMayStep | scripts/conformance-corpus.py:366-385 | the steps of a net are exactly those of this relation, for transitions with distinct input places |
| PetriNets.Consume | scripts/conformance-corpus.py:370-377 | the marking after the inputs are taken and the resets applied, and how many tokens each input took |
| PetriNets.Produce | scripts/conformance-corpus.py:378-385 | the marking after one outcome, forwards depositing what was taken |
| PetriNets.Successors | scripts/conformance-corpus.py:366-385 | yields exactly the outcomes of the enabled transitions with their names, in order and with repetitions |
| PetriNets.InAllFirings | scripts/conformance-corpus.py:366-385 | a pair is yielded exactly if some outcome of some enabled transition leads to it |
| PetriNets.Invariant | scripts/conformance-corpus.py:391-408 | what holds initially and is kept by every step holds of every reachable marking |
| Explorer.ClosedListIsComplete | scripts/conformance-corpus.py:391-408 | a list with the initial marking and all successors of its members has every reachable marking |
| Explorer.Expand | scripts/conformance-corpus.py:399-407 | expanding one marking lists its new successors or records that some reachable marking was cut |
| Explorer.Explore | scripts/conformance-corpus.py:391-408 | every listed marking is reachable, listed once and within the caps, and the flag is true exactly if the list is the whole reachable set |
| Verdicts.BadIffViolates | scripts/conformance-corpus.py:411-432 | each of the six properties is called bad exactly where tokens on the named places, or what may still start, violate it |
| Verdicts.Decide | scripts/conformance-corpus.py:902-909 | `violated` has a reachable violation, `holds` means no reachable marking violates, `undecided` only if the net exceeds the caps |
| Verdicts.RestingIffStepsReapable | scripts/conformance-corpus.py:387-389 | quiescent means that every step still possible is one a deadline may disable, if every output offers a branch |
| Verdicts.QuiescentIffStuck | scripts/conformance-corpus.py:387-389 | without deadlines, quiescent means exactly that no step is possible |
| LinearBounds.ChangeIsBalance | scripts/conformance-corpus.py:370-385 | the weight an outcome gives less what the inputs take is exactly its balance and what becomes of the drained surplus |
| LinearBounds.FiringWeight | python/libpetri/verification.py:431-436 | no outcome raises the weight, or each keeps it, under the stated condition on weights |
| LinearBounds.CountsStayNonNegative | scripts/conformance-corpus.py:366-385 | no reachable marking has a negative count, drains and resets included |
| LinearBounds.LinearBound | python/libpetri/verification.py:431-436 | weights no outcome raises bound every reachable marking by the initial one |
| LinearBounds.LinearInvariant | scripts/conformance-corpus.py:366-385 | weights every outcome balances keep their sum in every reachable marking |
| LinearBounds.NeverRaisesIff | scripts/conformance-corpus.py:366-385 | the condition on weights holds if and only if no firing from any non-negative marking raises them, for a transition that can be enabled and resets no weighted place it only reads |
| LinearBounds.AlwaysBalancesIff | scripts/conformance-corpus.py:366-385 | the condition on invariant weights holds if and only if every firing keeps them, for a transition that can be enabled and whose reset places neither inhibit nor drain |
| LinearBounds.SurplusMatters | scripts/conformance-corpus.py:713-721 | a firing that raises the weight although no outcome has a positive balance, because a drained input is forwarded |
| DeadArcs.FindDeadArcs | rust/libpetri-core/src/dead_arcs.rs:82-127 | the arcs reported are exactly the read, inhibitor and reset arcs on dead places, in transition order and by kind |
| DeadArcs.FoundIsReported | rust/libpetri-core/src/dead_arcs.rs:82-127 | one entry for each read, inhibitor or reset arc on a place nothing feeds, in the order of transitions, kinds and lists, and no other |
| DeadArcs.ReportedIff | rust/libpetri-core/src/dead_arcs.rs:75-81 | an arc is reported exactly if it is an arc of the net, its place is no input and on no output leaf, no environment place, and unmarked |
| DeadArcs.PruneIsClean | rust/libpetri-core/src/dead_arcs.rs:60-64 | the pruned net has no arc on a dead place, and its transitions are otherwise those of the net |
| DeadArcs.UntouchedStaysEmpty | rust/libpetri-core/src/dead_arcs.rs:75-81 | a firing leaves an empty place empty that is no input and on no output leaf, forwards and timeouts included |
| DeadArcs.DeadStaysEmpty | rust/libpetri-core/src/dead_arcs.rs:75-81 | a dead place is empty along every run, whatever the environment puts on its own places |
| DeadArcs.PrunedFiresAlike | rust/libpetri-core/src/dead_arcs.rs:60-64 | with the dead places empty, dropping dead inhibitor and reset arcs changes neither enabling nor firing |
| DeadArcs.PruningKeepsRuns | rust/libpetri-core/src/dead_arcs.rs:60-64 | dropping those arcs and the transitions with a dead read arc leaves exactly the same runs |
| DeadArcs.ReportedArcsAreDead | rust/libpetri-core/src/dead_arcs.rs:75-127 | pruning by what the search reports leaves exactly the same runs |
| DebugLaws.StartHolds | debug-ui/src/net/definition.ts:181-247 | starting an action takes off the marking exactly what the action then holds, for each of six resources |
| DebugLaws.LegReturns | debug-ui/src/net/definition.ts:382-437 | every leg, failure legs included, gives back exactly what the action holds |
| DebugLaws.PermitMoves | debug-ui/src/net/definition.ts:266-273 | exactly the legs that end the handling of a message give the permit back |
| DebugLaws.NextKeeps | debug-ui/src/net/definition.ts:168-179 | every start, completion, arrival and delivery keeps all token laws and the router's laws |
| DebugLaws.ReachableKeeps | debug-ui/src/net/definition.ts:1175-1183 | they hold in every reachable state |
| DebugArcs.EnabledIffArcs | debug-ui/src/net/definition.ts:108-272 | a transition is enabled exactly as its row of inputs, reads and inhibitors says |
| DebugArcs.ConsumeByArcs | debug-ui/src/net/definition.ts:108-247 | a start takes one token from each input of its row and changes nothing else |
| DebugArcs.LegsByArcs | debug-ui/src/net/definition.ts:382-437 | a completion writes one token to each place of its leg's row, changes nothing else, and does with the message what the leg says |
| DebugArcs.CanStartIffArcs | debug-ui/src/net/definition.ts:249-273 | a transition can start exactly if its row allows, it is not running, and the message it takes is there |
| DebugArcs.CanCompleteIffArcs | debug-ui/src/net/definition.ts:277-293 | a running action can write exactly the legs of its row, the router's by the message's type |
| DebugArcs.StartsByArcs | debug-ui/src/net/definition.ts:181-247 | the marking after a start is the one its row determines, and no other |
| DebugArcs.CompletesByArcs | debug-ui/src/net/definition.ts:772-820 | the marking after a completion is the one the leg's row determines, and no other |
| DebugArcs.InitialTokens | debug-ui/src/net/definition.ts:1175-1183 | the places that hold a token to begin with are exactly those named, and nothing is under way |
| DebugLiveness.EveryModeIsLive | debug-ui/src/net/definition.ts:168-179 | from every reachable state some run leads to no session, to subscribing, to a live session and to a paused, playing and breakpoint-stopped replay |
| DebugLiveness.EveryLegIsLive | debug-ui/src/net/definition.ts:1141-1168 | from every reachable state some run writes any given leg, success or failure, of any given transition |
| DebugTheorems.PlaceInvariants | debug-ui/src/net/places.ts:18-27 | the place invariants of phases, modes, `uiState`, breakpoints, connection and permit, with running actions counted, in every reachable state |
| DebugTheorems.ArrivalOrder | debug-ui/src/net/definition.ts:261-264 | the messages dealt with, in transit and waiting are together exactly the arrivals in order; at most one is in transit |
| DebugTheorems.SwitchLeavesNothing | debug-ui/src/net/definition.ts:199-232 | while a session switch runs, no token and no running action of the session it left is anywhere |
| DebugTheorems.ExactlyOneSwitch | debug-ui/src/net/definition.ts:177-179 | with a selection, a connection and `uiState`, exactly one of the four switches can start unless a playback action holds the mode |
| DebugTheorems.NeverWedged | debug-ui/src/net/definition.ts:266-273 | a routed message can be taken at once, or one running action outside the router frees its handler on every leg |
| DebugTheorems.LettersAreLogged | debug-ui/src/net/definition.ts:365-378 | a dead letter can always be logged at once |
| DebugTheorems.DistanceZeroIffReady | debug-ui/src/net/places.ts:97-98 | the distance is zero exactly if the permit is on its place, and two with a message routed |
| DebugTheorems.PermitComesBack | debug-ui/src/net/definition.ts:266-273 | every ending of a router action lowers the distance, and no other step raises it but routing the next message |
| DebugTheorems.AtMostTwoEndings | debug-ui/src/net/definition.ts:266-273 | along every stretch of a run, a routed message's permit is back after at most two endings of router actions |
| DebugTheorems.InternalStepLowers | debug-ui/src/net/definition.ts:249-273 | every start of the router and every completion, whatever leg is written, uses up patience |
| DebugTheorems.QuietIffAllDealtWith | debug-ui/src/net/definition.ts:266-273 | in a reachable state no such step is possible exactly if every message is dealt with and no action is running |
| DebugTheorems.EveryMessageIsDealtWith | debug-ui/src/net/definition.ts:249-273 | from every reachable state, however the router's starts and all completions go on, they come to rest within a stated number of steps, and at rest every message that arrived is dealt with |
| DebugTheorems.NetComesToRest | debug-ui/src/net/definition.ts:249-273 | such a continuation to rest exists from every reachable state, with no action left running |
| Playback.ReplayBuffer.OnBatch | debug-ui/src/net/definition.ts:526-544 | handled exactly if the batch, the checkpoint builder and the timeline accept it; then it is appended in place with the checkpoints built from it, otherwise events, checkpoints and state are as before |
| Playback.PlaysThrough | debug-ui/src/net/definition.ts:772-820 | playing on steps over every remaining event once, in order, stops once before each breakpoint, and ends within two auto-steps an event and one |
| Playback.StopsDoNotMatter | debug-ui/src/net/definition.ts:763-770 | the state at the end shows all remaining events applied in order, with their number and no breakpoint left, however often playback stopped |
| AgentTurn.RunLaws | scripts/readme/agent-net.ts:24-55 | along a run no request is lost or duplicated, and every firing burns fuel |
| AgentTurn.RunsAreBounded | scripts/readme/agent-net.ts:24-55 | for any requests and permits every run has at most three firings for each |
| AgentTurn.BoundIsReached | scripts/readme/agent-net.ts:24-55 | the bound is sharp for every number of requests, at least one, and of permits |
| AgentTurn.FixedRests | scripts/readme/agent-net.ts:49-52 | the net rests exactly when every request is answered or failed |
| AgentTurn.RestingStatesExactly | scripts/readme/agent-net.ts:24-55 | the states the net can come to rest in are exactly those with every request answered or failed and permits left only if none failed |
| AgentTurn.FiresByArcs | scripts/readme/agent-net.ts:24-55 | a firing can happen, with this result, exactly if it replaces the tokens on its input arcs by those on its outputs, and `give-up` only with no permit left |
| AgentTurn.FixedNeverStuck | README.md:145-148 | with `give-up` no run gets stuck |
| AgentTurn.StuckRunLengths | README.md:133-137 | without it one request gets stuck, in exactly the run lengths from 2k + 2 to 3k + 2 for k permits |
| SessionHost.RunsAreBounded | scripts/readme-images.ts:383-396 | for any sessions and two budgets every run ends within a stated bound |
| SessionHost.Rests | scripts/readme-images.ts:525-530 | at rest every session is closed or escalated, tokens lie only on the stated sinks, and an answer waits only beside an escalation, with exact counts |
| SessionHost.FiresByArcs | scripts/readme-images.ts:383-396 | the same of the host, each instance with its own budget |
| SessionHost.RestingHostsExactly | scripts/readme-images.ts:525-530 | the states the host can come to rest in are exactly those where each side has ended as a turn on its own can, with every matching pair of answers closed |
| SessionHost.OneAfterTheOther | scripts/readme-images.ts:383-396 | any number of sessions can be done before the next is opened |
| OpenNet.RunLaws | typescript/scripts/bench-open-net.ts:90-166 | every run keeps the token laws of budget, mutex, edges and arrivals, and burns fuel |
| OpenNet.RunsAreBounded | typescript/scripts/bench-open-net.ts:90-166 | every run of every size ends within four firings an arrival and one |
| OpenNet.ContractHolds | typescript/scripts/bench-open-net.ts:142-165 | at every resting marking each count clause holds exactly, or as an upper bound beside a halt, and nothing else is marked |
| OpenNet.NeverTooMany | typescript/scripts/bench-open-net.ts:160-164 | no reachable marking exceeds a count clause |
| OpenNet.MarkingEquation | typescript/scripts/bench-open-net.ts:114-139 | every place of a reachable marking, edges and inputs one by one, is what the firings of the run put there less what they took |
| OpenNet.DeliveredAtRest | typescript/scripts/bench-open-net.ts:142-159 | at rest the environment has delivered just what the contract describes and decided once about the halt |
| OpenNet.HaltStops | typescript/scripts/bench-open-net.ts:114-139 | after a halt nothing starts or is skipped along any run |
| OpenNet.RoutingsExactly | typescript/scripts/bench-open-net.ts:118-123 | a routing of the edges can happen exactly if they choose for themselves or all go the same way |
| OpenNet.FiresByArcs | typescript/scripts/bench-open-net.ts:109-165 | a firing can happen, with this result, exactly if it moves one token along each of its arcs, and a start or skip only while not halted |
| OpenNet.BudgetPlateau | typescript/scripts/bench-open-net.ts:16-22 | two budgets no smaller than the activations possible reach the same markings one to one, up to the budget place |
| OpenNet.BudgetBinds | typescript/scripts/bench-open-net.ts:240-262 | below that, for every shape, serialised or not, one more token of budget lets one more activation be under way at once |
| FanOut.PerformKeepsBranches | scripts/readme-images.ts:415-432 | every start and completion keeps: the two branches carry the same names, each at most once and minted before |
| FanOut.NeverCrossed | scripts/readme-images.ts:433-441 | in any interleaving a join can only pair the two tokens of one fan-out, and never writes `CROSSED` |
| FanOut.RestMergesEveryPlan | scripts/readme-images.ts:410-444 | a run at rest has merged exactly the multiset of plans and holds nothing else |
| FanOut.RunsAreBounded | scripts/readme-images.ts:410-444 | every run has at most eight starts and completions a plan, and rests exactly when it has had all of them |
| FanOut.PerformsByArcs | scripts/readme-images.ts:410-444 | a start or completion can happen, with this result, exactly if its arcs say so, names minted and matched included |
| Masking.StringEndsAtFirstUnescaped | scripts/lean-fidelity-check.py:134-146 | a string ends right after the first quote preceded by an even number of backslashes, or with the text |
| Masking.BlockEndsWhereBalanced | scripts/lean-fidelity-check.py:77-89 | a block comment ends at the first position where its closers balance its openers, or with the text |
| RustTokens.RustTokenIff | scripts/lean-fidelity-check.py:69-110 | what is taken for a comment or literal, and where it ends, is exactly what a relation on the characters says of line and nested comments, strings, byte and raw strings and character literals |
| RustTokens.MaskedIsTiled | scripts/lean-fidelity-check.py:55-111 | the text falls into such lexemes and other characters; exactly the lexemes are blanked |
| RustTokens.ChangedIsLexeme | scripts/lean-fidelity-check.py:55-60 | a character that is changed is part of a comment or literal |
| Masking.SkipQuoted | scripts/lean-fidelity-check.py:134-146 | returns that end |
| Masking.RawStringAt | scripts/lean-fidelity-check.py:114-131 | returns the end of the raw string that starts here, or 0 exactly if none does |
| Masking.TokenEnd | scripts/lean-fidelity-check.py:69-110 | returns the end of the comment or literal that starts here, or 0 exactly if none does |
| Masking.RustMaskedIsCode | scripts/lean-fidelity-check.py:55-60 | in the masked text no string quote is left and no comment opens, not even by joining what is left |
| Masking.MaskingIsIdempotent | scripts/lean-fidelity-check.py:55-111 | masking what is masked changes nothing: no literal arises from what is left |
| Masking.MaskRust | scripts/lean-fidelity-check.py:55-111 | blanks exactly the comments and literals in place: same length, newlines in place, only code left |
| Masking.RawStringIff | scripts/lean-escape-hatch-check.py:120-121 | what looks like a raw string is taken for one exactly if a character that is no identifier's stands before it |
| Masking.CharLiteralIff | scripts/lean-escape-hatch-check.py:125-126 | the same of what looks like a character literal |
| Masking.StartHidesCode | scripts/lean-escape-hatch-check.py:104-105 | a source that starts with a raw string and loses the code after it |
| Masking.SpaceShowsCode | scripts/lean-escape-hatch-check.py:120-121 | the same source after a space keeps that code |
| LeanStart.CodeLater | scripts/lean-escape-hatch-check.py:107-180 | one character later the lexer makes the same of every stretch of code, if the same pieces start there |
| LeanStart.PieceLater | scripts/lean-escape-hatch-check.py:111-126 | one character later the same pieces start, but for a literal at the very start |
| LeanStart.SpaceChangesNothingIff | scripts/lean-escape-hatch-check.py:104-126 | a space before a source changes nothing in what is left of it, if and only if the source does not start with a raw string or a character literal |
| Masking.CodeIsClean | scripts/lean-escape-hatch-check.py:107-134 | lexing Lean code keeps length and newlines, and a string quote is left only where the identifier in guillemets around it is kept from its guillemet on, however holes and strings nest |
| Masking.HoleEnd | scripts/lean-escape-hatch-check.py:127-128 | a hole ends with the source or before its closing brace |
| LeanTokens.LeanPieceIff | scripts/lean-escape-hatch-check.py:111-126 | the comments, quoted names, raw strings and character literals found, and their ends, are exactly those of a relation on the characters |
| LeanTokens.PlainStringIsBlanked | scripts/lean-escape-hatch-check.py:155-180 | a string without holes is blanked up to its first unescaped quote |
| LeanTokens.StringIsTiled | scripts/lean-escape-hatch-check.py:155-180 | a string falls into blanked characters and escapes, code in interpolation holes, and plain holes kept as they are, up to the quote that ends it |
| LeanTokens.CodeIsTiled | scripts/lean-escape-hatch-check.py:107-134 | code falls into pieces, strings and ordinary characters, what is left is what is left of these, and a hole ends where its braces balance |
| LeanTokens.StrippedIsTiled | scripts/lean-escape-hatch-check.py:191-195 | the same of a whole source |
| Masking.LeanLexer.Code | scripts/lean-escape-hatch-check.py:107-134 | the mutable lexer appends exactly the lexed code and stops where it ends |
| Masking.LeanLexer.String | scripts/lean-escape-hatch-check.py:155-180 | appends exactly the string blanked but for its code holes |
| Masking.Strip | scripts/lean-escape-hatch-check.py:191-195 | ends on every source, moves nothing, and leaves a string quote only inside an identifier in guillemets that it keeps |

## Left out

- The executors, SMT encoders, state-class graph, rewriter, Lean sources, facades, rendering, file and network I/O.
- Clocks: a delayed transition may fire at any time, a timeout may expire at any time.
- The random net generator, the gadget's port and clause counting, and the ambiguity check of output specifications.
- A timeout with a choice or a timeout below it: the source raises an error, and `PetriNets.WellFormed` excludes such nets.
- Reports of which property types occur, and the JSON form of nets.
- The parts of the debug net that only repaint, inspect, search, filter or show a modal or the archive, live commands and playback speed.
- The click places of the debug net: transitions that wait for a click are only constrained by their other inputs.
- The dirty marks and panels a handler also writes, and the contents of `uiState` outside `Playback`.
- `buildCheckpoints`, `checkClientBreakpoints` and the timeline are function parameters, `seekToIndex` is left out; seeking and a failing step are not part of `Playback`.
- The aliasing of the replay buffer by the `events` field of `uiState`.
- That no frame token rests, and that no stale tick remains, are not claimed: a session switch or a click can come first.
- That selections and ticks are dealt with, and that an enabled or running action is not put off for ever: the executor's fairness is not modelled.
- Payloads of the agent turn and the session: a turn's notes and texts do not influence which transitions are enabled.
- The builder checks and relays of match specifications, and the finite width of the fresh-name counter, which the model never wraps.
- Idempotence of `strip` is not claimed, since holes that are kept may contain comment markers; for the Rust masker it is proved.
- Which characters count as alphanumeric is a parameter of the Lean lexer; TOML stripping is not modelled.
- Node-level minimality of the reduction: parallel edges between two components are all kept, so it does not hold.
- DebugLaws.StartHolds: says nothing of the permit, which `DebugLaws.PermitTaken` and `DebugLaws.PermitMoves` cover, because the permit stands for a message in transit rather than for a held token.
- LinearBounds.LinearBound: needs the inputs of a transition to be on distinct places, as generated nets have them, because `successors` subtracts from the old marking.
