# Verified model of the Orchestra wave runtime

Orchestra runs a typed, acyclic graph of agent, harness, transform and selector nodes for each
task. A compiler checks the graph and layers it into waves. A runtime then repeats one loop: mark
impossible nodes as skipped, take the first k ready nodes by id, run them, store their artifacts,
commit their results, save a checkpoint. It stops when the final output is frozen or when nothing
is ready. A process may die at any point and resume from the last checkpoint.

This project models that core in Dafny and proves what it keeps over every graph, every executor
behaviour, every limit and every crash.

## How the model is built

- **The imperative code is imperative here.** The compiler's loops, the scheduler's scans, the
  committer's updates of the copied state, the stores, `execute` and the critical-path computation
  are methods with loops, proved against specification functions. `RuntimeState`,
  `FileArtifactStore`, `CheckpointStore`, `Scheduler`, `WaveCommitter` and `NativeAsyncRuntime` are
  classes.
- **The loop is also a transition system** (`Runs`): a step is a whole iteration, and a run is any
  sequence of steps from any proper state, each with its own limit, its own executors and a store that
  may have gained artifacts. `Execute` is proved to perform exactly such steps (`Execution`,
  `Runtime`), fresh or resumed, so the theorems about runs hold of it.
- **Executors are an arbitrary oracle** from a node and its inputs to a failure or to output
  artifacts. How long a node takes is what the process's clock says of it in that wave.
- **The meaning of a graph** (`Meaning`) is a recursive definition that mentions no schedule: which
  nodes run, on which inputs, with which outcome. Runs under any limit are proved to agree with it, up
  to a likeness of artifacts that may ignore ids.
- **Crashes** (`Resume`) are steps of a disk that holds every task's artifacts and one task's
  checkpoint: a process dies between any two writes, or saves, or another task writes. Each process
  has its own limit, executors and bundle, so a retried wave may put other artifacts than the
  interrupted one. `Calls` shows that whole calls of `execute`, in any order and with deaths in
  between, are such histories. `Histories` adds what the records carry, hashes and times, and says
  what the next call makes of them.

| module | part of the system |
|---|---|
| `Types`, `Sorting` | entities; Python's `sorted` and slicing |
| `EdgeConditions` | `EdgeCondition.evaluate` |
| `Layering`, `Compiler` | `GraphCompiler.compile` |
| `Scheduling` | `Scheduler` |
| `Stores`, `RuntimeStates` | artifact store, checkpoint store, `RuntimeState` |
| `Committing`, `Reports`, `Committer` | `WaveCommitter.commit_wave`: what it means, what its lists tell, and the code |
| `Runs`, `Progress`, `Endings` | invariants, stuck nodes, skips, deadlocks, bounds |
| `Meaning`, `Independence` | schedule independence |
| `References`, `Resume` | the artifacts a checkpoint names; crash and resume |
| `Recovery` | what a checkpoint says of the graph's meaning after any crashes |
| `Determinism` | processes that are all alike |
| `CriticalPath` | `_result` |
| `Provenance`, `Guarantees` | lineage, typed delivery, branch exclusion |
| `Launching`, `Execution`, `Runtime` | `execute` |
| `Calls`, `Answers` | whole calls: what they leave, and what they come to |
| `Records`, `Histories` | hashes and times in the records; any sequence of calls and deaths |
| `Assumptions` | what goes wrong without the assumptions, and exactly when |

## Model

| member | source | states |
|---|---|---|
| EdgeConditions.Evaluate | src/orchestra/ir/edges.py:19-35 | The loop over the dotted path and the comparison give the recursive meaning of the condition, false when the path leads nowhere |
| EdgeConditions.OperatorsMean | src/orchestra/ir/edges.py:25-35 | Operator by operator: `is_true` and `is_false` hold iff the path leads to that boolean, `equals` and `not_equals` iff it leads to a value that is, or is not, equal to the operand, `greater_than` and `less_than` iff it leads to a value above, or below, it; nothing holds where the path leads nowhere |
| EdgeConditions.WalkIff | src/orchestra/ir/edges.py:20-24 | The loop over the path ends in a value iff there is a trail of nested objects along the keys that ends in it |
| EdgeConditions.ShortPaths | src/orchestra/ir/edges.py:20-24 | For one key and for two nested keys: which value that is |
| EdgeConditions.EqualIff | src/orchestra/ir/edges.py:25-28 | When two values are equal under Python's `==`, kind by kind: numbers and booleans by value, strings, lists item by item, objects key by key, and never values of unlike kinds |
| EdgeConditions.LessIff | src/orchestra/ir/edges.py:29-32 | When a value is below another: numbers by value, strings and lists at their first difference or as a proper prefix |
| EdgeConditions.EvaluationRaises | src/orchestra/ir/edges.py:29-32 | The comparison raises iff the operator orders, the path leads to a value, and value and operand are neither two numbers nor two strings, nor two lists that agree up to the end of one or first differ in an orderable pair |
| EdgeConditions.EqualReflexive | src/orchestra/ir/edges.py:25-28 | Every JSON value equals itself under Python's `==` (booleans counting as numbers), so `equals` accepts its own operand |
| EdgeConditions.LessIrreflexive | src/orchestra/ir/edges.py:29-32 | No value satisfies `less_than` or `greater_than` against itself, whatever its type |
| EdgeConditions.OppositeConditions | src/orchestra/ir/edges.py:33-35 | `is_true` and `is_false` on one field never both hold, and exactly one holds iff the path leads to a boolean |
| Layering.NodeOnce | src/orchestra/ir/compiler.py:127-140 | In the compiled waves each node, and nothing else, is listed exactly once |
| Layering.EdgesGoLater | src/orchestra/ir/compiler.py:127-140 | Every edge leads to a strictly later wave |
| Layering.WaveIsLongestWalk | src/orchestra/ir/compiler.py:127-140 | A node's wave index is the length of the longest edge path that ends at it |
| Layering.LayeringIsMinimal | src/orchestra/ir/compiler.py:127-140 | No numbering of the nodes that increases along edges uses fewer numbers than there are waves |
| Compiler.Discharge | src/orchestra/ir/compiler.py:136-139 | Taking one node away leaves each indegree counting the edges from the nodes still there, and queues each node that reaches zero once |
| Compiler.RemoveWave | src/orchestra/ir/compiler.py:133-140 | The same for a whole wave |
| Compiler.Layer | src/orchestra/ir/compiler.py:127-142 | All nodes are visited iff the graph has no cycle, and then the waves are the layering |
| Compiler.CheckIds | src/orchestra/ir/compiler.py:43-48 | The set-size comparison detects exactly the repeated ids |
| Compiler.CheckNodes | src/orchestra/ir/compiler.py:51-74 | Passes iff no node fails the check of its kind; `BadNodeIff` spells that check out |
| Compiler.DuplicatesIff | src/orchestra/ir/compiler.py:43-48 | The verdict is a duplicate id iff two positions hold the same id, nodes before edges |
| Compiler.BadNodeIff | src/orchestra/ir/compiler.py:51-74 | After that it is a bad node iff an agent has an unregistered contract, or one whose output or non-bundle input schema it does not declare, or a harness, transform or selector is missing from the set of its own kind |
| Compiler.BadEdgeIff | src/orchestra/ir/compiler.py:79-105 | After that it is a bad edge iff an end of an edge is no node, a slot is not declared, the types of the slots differ, or a condition reads a field that the source type does not have |
| Compiler.ShapeIff | src/orchestra/ir/compiler.py:110-142 | After that: an unbound slot iff some slot is neither initial nor fed; no entry iff every node has a slot that is not initial with its type; a cycle iff some walk returns to its start |
| Compiler.FinalIff | src/orchestra/ir/compiler.py:144-163 | Last: no producer iff no node declares the final slot; unreachable iff no walk from an entry node ends at one that does |
| Compiler.IndexEdges | src/orchestra/ir/compiler.py:76-108 | Stops at a bad edge iff there is one; otherwise the adjacency lists, indegrees and slot counts are those of the graph |
| Compiler.FindEntries | src/orchestra/ir/compiler.py:110-123 | Fails iff some input slot is neither initial nor fed; otherwise lists, in graph order, exactly the nodes fed by initial slots of matching types |
| Compiler.FindProducers | src/orchestra/ir/compiler.py:144-148 | Lists, in graph order, exactly the nodes that declare the final output slot |
| Compiler.Sweep | src/orchestra/ir/compiler.py:156-161 | A pass over a snapshot adds only reachable nodes, reports a change iff it added one, and otherwise leaves a set closed under edges |
| Compiler.Reach | src/orchestra/ir/compiler.py:153-161 | The fixpoint loop ends with exactly the nodes that some walk from an entry node reaches |
| Compiler.AllReachableIff | src/orchestra/ir/compiler.py:110-163 | In an acyclic graph with unique ids every node is reachable iff every node without incoming edges is an entry node |
| Compiler.BoundRootsMatch | src/orchestra/ir/compiler.py:112-123 | When no slot is unbound, that holds iff the slots of the nodes without incoming edges have the types of the initial slots they name |
| Compiler.UnreachableNeverFires | src/orchestra/ir/compiler.py:162-163 | Under that condition on the nodes without incoming edges the unreachable-output error is never the verdict |
| Compiler.UnreachableCanFire | src/orchestra/ir/compiler.py:162-163 | Without it, it can be: a graph whose producer names an initial slot of another type |
| Compiler.CheckFinal | src/orchestra/ir/compiler.py:144-163 | Fails iff there is no final producer, or none is reachable from an entry node |
| Compiler.Compile | src/orchestra/ir/compiler.py:42-171 | The error is the first check that the graph fails; a graph that passes all comes with its layering, entries, producers and the number of positions in its edge list that hold a condition |
| Compiler.CompiledLists | src/orchestra/ir/compiler.py:110-148 | The entry nodes and the producers are listed in graph order, one entry for each position that holds such a node |
| Compiler.ConditionalCount | src/orchestra/ir/compiler.py:168 | The filtered list has as many edges as there are positions with a condition |
| Scheduling.Scheduler.Incoming | src/orchestra/runtime/scheduler.py:18-22 | Groups the edges by destination slot, in graph order |
| Scheduling.Scheduler.ScanEdges | src/orchestra/runtime/scheduler.py:34-42 | The first active edge whose source holds a non-empty artifact id on that output wins |
| Scheduling.Scheduler.ResolveInputIds | src/orchestra/runtime/scheduler.py:24-43 | Each slot gets the initial artifact if there is one under its name, else the first available edge's, else nothing |
| Scheduling.FirstEdgeWins | src/orchestra/runtime/scheduler.py:30-42 | A slot gets its initial artifact, or else the output of the edge that feeds it, is active, has a non-empty artifact id and has no such edge before it in the graph; nothing iff there is no such edge |
| Scheduling.Scheduler.FindReadyNodes | src/orchestra/runtime/scheduler.py:45-55 | Exactly the pending nodes with every slot fed, in id order, sliced as Python slices by the limit |
| Scheduling.ReadyMeans | src/orchestra/runtime/scheduler.py:45-55 | Over the edges themselves: a node is ready iff it is pending and each slot has an initial artifact or such an edge |
| Scheduling.Scheduler.SomeSlotStarved | src/orchestra/runtime/scheduler.py:65-79 | Some slot without an initial artifact has edges, all of them dead |
| Scheduling.Scheduler.ImpossibleNodes | src/orchestra/runtime/scheduler.py:57-80 | Lists, in graph order, exactly the pending nodes with such a slot |
| Scheduling.ImpossibleMeans | src/orchestra/runtime/scheduler.py:57-80 | Over the edges themselves: a node is impossible iff it is pending and some slot has no initial artifact, but edges, each inactive or from a node that failed or was skipped or cancelled |
| Scheduling.ImpossibleInOrder | src/orchestra/runtime/scheduler.py:61-80 | The list has one entry for each position that holds such a node, in graph order |
| Stores.FileArtifactStore.Put | src/orchestra/storage/artifacts.py:26-37 | Write-once: refuses invalid payloads and a different artifact under a used name, accepts an equal one, changes nothing else |
| Stores.FileArtifactStore.Get | src/orchestra/storage/artifacts.py:39-45 | Returns the one valid file under the id over all tasks; fails iff there is none or more than one |
| Stores.PutThenGet | src/orchestra/storage/artifacts.py:26-45 | What was put is what is fetched, iff no other task has a file under the same id |
| Stores.RetryStores | src/orchestra/storage/artifacts.py:31-34 | Repeating an interrupted series of puts ends in the store that one uninterrupted series gives |
| Stores.CheckpointStore.Save | src/orchestra/runtime/checkpoint.py:17-22 | Replaces this task's checkpoint and no other |
| Stores.CheckpointStore.Load | src/orchestra/runtime/checkpoint.py:24-41 | Nothing iff nothing was saved for the task; a drift error iff the graph hash or the contract hash of what was saved differs from what is asked for and drift is not allowed; otherwise the saved record |
| RuntimeStates.RuntimeState.ModelCopy | src/orchestra/runtime/committer.py:19 | A fresh object with the same contents |
| Committing.ApplyNext | src/orchestra/runtime/committer.py:31-57 | Applying results one at a time in id order amounts to one simultaneous update; the smallest id wins the freeze |
| Committer.CommitIgnoresOrder | src/orchestra/runtime/committer.py:31 | Two orders of the same results give the same map of outcomes and latencies, on which alone the new state and the three returned lists depend |
| Committer.WaveCommitter.PutAll | src/orchestra/runtime/committer.py:24-29 | All artifacts of the wave end up stored, or the puts are refused and no outcome could store them all; never anything but these artifacts |
| Committer.WaveCommitter.ResolveEdges | src/orchestra/runtime/committer.py:45-57 | Each conditional edge of the node joins exactly one set, by its condition on that output's payload; an exception iff a comparison raises |
| Committer.WaveCommitter.Freeze | src/orchestra/runtime/committer.py:41-44 | The first artifact on the final slot freezes the state, and later ones change nothing |
| Committer.WaveCommitter.ApplyResult | src/orchestra/runtime/committer.py:31-57 | Status, latency, outputs, freeze and edges of one result |
| Committer.WaveCommitter.ApplyResults | src/orchestra/runtime/committer.py:31-57 | The loop over the sorted results gives the simultaneous update and the lists, whose meaning `Reports` states |
| Committer.WaveCommitter.SkipImpossible | src/orchestra/runtime/committer.py:59-60 | One pass, on the state before it, marks exactly the impossible nodes |
| Committer.WaveCommitter.CommitWave | src/orchestra/runtime/committer.py:12-63 | A new state appears iff every put succeeds and no comparison raises, only after all artifacts are stored; the previous state is untouched; activated and disabled name exactly the edges that became active and inactive, committed the new outputs, in order |
| Reports.EdgesTold | src/orchestra/runtime/committer.py:45-57 | With unique edge ids an id is listed as activated iff it is among the active edges after the wave and not before, and as disabled likewise; each once, ordered by source node and then by position in the graph |
| Reports.CommittedTold | src/orchestra/runtime/committer.py:40 | The committed ids are the outputs of exactly the nodes that succeeded in the wave, in node-id order |
| Reports.CommitReported | src/orchestra/runtime/committer.py:12-63 | The two together, for a whole commit, against the states before and after it |
| Reports.RaisesIff | src/orchestra/runtime/committer.py:48-51 | A commit raises iff a node that has just succeeded has a conditional edge that asks for an order between the operand and a value that Python cannot order with it |
| Runs.CompiledIsWired | src/orchestra/ir/compiler.py:43-142 | Compilation gives the facts the runtime relies on: unique ids, edges between declared slots, every slot bound, wave numbers increasing along edges |
| Runs.ActiveInactiveDisjoint | src/orchestra/runtime/committer.py:45-57 | No edge is both active and inactive |
| Runs.CommitInv | src/orchestra/runtime/committer.py:31-62 | A commit of any results of pending nodes keeps the state invariant |
| Runs.RunInv | src/orchestra/runtime/native_async.py:111-213 | From any state that satisfies it, through waves under any limits, by any executors and over any leftovers in the store: no node running, outputs exactly for the succeeded nodes, unconditional edges active, a conditional edge in exactly one set iff its source succeeded, frozen iff there is a final id iff some node delivered the final slot |
| Progress.StepGrows | src/orchestra/runtime/native_async.py:111-170 | A wave keeps terminal statuses, outputs, edge outcomes and the freeze |
| Progress.RunGrows | src/orchestra/runtime/native_async.py:111-213 | So does a whole run, also one taken up by several processes: the final artifact never changes once set |
| Progress.SkipIsSound | src/orchestra/runtime/scheduler.py:57-80 | A node reported impossible is ready in no continuation, even of a scheduler that does not skip it, and stays impossible while pending |
| Progress.ReadyIsStable | src/orchestra/runtime/scheduler.py:45-55 | In such continuations a ready node stays ready and is never impossible until it is launched |
| Progress.RunIsLazy | src/orchestra/runtime/native_async.py:111-213 | The states of every run are among these continuations |
| Progress.RunKeepsReadiness | src/orchestra/runtime/scheduler.py:45-80 | So over any waves of any run a node once impossible is never ready, and a pending node once ready stays ready and is never impossible |
| Progress.ReadyXorImpossible | src/orchestra/runtime/scheduler.py:45-80 | A pending node whose predecessors are all terminal is exactly one of ready and impossible |
| Progress.NoneStuck | src/orchestra/runtime/scheduler.py:45-80 | A state with no ready and no impossible node has no pending node |
| Endings.DeadlockSettles | src/orchestra/runtime/native_async.py:121-129 | At a deadlock, repeating the skip pass settles every node, adds no output and still freezes nothing |
| Endings.DeadlockIsPrecise | src/orchestra/runtime/native_async.py:121-129 | The deadlock error is raised only if every final producer is failed or skipped after repeated skip passes |
| Endings.ProducerFreezes | src/orchestra/runtime/committer.py:41-44 | A state in which a final producer has succeeded is frozen |
| Endings.UnconditionalNeverDeadlocks | src/orchestra/runtime/native_async.py:111-130 | Without conditional edges and failures no state of any run deadlocks |
| Endings.PendingDrops | src/orchestra/runtime/native_async.py:111-170 | Each wave settles at least as many nodes as it launches, and launches at least one |
| Endings.WavesAreFinite | src/orchestra/runtime/committer.py:59-62 | Wave id and checkpoint count advance by one with each wave committed, and at most as many waves are committed as nodes were pending |
| Endings.LaunchedOnce | src/orchestra/runtime/native_async.py:138-167 | No node is launched in two waves of a run, whichever processes commit them |
| Endings.WaveBound | src/orchestra/runtime/scheduler.py:55 | A run under limit k commits at most nodes div k plus compiled waves many waves, failures and skips included |
| Meaning.FedGetsFate | src/orchestra/runtime/scheduler.py:24-43 | A fed node is given inputs like those that the meaning of the graph gives it, with likeness free to ignore ids and timestamps |
| Meaning.StepAgrees | src/orchestra/runtime/native_async.py:111-170 | A wave by executors that do alike things on like inputs keeps statuses, outputs, artifacts and edge outcomes in agreement with the meaning, up to likeness |
| Meaning.MeaningIgnoresLevels | src/orchestra/runtime/scheduler.py:34-42 | The meaning depends on the graph, the executors and the bundle, not on the numbering by which it is computed |
| Independence.RunAgrees | src/orchestra/runtime/native_async.py:111-213 | In every state of every run, each wave under its own limit and by its own executors that do alike things, a succeeded or failed node has the result its meaning gives it, with like artifacts in the store, and a skipped node is one the meaning never feeds |
| Independence.LaunchedInputs | src/orchestra/runtime/native_async.py:138-167 | Every launched node is given inputs like those of its meaning and has a like outcome |
| Independence.RunsAgree | src/orchestra/runtime/native_async.py:111-213 | Two runs under any limits, with different ids for all artifacts, never disagree on the status of a node both have settled, and hold like outputs for it |
| Independence.DeadlockMeansNoneLive | src/orchestra/runtime/native_async.py:121-129 | The deadlock error means that by the graph's meaning no node delivers the final slot |
| Independence.FreezesIffLive | src/orchestra/runtime/native_async.py:111-130 | A state in which the loop is over is frozen iff the graph's meaning lets some node deliver the final slot, and a deadlock iff it lets none |
| Independence.RunsEndAlike | src/orchestra/runtime/native_async.py:111-130 | Two runs that are over, under any limits and with any ids, are both frozen or both deadlocked |
| Independence.SameFinal | src/orchestra/runtime/committer.py:41-44 | With at most one live final producer every run freezes a like artifact |
| Independence.SameButIsLikeness | src/orchestra/ir/artifacts.py:79-91 | Equality but for ids, parents, task and chosen payload fields is such a likeness, and the conditions of a graph go by it when none reads one of these fields |
| Independence.ExclusiveIsUnambiguous | src/orchestra/runtime/scheduler.py:34-42 | These results cover graphs with one edge per slot and branches that join again from an `is_true` and an `is_false` edge |
| Resume.ResumeCheckPasses | src/orchestra/runtime/native_async.py:96-106 | Wherever processes die, and whatever limits, executors and bundles the next ones bring, `get` returns every artifact that the last checkpoint names, and the checkpoint satisfies the state invariant, so holds no running node |
| Resume.CheckpointsGrow | src/orchestra/runtime/native_async.py:213 | Across such crashes and resumes settled statuses, outputs, edge outcomes and the final artifact never change from one checkpoint to a later one |
| Resume.SettledNotRerun | src/orchestra/runtime/native_async.py:121-167 | A resumed process launches only nodes that the checkpoint shows as pending |
| Resume.CheckpointIsReached | src/orchestra/runtime/native_async.py:76-213 | The waves saved across any crashes form one run from a fresh start, each wave by one of the processes, that ends in the last checkpoint |
| Recovery.CheckpointOriginates | src/orchestra/runtime/native_async.py:50-58 | So the outputs that a checkpoint names were made by their nodes' executors from artifacts that an initial slot or an active edge delivered, whichever processes made them |
| Recovery.CheckpointFilled | src/orchestra/runtime/native_async.py:96-106 | If the executors of all processes fill the edges, deliver the final slot and do not fail, and their bundles supply the initial slots, every checkpoint shows it |
| Recovery.SavedWaveBound | src/orchestra/runtime/scheduler.py:55 | Under one limit no more waves are saved across all crashes than the bound for one run |
| Recovery.RecoveredAgrees | src/orchestra/runtime/native_async.py:96-213 | After any crashes and resumes, each process with its own limit, ids and bundle, every settled node of the checkpoint has the status of the graph's meaning and like outputs in the store |
| Recovery.RecoveriesAgree | src/orchestra/runtime/native_async.py:96-213 | Two histories of crashes and resumes never disagree on a node both have settled, up to likeness of its outputs |
| Recovery.RecoveriesFreezeAlike | src/orchestra/runtime/committer.py:41-44 | With at most one live final producer they freeze like artifacts |
| Recovery.RecoveryEndsAsMeant | src/orchestra/runtime/native_async.py:111-130 | A checkpoint at which the loop is over is frozen iff the graph's meaning lets some node deliver the final slot |
| Determinism.RetryStep | src/orchestra/runtime/committer.py:24-29 | If the executors return the same artifacts again, a wave repeated on the leftovers of an interrupted attempt is the same step as without the interruption |
| Determinism.DisksOnTrack | src/orchestra/runtime/native_async.py:76-213 | If the processes are all alike, the disk is always a state of their uninterrupted run plus some artifacts of the wave in flight |
| Determinism.RunIsDetermined | src/orchestra/runtime/native_async.py:111-213 | One limit, one bundle and one set of deterministic executors determine the uninterrupted run |
| Determinism.CheckpointsAreUninterrupted | src/orchestra/runtime/native_async.py:168-213 | If the processes are all alike, each checkpoint is the state the uninterrupted run has after as many waves |
| Determinism.ResumedEndsAlike | src/orchestra/runtime/native_async.py:107-130 | Then a resumed run that is over, frozen or in a deadlock, is in the very state in which the uninterrupted one ends, statuses and outputs included |
| CriticalPath.BestParent | src/orchestra/runtime/native_async.py:242-249 | The greatest value over the parents, 0 without any |
| CriticalPath.LongestPaths | src/orchestra/runtime/native_async.py:239-249 | No parent is read before it is computed, and each node's value is the greatest latency sum over all paths ending there |
| CriticalPath.WalkAdds | src/orchestra/runtime/native_async.py:246-248 | The latency of a path is the sum over its parts, and that of one node what is recorded for it, or 0 |
| CriticalPath.SumLatencies | src/orchestra/runtime/native_async.py:237 | The sum over all recorded nodes, independent of the order |
| CriticalPath.TotalAdds | src/orchestra/runtime/native_async.py:237 | The sum is 0 for no entries, and each entry adds its value once |
| CriticalPath.CriticalBounds | src/orchestra/runtime/native_async.py:250 | The critical path is at least each node's latency and at most the total |
| CriticalPath.LatencyFigures | src/orchestra/runtime/native_async.py:236-250 | The reported total and critical path are the sum of all latencies and the greatest latency of any path |
| Provenance.ResolvedHasSource | src/orchestra/runtime/scheduler.py:24-43 | What a slot resolves to is in the store, and is the initial artifact or the output of an active edge's source |
| Provenance.RunProv | src/orchestra/runtime/native_async.py:50-58 | In every run each succeeded node's outputs are what its executor made of such artifacts, and a conditional edge is active iff its condition holds of the artifact on it |
| Guarantees.CompiledIsTyped | src/orchestra/ir/compiler.py:79-97 | Every edge of a compiled graph joins slots of one type |
| Guarantees.TypedDelivery | src/orchestra/ir/compiler.py:119-123 | At every launch of every run a delivered artifact has its slot's declared type iff the slot does not share its name with an initial slot of another type, which the compiler lets pass |
| Guarantees.ParentsAreLower | src/orchestra/executors/transform.py:63-68 | Each recorded parent is in the store and is an initial artifact or the output of a node of a strictly lower wave |
| Guarantees.LineageIsShort | src/orchestra/executors/agent.py:56-61 | Following parents from any output reaches an initial artifact or ends, within the node's wave index plus one steps |
| Guarantees.RootsHaveNoInputs | src/orchestra/executors/agent.py:56-61 | An artifact has no parents iff its node has no inputs |
| Guarantees.OppositeEdgesExclude | src/orchestra/runtime/committer.py:45-57 | An `is_true` and an `is_false` edge on one field are never both active, and once the source has delivered the output one is active iff the field is a boolean |
| Guarantees.BranchesExclude | src/orchestra/runtime/scheduler.py:34-42 | Two nodes that need slots fed only by such edges are never both launched, in any waves of any run |
| Launching.DeliveredSame | src/orchestra/runtime/native_async.py:140-144 | Marking nodes as running while their inputs are loaded does not change what the others are given |
| Launching.LaunchMarks | src/orchestra/runtime/native_async.py:140-141 | The launched nodes are running, and nothing else of the state has changed |
| Launching.LaunchInvisible | src/orchestra/runtime/native_async.py:141 | The running marks leave no trace after the commit |
| Launching.LaunchReportable | src/orchestra/runtime/native_async.py:138-170 | What the loop hands to the committer meets the preconditions under which its lists are characterised |
| Launching.NextIsStep | src/orchestra/runtime/native_async.py:111-213 | An iteration that commits is a step of the transition system and leaves every artifact that the state names readable |
| References.ResumeReadable | src/orchestra/runtime/native_async.py:105-106 | The check at resume passes iff everything the checkpoint names is stored, valid and under an id of this task alone |
| Execution.NextDrops | src/orchestra/runtime/native_async.py:111-170 | Each iteration of a call leaves fewer pending nodes |
| Execution.StagesAreRun | src/orchestra/runtime/native_async.py:76-213 | The waves of any call, fresh or resumed, are a run, so all theorems about runs hold of it |
| Calls.StageSaves | src/orchestra/runtime/native_async.py:168-213 | Each iteration of any call, fresh or resumed, is a saving step of the crash model |
| Records.NextTime | src/orchestra/runtime/native_async.py:168-170 | A wave gives the nodes it launches, which had no time, the time of the clock in that wave, and leaves all other times; exactly the nodes that have run are timed |
| Records.TimeOrigin | src/orchestra/runtime/native_async.py:121-170 | After any number of waves of a call a node timed in the first record has that time, and any other time is the clock's in the wave that launched the node |
| Records.SavesBear | src/orchestra/runtime/native_async.py:83-84 | What a process saves before it returns or dies carries the hashes of the record it loaded, or those it was started with, and times exactly the nodes that have run |
| Runtime.NativeAsyncRuntime.LoadInputs | src/orchestra/runtime/native_async.py:50-58 | A node is given the artifact behind each resolved id; none is missing |
| Runtime.NativeAsyncRuntime.LaunchReady | src/orchestra/runtime/native_async.py:138-167 | All ready nodes are marked and run on the inputs of the state before the launch, each timed by the clock in this wave |
| Runtime.NativeAsyncRuntime.RunAndCommit | src/orchestra/runtime/native_async.py:138-170 | The wave's outcomes are stored and committed, and exactly its nodes get the times of the clock in this wave, all other times staying; or a put or comparison fails and only these artifacts may have been added |
| Runtime.NativeAsyncRuntime.NothingReady | src/orchestra/runtime/native_async.py:122-129 | With nothing ready it is always a deadlock: the finalize branch cannot be reached |
| Runtime.NativeAsyncRuntime.Iterate | src/orchestra/runtime/native_async.py:111-170 | One iteration is a committed wave, a deadlock with the statuses after the skip pass, or an exception in the wave |
| Runtime.NativeAsyncRuntime.Loop | src/orchestra/runtime/native_async.py:111-226 | The loop terminates; every iteration follows from the one before; the checkpoint is the record after the last wave |
| Runtime.NativeAsyncRuntime.CheckReferenced | src/orchestra/runtime/native_async.py:96-106 | Passes iff every id the checkpoint names can be fetched |
| Runtime.NativeAsyncRuntime.StartNew | src/orchestra/runtime/native_async.py:76-95 | The bundle is stored and the first record has both hashes in place, no times and an initial state that satisfies the invariant; or the bundle can never be stored |
| Runtime.NativeAsyncRuntime.StartFrom | src/orchestra/runtime/native_async.py:96-106 | The checkpoint's record unchanged, or an exception iff the check fails |
| Runtime.NativeAsyncRuntime.Execute | src/orchestra/runtime/native_async.py:60-231 | The whole call: a drift error, a failed start, or stages each following from the one before, from the loaded record or a fresh one with the hashes of this graph and these contracts, and ending frozen with the latency figures, in a deadlock, or in an exception, with exactly the files and checkpoint these imply |
| Calls.CallLeaves | src/orchestra/runtime/native_async.py:60-231 | Whatever a call comes to, what it leaves on a disk that the crash model reaches is again such a disk, so calls and deaths can follow each other in any order |
| Calls.LeftIsResumable | src/orchestra/runtime/native_async.py:96-106 | A checkpoint found on such a disk meets all that `Execute` asks of it |
| Calls.CallFits | src/orchestra/runtime/native_async.py:168-213 | A saved record stays this task's and times only nodes of this graph |
| Calls.ResumeStarts | src/orchestra/runtime/native_async.py:96-106 | On such a disk no resume fails at its check |
| Answers.CallIsMade | src/orchestra/runtime/native_async.py:60-231 | The waves of any call, fresh or resumed, are a run in which every output is made properly, and which started from the bundle of one of the processes |
| Answers.CallDeliversTyped | src/orchestra/ir/compiler.py:119-123 | So at the top of the loop of any call what a slot resolves to has the slot's type, iff the slot does not share its name with an initial slot of another type |
| Answers.CallDeadlockIsPrecise | src/orchestra/runtime/native_async.py:121-129 | A call that raises the deadlock error, fresh or resumed, leaves every final producer failed or skipped after repeated skip passes |
| Answers.DeadlockReport | src/orchestra/runtime/native_async.py:112-129 | The reported statuses are those of the last committed record, with exactly the impossible nodes shown as skipped |
| Answers.CallWaveBound | src/orchestra/runtime/scheduler.py:55 | No call commits more waves than nodes div limit plus compiled waves |
| Answers.RaisesByComparison | src/orchestra/runtime/committer.py:24-57 | If all that a process may put is valid and collides neither with itself nor with what is stored, a call ends in an exception only if a comparison raises in its last wave |
| Answers.UnconditionalFinishes | src/orchestra/runtime/native_async.py:60-231 | Then, without conditional edges and failures, every call, fresh or resumed, returns a frozen result iff the checkpoint has not drifted; `HistoryFinishes` says when it has not |
| Answers.CallEndsAsMeant | src/orchestra/runtime/native_async.py:107-231 | Whatever its limit, whatever died before it and whatever ids the artifacts got, a call returns a record in which every settled node has the result of the graph's meaning and a frozen artifact like that of a live node, and reports a deadlock only if no node is live |
| Histories.HistoryStands | src/orchestra/runtime/native_async.py:60-231 | After any sequence of calls that return, processes that die anywhere and work on other tasks, the disk is one that the crash model reaches, and the checkpoint carries the hashes of the graph and of the process that started the task |
| Histories.HistoryResumable | src/orchestra/runtime/native_async.py:70-106 | So what `Execute` asks of the checkpoint it loads is met after any such history |
| Histories.DriftIff | src/orchestra/runtime/checkpoint.py:24-41 | After any such history the next load reports drift iff there is a checkpoint, drift is not allowed, and the graph hash or the contract hash is not that under which the task was started |
| Histories.NextCallHappens | src/orchestra/runtime/native_async.py:70-75 | The next call returns a drift error in exactly that case, and all theorems of `Calls` and `Answers` hold of it |
| Histories.HistoryFinishes | src/orchestra/runtime/native_async.py:60-231 | Without conditional edges and failures, and if all that the process may put can be stored, the next call returns a frozen result, whatever died before it, if its contract hash is that of the task's first process or drift is allowed |
| Histories.CallTimes | src/orchestra/runtime/native_async.py:167-250 | In every call after any such history the nodes timed in the loaded record keep their times, every other node that has run has what the clock said in the wave that launched it, and the reported figures are over these times |
| Histories.CallClocks | src/orchestra/runtime/native_async.py:167-250 | Conversely every node that a committed wave of the call launches ends up with the clock's time in that wave |
| Assumptions.DeadlockIff | src/orchestra/runtime/scheduler.py:55 | The deadlock error is raised iff nothing is ready or the unvalidated limit cuts everything off: zero, or negative and not smaller in size than the ready list |
| Assumptions.OpenAfterSource | src/orchestra/runtime/scheduler.py:34-42 | After its source has settled an edge is neither available nor dead iff the source succeeded, left the edge active and did not deliver that output |
| Assumptions.StuckIff | src/orchestra/runtime/scheduler.py:45-80 | Whatever executors deliver, a pending node is neither ready nor impossible iff some of its slots have nothing yet and each of these has an edge that is neither available nor dead |
| Assumptions.FirstWave | src/orchestra/runtime/native_async.py:111-170 | Without conditional edges, the exact state to which a first wave of successes short of the final slot leads |
| Assumptions.JoinCompiles | src/orchestra/ir/compiler.py:42-171 | The compiler accepts the graph of the two examples: two `repair_to_code` nodes with two declared outputs each, and a `freeze_code` node that needs one of them |
| Assumptions.PartialOutputsStrand | src/orchestra/executors/transform.py:62-74 | If both repairs fill only their first declared output, its run deadlocks with no node failed or skipped, and a pending node that no skip pass settles |
| Assumptions.LimitDecidesInputs | src/orchestra/runtime/scheduler.py:34-42 | If both fill the output that is needed, the inputs of the third node differ between limit 1 and any higher limit, as both feed one slot |

## Assumptions

The theorems state these as preconditions, each where it is needed.

- For stuck nodes, deadlocks, the wave bound and agreement with the meaning: a success delivers every
  output that an edge reads, under a non-empty artifact id (`FillsEdges`, `AllFilled`). For deadlock
  precision and unconditional graphs it also delivers the final slot (`DeliversFinal`, `AllFinal`).
  Agents must declare exactly one slot, which they fill; the other executors fill only the first
  declared slot, so a caller can check that edges read no other. `Assumptions` shows what happens
  otherwise. The state invariant, termination, soundness of skips, crash and resume, lineage, typed
  delivery, branch exclusion and `Execute` do not need this.
- The initial bundle supplies every declared initial slot (`Supplied`), for the same theorems.
- The limit is at least 1, for deadlocks, the wave bound and how runs end. The other theorems,
  `Execute` and its termination need no such bound.
- For agreement with the meaning (`Meaning`, `Independence`, `Recovery.RecoveredAgrees` and what
  follows from it): at most one edge into a slot carries anything (`Unambiguous`), and the executors
  and bundles of all processes are alike: like inputs give like outcomes (`Congruent`). What counts
  as alike is a parameter that the conditions on edges must go by (`Respects`), so ids, timestamps and
  payload fields that hold ids may differ from process to process (`Independence.SameButIsLikeness`).
  With equality it says that the executors are deterministic, ids included.
- For `Determinism`: processes that are alike in limit, bundle and such executors. Real executors
  draw fresh artifact ids, so this describes replayed or scripted ones. Everything in `Resume` and
  `Recovery.CheckpointOriginates` holds without it: there each process has its own limit, executors
  and bundle.
- Executors name this task on their artifacts and choose ids that no other task uses (`OwnOutputs`,
  `OwnBundle`).
- For calls that never raise: all that a process may put is valid, equal task and id mean equal
  artifacts, and none collides with a stored file (`Harmless`).
- For typed delivery: the bundles and the executors' outputs have the declared types (`TypedBundle`,
  `TypedExecutors`). Agents check this of their output; the transform, harness and selector
  executors do not, and neither does the compiler.
- For lineage: outputs record exactly their inputs' ids as parents (`RecordsParents`).
- A checkpoint that is loaded was saved for this graph (`Resumable`); `Calls.LeftIsResumable` shows
  that calls on this graph leave no other, and `Histories.HistoryResumable` that any history on it
  meets the precondition, also when later processes bring other contracts and allow drift. With drift
  allowed the store also returns checkpoints of other graphs; the model stops at returning them.
- For drift, times and `Histories.HistoryFinishes`: processes that find no checkpoint all bring the same
  contract hash (`Founds`).

## Where code and documentation differ

The model follows the code.

- The implementation plan lets a node become ready only when all its incoming conditional edges are
  resolved (Stage1_LiveCodeBench_Unified_Runtime_Implementation.md:868-876). The scheduler takes the
  first available edge and does not look at the others (src/orchestra/runtime/scheduler.py:34-42).
- The plan rejects graphs with a conditional branch that can never activate
  (Stage1_LiveCodeBench_Unified_Runtime_Implementation.md:823). The compiler has no such check.
- The compiler does not compare types for an input slot that shares its name with an initial slot
  (`Guarantees.TypedDelivery`, `Compiler.UnreachableCanFire`).
- The impossible-node pass is a single pass, not a closure, so at a deadlock doomed nodes may still
  be pending (`Endings.DeadlockIsPrecise` speaks of repeated passes for that reason).
- A failed node's conditional edges end up in neither edge set (`Runs.RunInv`).

## Left out

- Names are naturals: node, edge, slot, schema and artifact ids and hashes are interned; only
  equality and, for node ids, order are used. The empty artifact id is 0.
- The order in which Python iterates over the slots of one node: loops over dictionaries visit the
  slots in any order, and the list of committed ids is given node by node.
- Committer.CommitIgnoresOrder: the order of puts is not covered; on success the stored files are the
  same set, but a failure may leave a different part of it.
- Execution.Follows: other tasks write to the same store at the same time; the model lets them write
  between calls and deaths (`Resume.OthersWrite`), not between two waves of one call.
- Concurrency inside a wave: the nodes of a wave share no mutable state, so a wave is the set of its
  executors' results; semaphores and task groups are library behaviour.
- Exceptions that escape an executor, and cancellation: covered as a process death.
- Numbers in payloads are reals: no rounding, NaN or infinities.
- JSON and Pydantic validation, file encodings and SHA-256: a `valid` flag and equality.
- Durability below the level of one file: replacing a file is one step.
- Telemetry events, wall-clock time, the concurrency speedup and the node counts of the result.
- LLM clients, prompts, parsers, sandboxes, the CLI, settings, dataset loading and exporting.
- Selector ranking, plan merging and the final evaluator.
