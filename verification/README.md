# HiveRunr: a verified model of its core

HiveRunr stores workflow graphs and runs them. This project models, in Dafny, the parts of it
whose correctness is not visible from one function body, and proves what they promise:

- **the graph executor** (`app/core/executor.py`): Kahn's order and the execution levels over an
  arbitrary edge list, branch reachability, one node's run with retries and failure modes, loop
  expansion, the sequential runner, the level-parallel runner, "run from this node", and nested
  sub-flows;
- **the scheduler's leader lock** (`app/scheduler.py`): a TTL lock on one Redis key, with standby
  polling, token-guarded refresh and release, step-down and crashes;
- **the template renderer** (`app/nodes/_utils.py`);
- **graph version history** (`app/core/db.py`, `app/routers/graphs.py`) and **the webhook rate
  counter** (`app/routers/webhooks.py`).

`dafny verify dfyconfig.toml` checks everything.

## How the model is laid out

Where the program updates things in place, the model does too, and each method is proved equal to
a function on values; the theorems are about those functions.

| files | what they hold |
|---|---|
| `Nets`, `Kahn`, `Levels`, `LevelTheorems` | edges, paths, `_topo`, `_compute_levels` and what they mean |
| `Reachability` | the two worklists: along a handle of a condition, and back from a resume point |
| `Values`, `NodeExec`, `LoopBody` | JSON, nodes, `_exec_node`, `action.loop`, `_expand_loop` |
| `NodeMeaning`, `LoopPasses`, `RunMeaning`, `CallMeaning` | what a node's run, a pass over a loop body, a run and a call come to, said in terms of edges, request and handler answers |
| `Runner`, `Executor` | both runners on values, and the object with its shared dictionaries and lists |
| `Locality`, `Refinement` | what handlers look at and write, and that the parallel mode refines the sequential one |
| `Writers`, `Divergence`, `LoopDivergence` | the exact condition for handlers that write, and graphs on which the modes differ |
| `RunLaws`, `ParallelLaws` | traces, results, skip sets and events of every sequential and every parallel run |
| `GraphRun`, `DataFlow`, `LoopEntries` | requests; inputs, outputs and loop results of a run, in either mode |
| `Resume`, `ResumeRun`, `ResumeDivergence` | resumed runs: their start node, all they run again, and what they do not restore |
| `SubFlow` | nested calls |
| `LeaderLock`, `Template`, `VersionHistory`, `VersionRoutes`, `GraphTables`, `RateLimit` | the other four components |

**Handlers.** A node handler is a parameter of the model, a function of the node, the attempt
number, the input and the context, that answers or fails and may write context keys. What a theorem
needs of the handlers of a plan's nodes, and only of those, is a named hypothesis:

- `LevelsSafe`, for comparing the modes: no handler looks at outputs of its own level, which is what
  the executor says of its levels, and no body of a node that may loop sees what its level applies
  later. `LevelsOf` tells a caller which nodes those are.
- `WritersAlone`, for comparing the modes: a node that may write the context is the only one of its
  level to run. Where writes can be told apart this is necessary too (`ModesAgreeIff`).
- `WritesVariables`, for single runs: the keys that handlers write are no node ids, no edge sources
  and not the payload key. Nothing is asked of what handlers read.
- `Ignores`, for one node: its handler does not look at the given keys.
- `Rereads`, for a whole resumed run: the handlers of the nodes it runs again look at upstream outputs
  only, and the bodies of those that were loops at what leads to the loop, the loop and the body.

**Threads.** `RunPool` picks the next finished worker by a nondeterministic choice, so its
contract holds for every order of completion.

**Nodes.** `WellFormed` asks for distinct node ids, none of them `__initial_payload__`, and for set
iteration to list each element once. Edges are unrestricted: dangling, parallel, self-loops, cycles.

## Where the code and its documentation disagree

The model follows the code.

- `_exec_node` says it never raises. It raises exactly for nodes that do not run (`Exec`): those whose
  stored `retry_max` or `retry_delay` does not convert to a number, and those whose `retry_max` is
  negative, where the retry loop has an empty range and its variable stays unset (`RaisesIff`). The runs then stop
  with `Crashed`, or out of the pool with an abort; `SequentialRunBalances` and `ParallelRunBalances`
  tie both to exactly those nodes.
- `_exec_node` says a node's input comes from its most recently connected upstream node. It comes
  from the first edge in the list, even when that edge's source has no output (`InputIs`). The two agree,
  whatever the context holds, exactly when the first and the last edge into the node have the same
  source (`InputIsMostRecentIff`).
- The scheduler says failover takes at most the lock TTL. A standby also has to poll: the bound is
  TTL plus the poll interval (`FailoverBound`), it is reached (`FailoverBoundIsTight`), and the
  documented one holds exactly for standbys that poll every millisecond (`FailoverWithinTtlIff`).
- The executor calls same-level nodes safe to run together because they only read earlier keys.
  A handler that writes the context breaks that when it shares its level: the pool drops what it
  wrote (`PooledWriteIsLost`), other nodes then answer differently (`WritersDiverge`), and the modes
  agree exactly when every writer runs alone at its level (`ModesAgreeIff`, and
  `ModesAgreeIffKnownBefore` with a condition on the graph alone). Without any writes, a handler that
  looks at an output of its own level breaks it (`SiblingReadersDiverge`), and so does a loop whose
  body is fed by a node the level applies later (`LoopBodySeesSeed`).
- "Run from this node" takes previous outputs as inputs. With the outputs of an earlier run, finished
  or not, the node gets the trace it had (`ResumeRecomputes`). The canvas sends the outputs in the
  traces instead. After a run from scratch they give the node the input it had exactly when its first
  source was executed and is no loop (`ResumeFromTraces`): a loop's trace has the list it was given,
  and the trace of a node that was passed over has null, where the run had an empty object
  (`DisabledSourceChangesInput`). Variables that ancestors set are not restored
  (`ResumeForgetsVariable`).
- Running from a node skips its ancestors, and a skipped condition does not switch off the branch it
  did not take. Such a branch is executed even though the run being resumed had skipped it
  (`ResumeWakesBranch`, `OnlySkippedConditions`). The rest of the graph comes out as before exactly
  when there is no such branch: when every node that was switched off was switched off by some
  condition that is run again (`RerunRepeatsIff`).
- The webhook limit is no limit per window: the expiry is renewed by every call, so calls that keep
  coming are refused for good, however slow (`SteadyCallsAreCutOff`).

## Model

| member | source | states |
|---|---|---|
| Kahn.Topo | app/core/executor.py:30-48 | the loops of `_topo` compute the order and the successor lists of the specification, for every edge list |
| Kahn.RelaxMeaning | app/core/executor.py:43-47 | decrementing along a successor list queues, once each, exactly the nodes whose in-degree comes down to zero |
| Kahn.OrderIsExactlyAcyclicPart | app/core/executor.py:30-48 | the order has no duplicates and contains exactly the nodes neither on a cycle nor downstream of one |
| Kahn.EdgesPointForward | app/core/executor.py:35-48 | the source of every in-graph edge into a scheduled node is scheduled, strictly before it |
| Kahn.UpstreamIsEarlier | app/core/executor.py:30-48 | whatever leads to a scheduled node over any path is scheduled strictly earlier |
| Levels.ComputeLevels | app/core/executor.py:75-106 | the loops of `_compute_levels` compute the levels of the specification from the successor lists |
| Levels.SpreadLevel | app/core/executor.py:95-105 | one round of the level loop is one sweep over the concatenated successor lists, with its `seen` set |
| LevelTheorems.LevelsFlattenToOrder | app/core/executor.py:30-106 | laid end to end, the levels are the very list `_topo` returns, not just some topological order |
| LevelTheorems.LevelIsLongestPath | app/core/executor.py:75-106 | the level of a node is the length of the longest in-graph path that ends at it |
| LevelTheorems.UpstreamIsLower | app/core/executor.py:78-81 | everything that leads to a node sits in a strictly lower level |
| LevelTheorems.LevelIsIndependent | app/core/executor.py:533-539 | no node of a level reaches another node of that level, or itself |
| Reachability.ReachableViaHandle | app/core/executor.py:60-72 | terminates on every graph with exactly the nodes reachable through the given handle |
| Reachability.AncestorsOf | app/core/executor.py:378-390 | terminates with exactly the strict ancestors of the start node |
| NodeExec.ExecNode | app/core/executor.py:173-288 | input choice, retries, failure mode, untaken branch and loop detection of one node, as specified |
| NodeExec.RunAttempts | app/core/executor.py:233-250 | the retry loop over `range(retry_max + 1)` makes its passes up to the first answer, carries context writes along, and makes none when the range is empty |
| NodeExec.RetryPolicy | app/core/executor.py:233-250 | every attempt but the last failed, the last one answered or was the last allowed, and each attempt found what the earlier ones wrote |
| NodeExec.Exec | app/core/executor.py:173-288 | the node run raises exactly when `retry_max` or `retry_delay` does not convert to a number or `retry_max` is negative |
| NodeExec.InputIs | app/core/executor.py:197-208 | in every context, the input is what the context holds for the source of the first edge in the list that leads to the node, or an empty object if it holds nothing for it; without any edge it is the payload |
| NodeExec.SeedIs | app/core/executor.py:446-451 | the seed of a node, and the input of a body node, is what the context holds for the source of the first edge that it holds something for |
| NodeExec.InputIsMostRecentIff | app/core/executor.py:197-206 | if `i` is the first and `j` the last edge into a node, the input is what the source of `j` has, in every context, if and only if both edges have the same source |
| NodeExec.ConditionSwitchesOff | app/core/executor.py:271-282 | a condition that answered switches off exactly the nodes reachable through the handle not taken and not through the one taken, which its `result`, or an answer that is no object, decides by Python's truth; no other node switches anything off |
| NodeMeaning.RaisesIff | app/core/executor.py:225-233 | the node run raises exactly when its settings do not allow some number of retries: `retry_max` a non-negative integer, `retry_delay` a number, as `int` and `float` take them |
| NodeMeaning.RunIsAttempted | app/core/executor.py:233-269 | with `m` retries allowed there are at most `m + 1` attempts, all but the last failed, and the trace records the last: the answer, or `Type: message` with the output of the failure mode |
| NodeMeaning.AnswersOnRetry | app/core/executor.py:233-250 | a second attempt runs on what the first one wrote before it failed |
| Values.IdsInOrder | app/core/executor.py:31 | the ids of the graph are those of its nodes, in the order of the list |
| Values.LastNodeCounts | app/core/executor.py:366 | of several nodes with one id the last counts |
| LoopBody.ExpandLoop | app/core/executor.py:298-334 | the nested loops of the expansion give one result per item, each from a fresh copy of the outer context; items are list elements, characters or keys, and anything else cannot be iterated |
| LoopBody.LoopIsHomomorphism | app/core/executor.py:308-334 | the results for `xs + ys` are those for `xs` followed by those for `ys`, even for handlers that write their item context |
| LoopBody.LoopCount | app/nodes/action_loop.py:7-18 | a loop node yields one entry per item kept by `max_items` (Python slice semantics, negative caps included), entry k from item k alone |
| LoopPasses.LoopTakes | app/nodes/action_loop.py:7-18 | a loop node goes through the list under its field, or the one it is given; anything else counts as a list of one; its answer has the kept items, their number and the loop flag |
| LoopPasses.BodySetIs | app/core/executor.py:301-306 | the body is exactly the targets of the `body` handle and their direct successors |
| LoopPasses.BodyOrderIs | app/core/executor.py:51-57 | a pass runs, once each, exactly the nodes of the body but the loop itself and what a cycle within the body reaches |
| LoopPasses.BodyEdgesPointForward | app/core/executor.py:51-57 | no body node runs before one that feeds it |
| LoopPasses.EntryIsPass | app/core/executor.py:308-334 | every pass begins with the item under `item` and the loop's id and otherwise with what the loop found; each body node is given what its first source with an entry has, else its own entry or the item; what its handler writes is kept, and its answer or its error under its id; and the entry of the pass is what is left for the target of the first `body` edge, or the item without one |
| LoopPasses.ItemStaysInSight | app/core/executor.py:310-332 | every node of a pass finds the item under `item` and the loop's id, as long as no body node or body handler writes there |
| LoopPasses.SingleBody | app/core/executor.py:308-334 | a body of one node fed by the loop alone is called once per item, on the item, in the outer context with the item under `item` and the loop's id, and the entries are its answers |
| LoopPasses.ExpansionIs | app/core/executor.py:298-334 | the expansion of an answer has an entry for each element, character or key that its `items` list, and their number; null, truth values and numbers cannot be expanded |
| Locality.ExecLocal | app/core/executor.py:173-288 | a node's whole run depends on the context only through its input and what its handler looks at, and contexts that differ elsewhere come out differing only there |
| Locality.ExecWrites | app/core/executor.py:225-249 | a node's run changes the context only at keys its handler writes |
| Locality.ExpandedLocal | app/core/executor.py:298-334 | a loop's expansion does not depend on outputs out of sight of its body, even for body handlers that write |
| Refinement.ParallelRefinesSequential | app/core/executor.py:438-671 | from every state, when handlers read only what earlier levels wrote and writers run alone at their level, the parallel run has the results, context, skip set, executed traces in order, passed-over traces and finish events of the sequential one, and a stop blames the same node with the same message after the same executed traces |
| Refinement.LevelRefines | app/core/executor.py:544-641 | the same for one level: filter pass, fast path or pool, and application in level order |
| Refinement.DeltaMissesLevel | app/core/executor.py:271-282 | a condition never switches off a node of its own level, whatever the handlers of the level read |
| Writers.PooledWriteIsLost | app/core/executor.py:603-632 | on every graph, a key only one node writes is absent at the end of a parallel run if that node did not run alone at its level, and present at the end of a sequential run that executed the node |
| Writers.ModesAgreeIff | app/core/executor.py:530-641 | for handlers that write nothing or a key of their own, a completed sequential run has the same outcome as the parallel one if and only if every node that wrote was the only one of its level to run |
| Writers.ModesAgreeIffKnownBefore | app/core/executor.py:530-641 | without conditions in the graph, the same condition on the levels and the skip set the run starts with |
| Divergence.WritersDiverge | app/nodes/action_set_variable.py:8-13 | two unconnected nodes, one of which sets a variable the other reads, have different results in the two modes |
| Divergence.SiblingReadersDiverge | app/core/executor.py:533-539 | two unconnected nodes, one of which looks at the output of the other, have different results in the two modes, though neither writes the context |
| LoopDivergence.LoopBodySeesSeed | app/core/executor.py:298-334 | with handlers that write nothing and look at nothing but their input, a loop whose body is also fed by a later node of its level has different results in the two modes |
| Divergence.EdgeFree | app/core/executor.py:30-106 | without edges, node order is the order and the single level |
| RunLaws.SequentialRunBalances | app/core/executor.py:438-526 | every sequential run has one trace and one result per node reached, in order, one start and one finish event per executed node, attempts within the retry budget, and ends the traces at the node it blames, which failed, or crashed because it does not run, or answered with a loop that cannot be iterated; the skip set is the initial one plus what answered conditions switched off, and it alone decides who was executed |
| ParallelLaws.ParallelRunBalances | app/core/executor.py:530-679 | the same for every parallel run, whatever its handlers read and write: one trace and one result per node reached, a start and a finish event per executed node, both in the order of the traces; a stopped run has traced all earlier levels, then the passed-over nodes of its level, then its other nodes up to the blamed one, and has started but not finished the rest of the level; the blamed node failed, crashed on the fast path or in the pool, or looped over what cannot be iterated |
| DataFlow.EveryRunSkips | app/core/executor.py:271-282 | in either mode, completed or not, the skip set is the initial one plus what answered conditions switched off, and a trace says skipped exactly for notes, disabled nodes and nodes in it |
| RunLaws.DeltaIsLater | app/core/executor.py:271-282 | a condition never switches off itself or a node scheduled before it |
| RunLaws.ExecFacts | app/core/executor.py:225-282 | a node that runs leaves a trace whose input, attempts and output agree with its result, signal and skip delta |
| GraphRun.ModeDoesNotMatter | app/core/executor.py:400-435 | a request has the same outcome in either mode when writers run alone at their level |
| RunMeaning.RootsGetPayload | app/core/executor.py:354-371 | in every run, of either mode, completed or stopped, a root that runs is given the payload of the request, or an empty object for a payload that is false to Python |
| RunMeaning.PayloadStays | app/core/executor.py:371 | every run holds that payload under `__initial_payload__` to its end |
| RunMeaning.UnknownStartIsIgnored | app/core/executor.py:377 | a request to run from no node, an empty id or an id the graph does not have is an ordinary one |
| RunMeaning.WorkersDecide | app/core/executor.py:401-425 | the levels are used exactly for parallel graphs with two workers or more |
| RunMeaning.TraceMeans | app/core/executor.py:173-288 | in a run of either mode, completed or stopped, every executed node that runs finds what leads to it as the run leaves it, and its seed under its own id; its input is what the run leaves for the source of its first edge; and its trace records the attempts its handler made on what it found |
| RunMeaning.AnswerIsKept | app/core/executor.py:507-526 | a run that went on after a node holds its answer in context and results, unless the answer is an object with a true `__loop__` |
| RunMeaning.PassedOverTells | app/core/executor.py:463-479 | the result, the remark and the blank trace of a note, a disabled node and a node switched off, in either mode |
| RunMeaning.PassedOverInput | app/core/executor.py:446-461 | the input noted for a node passed over: its seed in the sequential mode, none in the parallel one |
| RunMeaning.StopLeaves | app/core/executor.py:497-506 | a run of either mode that stops leaves the message of the failure for the node it blames, in context, results and trace; a crash in the pool leaves the trace the pool writes; a loop that cannot be iterated leaves its answer |
| Resume.ResumeRunsStart | app/core/executor.py:373-398 | in either mode a resumed run starts with exactly the strict ancestors skipped, they stay skipped, nothing switches the start node off, and it runs unless it is a note or disabled |
| Resume.ResumeRecomputes | app/core/executor.py:373-435 | resumed with the context of a run of the same graph and payload, completed or stopped, a start node that was executed and looks at upstream outputs only gets the trace it had: same input, output and attempts, whichever modes the two runs are in |
| Resume.ResumedTraceIsRunOnSeeds | app/core/executor.py:373-398 | in either mode and whatever the prior outputs are, the start node of a resumed run takes its input from the seeds, and its trace is that of its run on the seeded context |
| Resume.ResumeFromTraces | frontend/src/pages/canvas/CanvasApp.jsx:1023-1033 | resumed with the output recorded in the trace of its first source, the start node has the input it had if and only if that source was executed and is no loop, or was passed over by a run that already had null for it |
| ResumeRun.RerunRepeatsIff | app/core/executor.py:373-435 | after a completed run from scratch, the run from a node on, given the context that run left and in any mode, completes with the same trace for every node that is not skipped as an ancestor, if and only if every such node that was switched off was switched off by some condition that is itself run again |
| ResumeRun.OnlySkippedConditions | app/core/executor.py:373-398 | a resumed run that completes executes every node downstream of no conditions but ancestors of its start node, whatever the earlier run did with it |
| ResumeRun.BlamedNode | app/core/executor.py:438-679 | the node a stopped run of either mode blames was not to be skipped, and does not run or has a trace after which no run goes on |
| LoopEntries.LoopEntry | app/core/executor.py:644-679 | in either mode a run leaves for a loop, whose body sees only what leads to the loop, the loop and itself, the expansion of the loop's list on the final outputs of what leads to it |
| Resume.ResumeWithoutSource | app/core/executor.py:391-397 | with nothing sent for its first source the start node gets an empty object, which is what it had if a run from scratch passed the source over |
| ResumeDivergence.DisabledSourceChangesInput | frontend/src/pages/canvas/CanvasApp.jsx:1023-1033 | a graph whose start node has a disabled first source: its input is an empty object in a run from scratch and null in the run resumed from its traces |
| ResumeDivergence.ResumeForgetsVariable | app/core/executor.py:391-397 | a start node that reports whether an ancestor's variable is set answers no in every resumed run, and yes in the first run exactly if that was sequential or the ancestor ran alone at its level |
| ResumeDivergence.ResumeWakesBranch | app/core/executor.py:373-398 | a condition with a node on either branch: run from scratch it skips one, and a run from the other, with all outputs of that run and in any modes, executes it |
| DataFlow.TracesAreStable | app/core/executor.py:197-288 | in a run of either mode, completed or stopped, running an executed node again on the final context gives its trace, or the same crash in the pool, if its handler looks at upstream outputs only |
| DataFlow.InputsAreFinalOutputs | app/core/executor.py:197-208 | in a run of either mode, completed or stopped, the recorded input of every executed node that runs is the final output of the source of its first edge (the payload for a root), and its own stored output is still in context and results |
| DataFlow.ContextFrame | app/core/executor.py:438-679 | in either mode a run leaves alone what the context holds for nodes skipped from the start or not scheduled, variables apart, and its skip set only grows |
| DataFlow.PassedOverKept | app/core/executor.py:456-480 | a run of either mode, completed or stopped, leaves alone what the context holds for a node it passed over, and traces null for it |
| SubFlow.EndlessCallsFail | app/nodes/action_call_graph.py:10-43 | graphs that are bound to call each other, in any ring, end at every depth, and end in a failure; a graph is bound to call another if a scheduled, enabled node, wherever in the graph, calls it, no condition can switch that node off, and its failure aborts |
| SubFlow.DeepCallsFail | app/core/executor.py:349-350 | a chain of graphs, each bound in that sense to call the next, that goes past depth 5 fails as a whole, whatever else the graphs contain and in whichever mode each runs |
| SubFlow.NestingLimit | app/core/executor.py:349-350 | the limit is exact: graphs of any size, in any mode, whose nodes do not fail by themselves and whose calls are nested as deep as a chain of calls they are bound to make, complete if and only if the deepest run is at depth 5 or less |
| CallMeaning.CallIsRun | app/nodes/action_call_graph.py:10-43 | in a run of a stored graph, of either mode, completed or stopped, the last attempt of every executed call ends as the run of the graph it names does, one level down, in that graph's mode, on the payload made of the call's input and the context it finds: it answers the final context, or fails with the run's exception, for an unknown graph, or past depth 5; and the trace of the call records it |
| CallMeaning.AnswerHoldsPayload | app/nodes/action_call_graph.py:41-43 | the answer of a call that succeeded has the payload it sent under `__initial_payload__` |
| CallMeaning.AttemptIs | app/nodes/action_call_graph.py:10-43 | at every depth a call node ends as the called graph's run does, and every other node is as it is anywhere |
| Executor.GraphExecutor.RunSequential | app/core/executor.py:438-526 | the loop over the order performs the sequential run on the shared fields |
| Executor.GraphExecutor.RunParallel | app/core/executor.py:530-641 | the loop over the levels performs the parallel run on the shared fields |
| Executor.GraphExecutor.RunPool | app/core/executor.py:603-632 | whatever order the workers finish in, each node's result is its run against the level's snapshot |
| Executor.GraphExecutor.ApplyNodeResult | app/core/executor.py:644-679 | storing a result, aborting or expanding a loop changes the shared fields as specified |
| Executor.RunGraphOn | app/core/executor.py:338-435 | a whole request: order, levels, resume, mode and final state |
| LeaderLock.LockStore.TryAcquire | app/scheduler.py:63-66 | wins exactly when no unexpired key exists, and then owns it |
| LeaderLock.LockStore.TryRefresh | app/scheduler.py:69-91 | succeeds exactly for the owner of the unexpired key, and changes nothing otherwise |
| LeaderLock.LockStore.Release | app/scheduler.py:78-96 | deletes the key exactly when the caller owns it |
| LeaderLock.OwnsIffTimely | app/scheduler.py:63-96 | in every reachable state a replica in the leader section owns the unexpired lock exactly when its last successful evaluation is less than a TTL ago |
| LeaderLock.AtMostOneLeader | app/scheduler.py:222-262 | while no leader lets a TTL pass between evaluations, at most one replica is in the leader section, and it owns the lock |
| LeaderLock.LiveLockIsPrivate | app/scheduler.py:16-19 | only its owner's own refresh or release touches a live lock |
| LeaderLock.CrashedLockHolds | app/scheduler.py:63-66 | until the lock of a crashed leader runs out nobody takes, prolongs or deletes it, and nobody becomes leader |
| LeaderLock.LostLeaderStepsDown | app/scheduler.py:233-240 | a leader that lost the lock stops at its next evaluation and leaves the lock alone |
| LeaderLock.TimelyLeaderStays | app/scheduler.py:233-240 | a leader that has the lock leads on through its next evaluation and has the lock for a whole TTL again |
| LeaderLock.ReleaseHandsOver | app/scheduler.py:255-262 | a leader shut down while it has the lock keeps it until it releases it, and then the next replica to poll, itself included, leads at once |
| LeaderLock.OverlapIsBounded | app/scheduler.py:222-262 | without timing assumptions, two replicas lead side by side for at most the longest evaluation gap minus the TTL |
| LeaderLock.FailoverBound | app/scheduler.py:307-318 | with a live standby polling at most P apart, nobody leads only for less than TTL + P |
| LeaderLock.FailoverBoundIsTight | app/scheduler.py:21-23 | a crash after which nobody leads for TTL + P - 1 ms |
| LeaderLock.FailoverWithinTtlIff | app/scheduler.py:21-23 | the documented bound of the TTL holds in every behaviour if and only if standbys poll every millisecond |
| Template.MatchIsPattern | app/nodes/_utils.py:5 | the scanner finds a match exactly where the pattern has one, with that reference |
| Template.RenderIsSubstitution | app/nodes/_utils.py:29-74 | on every text: without a match it is unchanged; otherwise the first match of the pattern is replaced by its value, or left if it has none, the text before it is copied and the text after it is rendered in turn |
| Template.UnresolvedIsUnchanged | app/nodes/_utils.py:29-74 | if no reference of a text resolves, the text is unchanged |
| Template.RenderIsIdempotent | app/nodes/_utils.py:29-74 | rendering twice is rendering once, for every text, if no value is empty, starts with `}`, ends with `{` or contains `{{` |
| Template.IdempotentIff | app/nodes/_utils.py:29-74 | for values without `{{` the condition is exact: idempotent on all texts if and only if no value is empty, starts with `}` or ends with `{` |
| Template.PlainValuesAreStable | app/nodes/_utils.py:29-74 | rendering twice is rendering once if no value is empty or contains a brace |
| GraphTables.GraphStore.SaveGraphVersion | app/core/db.py:747-766 | MAX + 1, insert and prune on the table, as specified |
| GraphTables.GraphStore.ApiCreate | app/routers/graphs.py:82-89 | a new graph with its document and a first snapshot |
| GraphTables.GraphStore.ApiImport | app/routers/graphs.py:108-121 | the same for an imported document |
| GraphTables.GraphStore.ApiDuplicate | app/core/db.py:631-650 | a missing graph is refused, otherwise a copy of the document under a new id, without history |
| GraphTables.GraphStore.ApiDelete | app/routers/graphs.py:169-182 | a missing graph is refused, otherwise it goes with its history |
| GraphTables.GraphStore.ApiUpdate | app/routers/graphs.py:146-162 | a missing graph is refused, otherwise the row is updated and, with a new document, a snapshot filed |
| GraphTables.GraphStore.ApiRestore | app/routers/graphs.py:339-356 | a missing graph or another graph's version is refused, otherwise the document comes back and is filed again |
| VersionHistory.HistoryIsLastTwenty | app/core/db.py:747-766 | over every sequence of requests a graph's rows are the last min(n, 20) of its n saved documents, numbered consecutively up to n, and the newest is the current document |
| VersionHistory.OthersUntouched | app/core/db.py:747-766 | no request changes another graph or its history |
| VersionHistory.RestoreBringsBack | app/routers/graphs.py:339-356 | a restored document is current again and the newest snapshot, one number up, under a note that names the version restored |
| VersionRoutes.RefusedIff | app/routers/graphs.py:339-349 | over every sequence of requests, a request is refused exactly if its graph does not exist or, for a restore, if none of the graph's own rows has the id; a refused request changes nothing |
| VersionRoutes.IdsAreUnique | app/core/db.py:755-759 | no two rows of the version table ever have the same id |
| VersionRoutes.CreatedHas | app/routers/graphs.py:77-121 | a created or imported graph has its name and document and one row, number 1, with its note |
| VersionRoutes.DuplicateHas | app/core/db.py:631-650 | a duplicate has the document of its original, or an empty one, under its own name, and no rows |
| VersionRoutes.UpdatedHas | app/routers/graphs.py:147-162 | an update changes the name and the document it names; a new document is filed after the old rows, less the oldest of twenty, one number up, with the note, under the new name unless that is empty |
| VersionRoutes.RestoredHas | app/routers/graphs.py:340-356 | restoring any of the graph's own rows makes its document current under the graph's name, and files it after the old rows, less the oldest of twenty, one number up, with a note of the version restored |
| VersionRoutes.DeletedHas | app/core/db.py:653-658 | a deleted graph is gone with its rows |
| RateLimit.RateCounter.Check | app/routers/webhooks.py:16-33 | one call against the counter, with the limit switched off and a non-positive window |
| RateLimit.AllowedIffEarlyInBurst | app/routers/webhooks.py:24-31 | a call is allowed exactly when it is among the first `limit` since the last silence of a window |
| RateLimit.SpanIsLimited | app/routers/webhooks.py:24-31 | any span shorter than the window lets at most `limit` calls through |
| RateLimit.RefusedUntilSilence | app/routers/webhooks.py:24-31 | after a refusal no call is allowed before a silence of a whole window |
| RateLimit.PassesAgainIffSilent | app/routers/webhooks.py:24-31 | from a refused call up to any later one, some call passes if and only if a silence of a whole window lies in between |
| RateLimit.SteadyCallsAreCutOff | app/routers/webhooks.py:24-31 | calls less than a window apart are allowed exactly for the first `limit`, however slow they are |

## Left out

- Handlers themselves (HTTP, SQL, mail, cloud and chat services, `eval` and `exec` nodes), credentials, logging, telemetry, durations and the 5 MB trace truncation: inputs and outputs of the model or no part of it. The wait before a retry is part of the attempt it precedes.
- Duplicate node ids and a node named `__initial_payload__`: the theorems ask for `WellFormed` graphs; `Topo`, `ComputeLevels`, the runners and `RunGraphOn` are modelled without that.
- ParallelRefinesSequential: traces of passed-over nodes are compared as a set and without their input, because the parallel runner records no input for them and lists them before the executed nodes of their level; after an abort only the executed ones are compared.
- ParallelRefinesSequential: a handler that looks at its own level, and a loop body that a later node of its level feeds, are excluded by `LevelsSafe`, each with a graph on which the modes then differ; whether they differ on a given graph depends on what the handler makes of what it sees.
- ModesAgreeIff: handlers that write in some runs only, or a key another handler writes too, are covered by the sufficient half.
- IdempotentIff: for values that contain `{{` only the sufficient half, `RenderIsIdempotent`, is given.
- ParallelRefinesSequential: a crash inside a worker (a node that does not run) is compared by the node blamed and the traces before it, because the pool turns it into an abort with a trace of its own.
- ExpandLoop: the keys of an object that is iterated come in the order the runtime lists a set, not in the order they were inserted.
- LoopIsHomomorphism: the order in which Python iterates the body set is a parameter, since results may depend on it when a body handler reads another body node that leads to it only through nodes outside the body.
- RerunRepeatsIff: a node that looks at other outputs than upstream ones, or at variables, and a loop whose body does, are excluded by `Rereads`; whether they repeat depends on what the handler makes of what it sees.
- CallIsRun: how the payload of a call is made of its configuration and its input is a parameter; a payload that is neither an object nor a list, which the program cannot copy, is run like any other.
- EndlessCallsFail: calls made from inside a loop body, to which the code does not pass the depth.
- Numbers are integers, and those in settings fit a float; which texts `int` and `float` take is a parameter; node data are objects and handlers answer JSON values; JSON parsing, floats and object key order are not modelled. The resolver of the renderer is a parameter; it covers context references and credentials alike.
- The scheduler's jobs, its fallback without Redis, failed Redis calls other than as time that passes or a crash, and clock drift between replicas.
- HistoryIsLastTwenty: requests run one at a time and to the end; concurrent saves and a failure between the two statements of a route are not modelled. Tags, slugs, the names of duplicates, cron synchronisation, permissions and audit rows are left out.
- Rate policy changes during a trace, an unreachable Redis (every call is then allowed), and the login limiter.
- Run status, Celery retries, approvals, authentication and the web interface.
