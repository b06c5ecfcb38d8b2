# A verified model of the scheduler library's cluster snapshot

The library simulates scheduling on a mutable view of a cluster. A caller can preempt pods and put them
back, schedule pods for real or as a dry run, wrap calls in a transaction and reset everything. All of it
rests on one undo log, two version counters and handles that can be used once. This project models that
state machine, the parallel filter search it schedules with, the extender chain and the scoring on top of
it, the wrapper that records net differences, and the synchronisation with the scheduler cache. It proves
what they promise over all inputs, all runs and all interleavings.

## How the model is laid out

| file | models |
|---|---|
| `Pods.dfy`, `Store.dfy` | pods, nodes as multisets of pods, add and remove by UID, the scheduler snapshot with node generations |
| `Undo.dfy`, `Operations.dfy` | the undo log as a stack of inverse operations, and every call of the snapshot as a function on values |
| `Batches.dfy` | what a call of SchedulePods answers, told over the decisions of the cycles alone |
| `ClusterSnapshot.dfy` | the objects, fields and loops of the snapshot, each method equal to its function |
| `Machine.dfy`, `Handles.dfy`, `Safety.dfy` | runs: any sequence of calls, what every run keeps, when handles are valid, capacity |
| `NoUndoFails.dfy`, `RoundTrip.dfy`, `AnyOrder.dfy` | runs: no undo ever fails, Unpreempt undoes PreemptPods, handles used in any order |
| `Hypotheses.dfy`, `Contents.dfy` | the exact conditions under which the promises hold, and the inputs for which they fail |
| `Template.dfy` | scheduling copies of one pod |
| `MutatingSnapshot.dfy` | the wrapper with its two maps of added and removed pods |
| `FilterEngine.dfy`, `FilterSearch.dfy`, `Arithmetic.dfy` | the parallel filter search as a step system, the rotation of the node list, and the shared memory implementing the search |
| `Extenders.dfy`, `Scores.dfy`, `Feasibility.dfy`, `FitPod.dfy`, `Choosing.dfy`, `Pipeline.dfy` | the extender chain, scoring, the search over a placement, the nominated node and the feasibility check, one scheduling attempt, and how attempts meet what safety and optimality assume |
| `StateSync.dfy` | resetting and then updating the snapshot from the cache |

Revert closures are a datatype of three operations. The closure that puts a preempted pod back keeps the
caller's object and reads its node name when it runs; the others hold clones. Objects whose node name is
read or written stay objects in the classes, and the functions on values carry a table of their names.

A transaction is split at the call of its function into a begin and an end, with the locals of the call as
fields. Each execution of any such function is one sequence of calls between them, so a statement about all
sequences covers all functions.

The parallel search makes every atomic add, comparison, write and subtract a step of its own. A run is any
sequence of choices of which piece of work moves next. Parameters called `picks`, `listing` and `order` are
such choices: the interleaving of workers, the order in which a set of names is gone through, the order in
which scoring extenders finish. Results are proved for all of them.

Scheduling cycles are parameters of a call (`Scheduler`): functions of the nodes, the pod and the cycle
number, since plugins are deterministic functions of these. `Choosing` models how one cycle comes to its
decision, and `Pipeline` shows that decisions made that way meet the assumptions of the theorems on runs.

## What the model found

* The documentation of the handle (`pkg/upstreamsync/snapshot/types.go:84-97`) says that any permanent
  mutation invalidates it. A rolled-back transaction puts the preemption version back
  (`pkg/upstreamsync/snapshot/snapshot.go:146`), so a handle taken inside it matches again once the counter
  has climbed, and using it puts pods back that are already there. `LostHandleRefusedForever` gives the exact
  condition, `LostHandleDuplicatesPods` the input.
* `SchedulePods` writes the node name of the caller's pod even in a dry run (`snapshot.go:278`), and the
  closure that undoes a preemption reads that name when it runs (`helpers.go:66`). After such a dry run a reset
  (`DryRunMisplacesReset`) or an Unpreempt (`DryRunMisplacesUnpreempt`) puts a pod on the wrong node. A call
  keeps every earlier version restorable if and only if it gives no pod waiting in the log another node name
  (`DisciplineIsExact`); that is all the results on runs ask of a call. It is met when no listed pod waits
  (`NoneWaitingDisciplined`), when those that wait name every node the placement has
  (`FixedNamesDisciplined`), and when none of them is scheduled (`UnscheduledDisciplined`).
  `SchedulingSafeExactly` is what a caller can check beforehand, whatever the scheduling cycles decide.
* A removal goes by UID, but the caller's copy is put back. `PreemptRestoresExactlySameContent`: undoing a
  preemption of pods with different UIDs is exact precisely when each copy equals the resident removed for it.
* The maps of the wrapper are keyed by pod alone. `AddBalancedExactly` and `RemoveBalancedExactly` give the
  guard under which they stay the net difference, in both directions.
* Without filter plugins the search returns a node twice exactly when it is asked for more nodes than there
  are (`ShortcutExact`). If the pre-filters then only name nodes outside the placement, it divides by zero,
  unless it is asked for all nodes or for none or a nominated node settles the attempt (`PanicsExactly`); a
  feasibility check never does.
* A nominated node settles the attempt whatever names the pre-filters left (`NomineeSettlesExactly`). If it passes
  the filters and the extenders drop it, the search over the placement counts it as found and as explained, and the
  next search starts one node too far (`FullSearchComesRound`).
* `SchedulePods` asks each cycle for one node (`snapshot.go:267`). If an extender then drops that node, the pod is
  reported unschedulable although nobody rejected another node, and its decisions never depend on scores
  (`OneNodeNeedsNoScores`). `FinalExactly`: in every interleaving,
  "unschedulable" is final for all honest filter extenders if and only if the search is asked for at least as many
  nodes as pass the filters; for one node that means that at most one passes (`OneNodeFinalExactly`). It is also
  final when no extender is interested in the pod (`UnschedulableIsFinal`).

## Model

| member | source | states |
|---|---|---|
| Pods.RemoveUndoesAdd | pkg/upstreamsync/snapshot/helpers.go:31-51 | the closure that undoes an addition gives back the very same nodes |
| Pods.AddUndoesRemove | pkg/upstreamsync/snapshot/helpers.go:54-72 | the closure that undoes a removal gives back the very same nodes, when the caller's copy equals the resident |
| Undo.ExtendsKeepsHistory | pkg/upstreamsync/snapshot/snapshot.go:83-96 | after operations that only add to the log, every earlier version still restores to what it did |
| Undo.UndoStages | pkg/upstreamsync/snapshot/snapshot.go:83-87 | restoring a version in one go is the same as restoring a later one first |
| Operations.PreemptAllOrNothing | pkg/upstreamsync/snapshot/snapshot.go:315-369 | succeeds exactly when every listed pod, counted with repetitions, is resident where its object says; then exactly those pods are gone and the log grew by one entry each; otherwise the snapshot is as before and the error tells a pod without a node from one that is not there |
| Operations.UnpreemptExact | pkg/upstreamsync/snapshot/snapshot.go:374-395 | an accepted handle is spent and gives back exactly its pods at the nodes their objects name, each undoable, and all others when some cannot be put back; a refused one changes nothing; each of the three errors has its own cause |
| Operations.UnpreemptLogs | pkg/upstreamsync/snapshot/snapshot.go:331-349 | a handle accepted in full is logged pod by pod, last first |
| Operations.ScheduleOneExact | pkg/upstreamsync/scheduler.go:180-226 | a failed reservation or an unknown host leaves no trace; a success adds exactly the pod to the host |
| Operations.ScheduleLeavesNoTrace | pkg/upstreamsync/snapshot/snapshot.go:241-262 | for any listed pods, waiting in the log or not: a dry run, and a batch ending in an error, leave pods, log and preemption version as they were; a dry run answers as the real run does; a kept call can be undone, and extends the log if and only if no object the log reads was renamed |
| Operations.KeptScheduleConserves | pkg/upstreamsync/snapshot/snapshot.go:241-296 | a kept call grows every node and the log by exactly the successful results, and bumps the preemption version exactly when there is one |
| Batches.ScheduleTells | pkg/upstreamsync/snapshot/snapshot.go:241-296 | over the decisions of the cycles alone: pods are attempted in order up to a failure if the call stops there; each is reported with the refusal, the Reserve verdict or the host of its cycle; the call errs exactly when the placement was not assumed or an attempted pod has no framework; nodes, log and names change by exactly what the results report |
| Batches.StoryUnique | pkg/upstreamsync/snapshot/snapshot.go:266-293 | only one list of results satisfies that description |
| Operations.ScheduleAllAnswers | pkg/upstreamsync/snapshot/snapshot.go:266-293 | results answer the listed pods in order, and when stopping on failure all but the last are successes |
| Machine.ResetRestoresStart | pkg/upstreamsync/snapshot/snapshot.go:113-122 | after any run, a reset outside a transaction puts every node back to where the run started, empties the log and raises the preemption version exactly if there was something to undo; inside one it fails and changes nothing |
| Machine.TransactionRollsBack | pkg/upstreamsync/snapshot/snapshot.go:130-156 | whatever calls its function made: a transaction ending in Revert or an error leaves pods, whole log and preemption version exactly as at its start; a committed one leaves pods, whole log and names exactly as its function did, and raises the version once more; while it is open another one, or a reset, is refused |
| Machine.RunSound | pkg/upstreamsync/snapshot/snapshot.go:62-96 | in every reachable state the log leads back to the start of the run, and the version of an open transaction is within the log and leads to its start |
| NoUndoFails.NoUndoEverFails | pkg/upstreamsync/snapshot/helpers.go:44-69 | in every state of every disciplined run, undoing the log to any version runs no closure that fails |
| Handles.AcceptedExactly | pkg/upstreamsync/snapshot/snapshot.go:374-383 | a handle taken outside transactions is accepted later exactly when it is unused, no transaction is open, and since then nothing committed, no pod was kept and no reset undid anything |
| Handles.AcceptedInsideExactly | pkg/upstreamsync/snapshot/snapshot.go:374-383 | a handle taken in a transaction is accepted while that transaction is open exactly when it is unused and no pod was kept since |
| Handles.RunWaits | pkg/upstreamsync/snapshot/snapshot.go:343-355 | in every state of every run, whatever the callers do, the removals of all pods of an acceptable handle, other than one from a rolled-back transaction, are in the log, and stay there over a roll-back that makes a handle acceptable again |
| RoundTrip.UnpreemptUndoesPreempt | pkg/upstreamsync/snapshot/snapshot.go:331-368 | a handle taken outside transactions and accepted after any disciplined run gives every node exactly what the preemption took from it |
| RoundTrip.UnpreemptUndoesPreemptInside | pkg/upstreamsync/snapshot/snapshot.go:331-368 | the same for a handle taken inside a transaction and accepted before its end |
| Handles.CommittedHandlesNeverAccepted | pkg/upstreamsync/snapshot/snapshot.go:138-150 | no handle issued before a commit, inside or outside the transaction, other than one from a rolled-back transaction, is accepted after it |
| Handles.LostHandleRefusedWhileQuiet | pkg/upstreamsync/snapshot/snapshot.go:144-146 | a handle from a rolled-back transaction stays refused outside transactions until the next lasting change |
| Handles.UsedOnce | pkg/upstreamsync/snapshot/snapshot.go:381-388 | a handle accepted once, even by a call that fails, is refused for the rest of any run |
| Handles.LostHandleRefusedForever | pkg/upstreamsync/snapshot/types.go:84-97 | a handle from a rolled-back transaction is refused in all later runs if and only if it was used before the roll-back |
| Safety.NoNodeOverflows | pkg/upstreamsync/snapshot/snapshot.go:252-254 | if scheduling only places pods where they fit, then in every state of every disciplined run in which no handle from a rolled-back transaction is accepted, every node is within capacity, and so are its pods together with those all usable handles can put back |
| AnyOrder.UnpreemptInAnyOrder | pkg/upstreamsync/snapshot/snapshot.go:331-368 | any set of accepted handles can be used in any order with the same pods on every node |
| AnyOrder.UnpreemptKeepsPast | pkg/upstreamsync/snapshot/snapshot.go:374-395 | from any point along the way every version recorded before the first use still restores as it did |
| Hypotheses.RenamedRestoresExactly | pkg/upstreamsync/snapshot/helpers.go:65-69 | changing node names of caller's pods keeps every recorded version restorable if and only if no pod with its removal in the log changes its name |
| Hypotheses.SchedulingKeepsPastExactly | pkg/upstreamsync/snapshot/snapshot.go:275-279 | a call of SchedulePods, dry run or not, leaves every earlier version restorable if and only if it gave no listed pod waiting in the log another node name |
| Hypotheses.SchedulingSafeExactly | pkg/upstreamsync/snapshot/snapshot.go:241-296 | for every options and whatever is decided within the placement, every earlier version stays restorable if and only if each listed pod waiting in the log already names every node the placement has |
| Hypotheses.DisciplineIsExact | pkg/upstreamsync/snapshot/snapshot.go:275-279 | in every reachable state one call keeps all earlier versions restorable if and only if it meets the discipline of the results on runs |
| Hypotheses.NoneWaitingExactly | pkg/upstreamsync/snapshot/snapshot.go:241-296 | on a placement with at least two nodes a call is safe whatever is decided if and only if no listed pod waits in the log |
| Hypotheses.UnscheduledDisciplined | pkg/upstreamsync/snapshot/snapshot.go:275-279 | listing preempted pods is harmless if none of them is scheduled |
| Hypotheses.DryRunMisplacesReset | pkg/upstreamsync/snapshot/helpers.go:65-69 | an input for which a dry run makes the next reset put a pod on the wrong node |
| Hypotheses.DryRunMisplacesUnpreempt | pkg/upstreamsync/snapshot/snapshot.go:346-354 | the same input makes an Unpreempt with a valid handle put the pod on the wrong node |
| Contents.PreemptRestoresExactlySameContent | pkg/upstreamsync/snapshot/helpers.go:54-72 | for any list of pods with different UIDs, on any log and without assuming that a UID identifies a content: undoing the preemption gives back the nodes if and only if each listed copy equals the resident removed for it |
| Hypotheses.LostHandleDuplicatesPods | pkg/upstreamsync/snapshot/snapshot.go:144-146 | a handle from a rolled-back transaction is accepted in the next one and puts pods on top of themselves |
| Template.TemplateSchedulesMost | pkg/upstreamsync/snapshot/snapshot.go:217-239 | stopping at the first failure schedules exactly the smaller of the number asked for and the sum of how many copies fit on each node of the placement, whichever node with room is picked each time |
| Template.LimitsAreDownClosed | pkg/upstreamsync/snapshot/snapshot.go:217-239 | limits on requests and on the number of pods are a capacity in the sense of whole-run safety |
| Snapshots.AddPodToNode | pkg/upstreamsync/snapshot/helpers.go:31-51 | adds exactly the pod to the node and returns the operation that removes it; generations stay |
| Snapshots.RemovePodFromNode | pkg/upstreamsync/snapshot/helpers.go:54-72 | removes exactly the resident with the UID from the node the object names and returns the operation that adds the object's copy; generations stay |
| Snapshots.AssumeAndReserve | pkg/upstreamsync/scheduler.go:180-226 | assuming and reserving, with the pod forgotten again when reserving fails |
| Snapshots.UndoLog.RegisterOperation | pkg/upstreamsync/snapshot/snapshot.go:74-79 | the operation is on top and the version is the length of the log |
| Snapshots.UndoLog.Undo | pkg/upstreamsync/snapshot/snapshot.go:90-96 | pops a non-empty log and runs what it popped |
| Snapshots.UndoLog.RestoreState | pkg/upstreamsync/snapshot/snapshot.go:83-87 | for a version within the log the loop ends, never pops an empty log, and leaves exactly that prefix and what undoing the rest yields |
| Snapshots.ClusterSnapshot.ResetMutations | pkg/upstreamsync/snapshot/snapshot.go:113-122 | the new state and the result are those of the reset on values |
| Snapshots.ClusterSnapshot.TransactionBegin | pkg/upstreamsync/snapshot/snapshot.go:130-140 | a transaction opens unless one is open, remembering log and preemption version |
| Snapshots.ClusterSnapshot.TransactionEnd | pkg/upstreamsync/snapshot/snapshot.go:142-156 | rolls back to the log and the preemption version of the start, or keeps nodes and log as they are and raises the version |
| Snapshots.ClusterSnapshot.PreemptPods | pkg/upstreamsync/snapshot/snapshot.go:315-369 | the new state and the result are those of preemption on values |
| Snapshots.ClusterSnapshot.Unpreempt | pkg/upstreamsync/snapshot/snapshot.go:374-395 | the new state, the handle's new state and the result are those of unpreemption on values |
| Snapshots.ClusterSnapshot.ScheduleNext | pkg/upstreamsync/snapshot/snapshot.go:266-292 | one turn of the loop: state, names, log, results and whether to go on |
| Snapshots.ClusterSnapshot.SchedulePods | pkg/upstreamsync/snapshot/snapshot.go:213-296 | the new state, the error and the results collected, also beside an error, are those of scheduling on values |
| Snapshots.ClusterSnapshot.SchedulePodsByTemplate | pkg/upstreamsync/snapshot/snapshot.go:219-239 | fresh pods, all alike and on no node, scheduled until the first failure |
| Mutating.AddBalancedExactly | pkg/upstreamsync/mutable_snapshot.go:94-121 | an added pod leaves the maps the net difference from the initial state if and only if the pod's key is free or waits as removed from that very node |
| Mutating.RemoveBalancedExactly | pkg/upstreamsync/mutable_snapshot.go:62-92 | the same for a removed pod |
| Mutating.RunBalanced | pkg/upstreamsync/mutable_snapshot.go:62-121 | over any sequence of calls the maps are the net difference up to and only up to the first call that breaks the guard |
| Mutating.MarksAreDifferences | pkg/upstreamsync/mutable_snapshot.go:45-52 | added and removed pods are the two set differences between the current and the initial state |
| Mutating.MutatingSnapshot.AddPod | pkg/upstreamsync/mutable_snapshot.go:94-121 | adds exactly the pod, marks it or drops its removal mark, and leaves the generation alone |
| Mutating.MutatingSnapshot.RemovePod | pkg/upstreamsync/mutable_snapshot.go:62-92 | removes exactly the pod, marks it or drops its addition mark, and leaves the generation alone |
| Mutating.MutatingSnapshot.RestoreState | pkg/upstreamsync/mutable_snapshot.go:123-133 | for every order of going through the two maps, which shrink meanwhile, the nodes end as they started if and only if the maps were the net difference |
| FilterEngine.StepKeepsInv | pkg/upstreamsync/scheduler.go:568-590 | every atomic step of every worker keeps: one holder for each slot, counter equal to takers plus late claims, late claims only on a full buffer, an error exactly if a check failed, cancelled exactly if a piece came too late or failed |
| FilterEngine.SearchEnds | pkg/upstreamsync/scheduler.go:601-603 | while a worker has work left some piece can move, and every move uses up one of finitely many steps |
| FilterEngine.SearchCanFinish | pkg/upstreamsync/scheduler.go:601-603 | from every state of every interleaving some moves bring all workers to their end |
| FilterEngine.ClaimsAreDense | pkg/upstreamsync/scheduler.go:579-587 | at every moment of every interleaving the slots claimed are 0, 1, 2 and so on, each held by exactly one piece, which passed |
| FilterEngine.NoClaimAfterOverflow | pkg/upstreamsync/scheduler.go:579-584 | a claim that came too late exists only once every slot is taken, and from then on none is ever accepted |
| FilterEngine.FinalSlots | pkg/upstreamsync/scheduler.go:603-604 | at the end the counter is the number of slots written, and those are the first ones |
| FilterEngine.FinalCount | pkg/upstreamsync/scheduler.go:603-604 | the final counter is the smaller of the limit and the number of checks that ran and succeeded |
| FilterEngine.FullOrAllExamined | pkg/upstreamsync/scheduler.go:568-616 | without an error every interleaving takes as many pieces as pass, up to the limit, and has examined every piece if and only if no more pass than the limit: passed pieces taken once each, all others rejected with their reason |
| FilterEngine.FailsExactly | pkg/upstreamsync/scheduler.go:573-578 | when no more pieces pass than the limit, every interleaving ends in an error if and only if some check fails |
| FilterEngine.CancelledStartsNothing | pkg/upstreamsync/scheduler.go:582 | once the search is cancelled no piece is started any more |
| FilterEngine.EmptyMeansAllRejected | pkg/upstreamsync/scheduler.go:568-616 | if the search ends with no node and no error, every piece was examined and rejected |
| FilterSearch.RotationVisitsEachOnce | pkg/upstreamsync/scheduler.go:569-571 | from any start the rotation visits every place of the list exactly once |
| FilterSearch.RotationInOrder | pkg/upstreamsync/scheduler.go:569-571 | the rotation begins at the start, counted around the list, and goes from each place to the next |
| FilterSearch.ShortcutExact | pkg/upstreamsync/scheduler.go:549-556 | the shortcut names no node twice if and only if it is asked for at most as many as there are, and every node if and only if for at least as many |
| FilterSearch.ShortcutsContinue | pkg/upstreamsync/scheduler.go:549-556 | two shortcuts in a row return what one for both would, and one for all nodes from the beginning returns the list |
| FilterSearch.SearchIsRight | pkg/upstreamsync/scheduler.go:527-617 | whatever the interleaving and the start: different nodes that passed, as many as pass up to the number asked for, statuses only for nodes the filters rejected and with their reason, and if no more pass than asked for, every node in one of the two |
| FilterSearch.SearchFailsExactly | pkg/upstreamsync/scheduler.go:573-578 | a search fails only if the filters of some node fail, and certainly then if it is asked for at least as many nodes as pass |
| FilterSearch.Search.Move | pkg/upstreamsync/scheduler.go:568-590 | one atomic step on the shared counter, buffer and results is the step of the step system |
| FilterSearch.FindNodes | pkg/upstreamsync/scheduler.go:600-616 | the nodes read from the buffer, the statuses and the error are those of the run |
| FilterSearch.FindNodesThatPassFilters | pkg/upstreamsync/scheduler.go:527-617 | the number of nodes asked for, the shortcut with its division by zero, and the search |
| Extenders.ChainPartitions | pkg/upstreamsync/scheduler.go:622-666 | through uninterested extenders, ignorable failures and an early end, every node survives or gets exactly the status of the first extender that dropped it, never both, and no status is overwritten; when the chain fails the statuses so far are right |
| Extenders.ChainFailsExactly | pkg/upstreamsync/scheduler.go:628-649 | the chain fails if and only if an interested extender that may not be ignored is reached, with nodes left, and breaks |
| Extenders.BothMapsUnresolvable | pkg/upstreamsync/scheduler.go:650-661 | a node that any extender of the chain puts into both failure maps ends unresolvable |
| Extenders.SilentExtenderLosesNode | pkg/upstreamsync/scheduler.go:641-663 | an extender that does not account for a node makes it vanish from both sides |
| Extenders.Mark | pkg/upstreamsync/scheduler.go:650-661 | for every order of the two maps the statuses are the same, unresolvable taking precedence |
| Extenders.FindNodesThatPassExtenders | pkg/upstreamsync/scheduler.go:622-666 | the loop computes the chain |
| Scores.RunExtenders | pkg/upstreamsync/scheduler.go:725-771 | for every finishing order the shared map holds for each host the sum over interested, non-failing extenders |
| Scores.PrioritizeNodes | pkg/upstreamsync/scheduler.go:675-787 | each node's total and parts are its plugins' plus those of all extenders, whatever the finishing order; a constant score without scorers; an error exactly when the score plugins fail |
| Scores.GivenIsScaledSum | pkg/upstreamsync/scheduler.go:744-767 | an extender gives a host the sum of its listed scores, times the weight, scaled to the scheduler's range |
| Scores.OtherHostsChangeNothing | pkg/upstreamsync/scheduler.go:772-778 | scores for other hosts make no difference to a node |
| Feasibility.PlacementPartitioned | pkg/upstreamsync/scheduler.go:360-452 | if the search is asked for at least as many nodes as pass, every node of the placement is feasible after passing everything, or explained by its own status, or excluded by the pre-filters with the status of absent nodes set; never two of these, and nothing else is returned |
| Feasibility.FitFailsExactly | pkg/upstreamsync/scheduler.go:375-437 | a search fails only if the pre-filters, the filters of a candidate or a reached extender that may not be ignored fail, and certainly then if it is asked for at least as many nodes as pass |
| Feasibility.FailureExplains | pkg/upstreamsync/scheduler.go:424-437 | the statuses beside an error are those the filters found and those of the extenders before the one that broke |
| Feasibility.EmptyFitIsFinal | pkg/upstreamsync/scheduler.go:411-452 | an empty answer without an error means every node was rejected, if all nodes were asked for or no extender is interested |
| Feasibility.FinalExactly | pkg/upstreamsync/scheduler.go:411-452 | in every interleaving, empty answers are final for all honest filter extenders if and only if the search is asked for at least as many nodes as pass the filters |
| FitPod.PanicsExactly | pkg/upstreamsync/scheduler.go:551-556 | an attempt divides by zero if and only if no nominated node settles it, there are no filter plugins, the pre-filters only name nodes outside the placement, and a positive number of nodes but not all are asked for |
| FitPod.TurnedDownChangesNothing | pkg/upstreamsync/scheduler.go:400-409 | a nominated node that is turned down changes neither the kind of answer nor the nodes returned |
| FitPod.ReturnedAreLetThrough | pkg/upstreamsync/scheduler.go:360-452 | every node returned is in the placement, passed the filters and was kept by the extenders, and is one of the pre-filters' names unless it is the nominated node |
| FitPod.NomineeSettlesExactly | pkg/upstreamsync/scheduler.go:400-409 | a nominated node is returned, alone and without any status, if and only if it is in the placement, passes the filters and is kept by the extenders, whatever names the pre-filters left |
| FitPod.NomineeReasonKept | pkg/upstreamsync/scheduler.go:459-490 | a nominated node that is turned down still has a status in the answer, and if the filters rejected it their reason |
| FitPod.AttemptFailsExactly | pkg/upstreamsync/scheduler.go:400-437 | an attempt fails only if no nominated node settles it and something fails in the search over the placement; what fails on the nominated node alone never makes it fail |
| FitPod.AtMostAsked | pkg/upstreamsync/scheduler.go:535-543 | no attempt returns more nodes than it was asked for |
| FitPod.AsManyAsAsked | pkg/upstreamsync/scheduler.go:535-543 | where no extender is interested, a search returns as many nodes as pass, up to all of them, the number wanted, or one if nothing filters further or scores |
| FitPod.NextSearchGoesOn | pkg/upstreamsync/scheduler.go:424-427 | the next search takes up the list where this one left it |
| FitPod.Scheduler.EvaluateNominatedNode | pkg/upstreamsync/scheduler.go:459-490 | filters and extenders on the nominated node alone, with every failure taken as no answer |
| FitPod.FullSearchComesRound | pkg/upstreamsync/scheduler.go:424-427 | the next search after one with an answer for every node starts where that did, or one node further if the nominated node was dropped by the extenders; an attempt the nominated node settles leaves the start alone |
| FitPod.Scheduler.FindNodesThatFitPod | pkg/upstreamsync/scheduler.go:360-452 | pre-filters, nominated node, candidates, filters and extenders in turn, and the start of the next search moved on by the nodes processed |
| FitPod.CanSchedulePod | pkg/upstreamsync/snapshot/snapshot.go:161-197 | the errors and their order; it fails if and only if the pre-filters, the filters of a candidate or a reached extender that may not be ignored fail, and otherwise answers with a partition of the placement |
| Choosing.HostPassedEverything | pkg/upstreamsync/scheduler.go:287-341 | the chosen host is a node of the placement that filters and extenders let through, and one of the pre-filters' names unless the pod was nominated to it |
| Choosing.VerdictExact | pkg/upstreamsync/scheduler.go:133-146 | an empty placement is unresolvable, what the pre-filters reject is unschedulable; an internal error is reported only if the plugins, an extender or the scoring fail, and without such a failure an attempt without a host is unschedulable; unschedulable exactly if the search found nothing |
| Choosing.HostExactly | pkg/upstreamsync/scheduler.go:287-341 | where no extender is interested and nothing fails, an attempt has a host if and only if a node the pre-filters left, or the nominated node, passes |
| Choosing.HostIsBest | pkg/upstreamsync/scheduler.go:315-333 | among several nodes the host is one with the highest sum of plugin scores and weighted, rescaled extender scores |
| Choosing.OneNodeNeedsNoScores | pkg/upstreamsync/snapshot/snapshot.go:267 | attempts that are asked for one node never depend on scores |
| Choosing.HostFits | pkg/upstreamsync/scheduler.go:287-341 | if the filters pass a pod only where it fits, the chosen host fits |
| Choosing.UnschedulableIsFinal | pkg/upstreamsync/scheduler.go:302-308 | an unschedulable verdict holds for the whole placement, if all nodes were asked for or no extender is interested |
| Choosing.OneNodeFinalExactly | pkg/upstreamsync/snapshot/snapshot.go:266-269 | attempts that look for one node: unschedulable is final for all honest filter extenders if and only if at most one node passes the filters |
| Choosing.TakeBest | pkg/upstreamsync/scheduler.go:328-329 | a node with the highest total |
| Choosing.SchedulePod | pkg/upstreamsync/scheduler.go:287-341 | its decision is one the attempt may come to, and it panics exactly if the search does |
| Pipeline.AttemptFindsRoom | pkg/upstreamsync/scheduler.go:287-341 | an attempt with capacity filters finds a node with room and fails only when there is none |
| Pipeline.PipelineServesBoth | pkg/upstreamsync/snapshot/snapshot.go:266-269 | such attempts are the schedulers that whole-run safety and optimal scheduling of copies assume |
| StateSync.UpdateExact | pkg/state/state.go:55-57 | whatever an update copies beyond what it must, it gives the whole cache view if and only if no node at least as new in the snapshot differs from the cache's |
| StateSync.SyncEqualsRebuild | pkg/state/state.go:51-59 | after any interleaving of cache updates, simulated calls and syncs, failed ones included, a sync outside a transaction makes the snapshot equal to the whole cache view with an empty log; if its own update fails, all mutations are undone and the nodes it got to are the cache's; in a transaction it changes nothing |
| StateSync.RaisedGenerationGoesStale | pkg/upstreamsync/mutable_snapshot.go:77-80 | after any history, had the generation of a node been raised, the next sync would give the cache view if and only if that hides no change the cache made to the node since the last sync |
| StateSync.Cache.UpdateSnapshot | pkg/state/state.go:55-57 | for every order of the nodes, the incremental update and the removal of nodes the cache does not have, to the end or up to an error |
| StateSync.ClusterState.SyncSnapshot | pkg/state/state.go:51-59 | resets, then updates; in an open transaction it fails and changes nothing, and an update error leaves the reset done and some nodes updated |

## Left out

- Nodes are multisets of pods; the order in which a node lists them is not modelled. Where a node lists several pods with one UID and different contents, removal breaks the tie by content instead of by order.
- The upstream snapshot, node info, pod keys and cache update are small contracts: adding and removing by UID, `AssumePod` and `ForgetPod` leaving generations alone, and an update that may skip a node only if the snapshot has it and finds it at least as new; an update that fails has copied some of the nodes and dropped only nodes the cache does not have.
- Closures keep the wrapper of the call that made them; in the model each runs on a new wrapper. The maps of those wrappers are never read by the snapshot.
- Pods have a UID and one number standing for everything filters read. Labels, names, defaulting and the text of messages are left out, and the UIDs of template pods are given and created up front instead of one at a time.
- Whether a placement can be assumed, whether a pod has a framework, the plugins, extenders and the reserve result are parameters. Plugin internals and the cycle state are not modelled.
- Choosing.SchedulePod: does not model the counts of evaluated nodes; the heap of scored nodes is a search for the highest score.
- FitPod.Scheduler.FindNodesThatFitPod: does not model the plugin names collected in the diagnosis and the pre-filter message.
- Feasibility.FinalExactly: is about the search over the placement; for a pod with a nominated node that was turned down, the answer may carry one status more.
- FilterEngine.StepKeepsInv: a context cancelled from outside is not modelled, and which of several errors is reported is left open.
- Scores.PrioritizeNodes: the random tie-breaker of a node is left out, and the order of its parts, which depends on the finishing order, is not kept.
- Panics in a transaction function, wrap-around of counters and scores, concurrent use of one snapshot, logging, metrics and contexts are left out.
- Safety.NoNodeOverflows: excludes runs in which a handle from a rolled-back transaction is accepted, because it puts back pods that are there already (`Hypotheses.LostHandleDuplicatesPods`).
- Machine.TransactionRollsBack: needs that no call gives a pod waiting in the log another node name, without which `Hypotheses.DisciplineIsExact` shows that the call loses an earlier version, and that a UID identifies a pod's content, for which `Contents.PreemptRestoresExactlySameContent` gives the exact condition for one preemption.
- The simulator with its clients and transport, the framework construction and the placement helper are wiring without state and are left out.
