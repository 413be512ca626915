# Workflows, datasets and their tools: a verified model

CVOps runs workflows of steps over shared tables: workers on several machines create, claim and
finish runs in Postgres, and Redis carries only doorbells that may be lost, doubled or swept up
again. Finished work is frozen into dataset commits, which form a git-like history that two kinds
of committers advance at the same time. Around this core stand the workflow editor, which has to
agree with the engine about graphs and references, and a set of data transformations that must not
lose anything on the way. This project models that behaviour and proves what it promises.

`dafny verify dfyconfig.toml` checks the whole project.

## What is modelled

**The workflow engine** (`Graphs`, `Turns`, `Kahn`, `Refs`, `Workflow`, `Engine*`, `Confluence`, `Agreement`,
`Resolution`, `ReuseExample`, `CopyExample`, `Coordinator`, `RunsStore`). A state holds the runs table, the row locks that
advances take on parent runs, the advances still owed, and the messages in flight. The events are
the atomic steps of the code: taking the lock and reading the children, the commit that ends an
advance, ringing a doorbell, claiming, finishing, failing and parking a step, resuming a gate, the
orphan sweep, and the loss and duplication of messages, with crashes at the points where a process
can die. An advance is two events with the lock held in between, so two advances of one run can
overlap only as far as the lock lets them. A run is any sequence of enabled events. Over all runs
the project proves safety in every reachable state, at-most-once start, finality, one-pass closure,
absence of stalls, exactly when a run can still be completed, transparency of idempotency reuse,
agreement of all schedules, and confluence with sequential evaluation; `EngineExample` runs the
smallest workflow to success, so that the statements about succeeded runs are not about nothing.
The events allow more than the code does: an advance may miss a run it could copy, the sort may
answer differently each time, a step may finish with any outputs, and `Kick` owes an existing run an
advance that nothing would give it. What is proved of all runs holds with all of this. What is claimed
to be possible, in `EngineCompletion` and `EngineTraps`, uses only events as the code takes them
(`EngineCode`): one sort, copies exactly where the table has a run to copy, reviews that park, and
outputs that the steps compute. `Coordinator` and
`RunsStore` hold the code's own loops and table updates, as methods proved to take exactly the
steps of the transition system.

**The queue workers** (`Worker`, `RetryLaw`, `Handlers`). All replicas share the Redis books, and
every await of a handler is a point at which any handler of any replica may go on: counting a
failure, writing the dead letter, clearing the counter, the acknowledgement and the re-enqueue are
events of their own, and each of them can raise. Permits, acknowledgements, failures and dead letters are accounted for over
all runs, and the law that ties dead letters to failure streaks is proved with its exact condition.
`Handlers` has the handler's code, with arbitrary interference at each await.

**Dataset versioning** (`Versioning`, `CommitDataset`, `Splits`, `RepoStore`). Transactions of the
workflow step, which locks the ref row, and of the two router endpoints, which compare and swap,
are interleaved freely. Proved over all histories: the targets of a ref form a parent chain,
acknowledged commits stay ancestors of the head, refused ones leave nothing, a tree is the fold of
the batches along its chain, and grouping by source does not leak. The committers' loops are
methods proved to build exactly that tree and to store statistics that equal a recount of it;
`RepoStore` runs them as transactions on a table object that keeps both facts.

**The workflow editor** (`Layout`, `Wiring`, `EditorRuns`, and `Kahn.ReportsCycle`). The recursive
layering with its shared memo tables, the breadth-first search for an input's provider, the
references it writes, and the parameters it asks for. The editor's saved workflows are shown to
meet the hypothesis under which the engine is confluent, and their ready steps always resolve.

**Data transformations** (`Windows`, `Chunks`, `Decimal`, `Yolo`, `Archive`, `Review`, `Paging`).
Sensor windows, text chunks, YOLO label text down to its digits, the import of a whole archive, the
CVAT review loop and keyset pagination, each with the round trip or coverage statement it stands
for.

## Where the code does less than it promises

Each of these has a lemma that says exactly when the promise holds, or a concrete input.

- The engine's length test in Kahn's algorithm accepts some lists that are not an order of the
  steps when edges name unknown steps (`Kahn.DanglingEdgesFoolTheLengthTest`,
  `Graphs.KahnExactness`). A definition accepted so misleads the sort: its runs never succeed, and
  those that do not fail come to rest pending, which without crashes no other non-empty definition does
  (`EngineDangling.StrandsIff`, `EngineExample.DanglingEdgesStrand`).
- A process that dies between a commit and the advance it owes strands the run
  (`EngineTraps.LostAdvanceStalls`, `EngineTraps.TrappedForGood`). Progress is therefore stated for
  runs none of whose own advances was lost; `EngineTraps.FinishableIff` says exactly which states
  reached with such crashes the code can still bring to a verdict. That an advance in flight has read a
  step as ready is not enough, because the step may only be copied, and a copy makes nobody advance
  (`CopyExample.ReadyIsNotEnough`). Safety, agreement and confluence need no such condition.
- References to steps that are not ancestors make the end of a run depend on what could be reused
  (`ReuseExample.VerdictDependsOnHistory`, `Resolution.FixedByAncestorsIff`); a step that refers to
  itself or to a step behind it is never created (`Resolution.RefersAheadNeverBorn`). The engine does
  not reject such definitions; with references to ancestors only there is no such dependence
  (`Resolution.ResolutionAgrees`), and the editor writes no others (`Wiring.WiredRefsAreAncestors`).
  Whatever the references, two histories agree on the outputs of every step that both complete
  (`Agreement.SchedulesAgree`).
- A job is meant to be dead-lettered after MAX_RETRIES + 1 failures in a row. Counting, dead-lettering
  and clearing are separate calls on a counter that all deliveries of the job share, so a delivery
  that fails in between is dead-lettered too, after one failure more (`RetryLaw.OverlapRun`); the law
  holds exactly without such overlaps (`RetryLaw.StreakLawIff`).
- A failure is meant to be retried or dead-lettered. If the acknowledgement raises, the retry that
  was decided is never made, and the permit is never returned (`Worker.StuckForGood`,
  `Worker.PermitsBalance`); if setting the count's expiry, the dead letter or the re-enqueue raises,
  the failure is lost as well (`Worker.FailuresConserved` has the exact balance). A failure whose
  count raises is not counted at all.
- `docs/03-versioning-concurrency-merge.md` calls a tag fixed, but the router looks a branch name
  up among refs of every type, so a commit can move a tag (`Versioning.TagMovesIff`,
  `Versioning.RouterCanMoveTag`). The model follows the code.
- The plain commit endpoint stores the length of the request as its sample count although it pairs
  samples with revisions only as far as the shorter list goes (`CommitDataset.DirectCountIff`), and
  it is not cumulative (`Versioning.RemovedByOne`).
- Grouping by source keeps a clip whole only while the ratios keep its hash in one bucket
  (`Splits.StraddlesIff`, `Splits.RatioChangeStraddlesIff`, `Splits.RaisedRatioLeaks`).
- The box conversions are called exact inverses; they are so for sizes that are not negative
  (`Review.BoxRoundTripIff`).
- Four list handlers take their cursor from the row after the page and skip that row
  (`Paging.CompleteIff`, `Paging.EarlyCursorGives`); a limit of zero or less is not rejected and
  gives empty pages or an error.
- Sensor records out of time order can fall into no window; if the first time is after the last,
  all do (`Windows.CoveredIff`, `Windows.UnsortedLosesRecords`).

## Assumptions

- A read under `FOR UPDATE` reads the current row; sessions are created with
  `expire_on_commit=False`, so this is assumed rather than derived.
- A run's definition and parameters do not change while it runs, as is the case for ad-hoc runs.
- SHA-256 is injective: two idempotency keys are equal exactly for equal step type, effective
  configuration and inputs (`Workflow.KeysEqualIff` spells this out). Equal numbers are written alike, and
  a threshold is a number. A human review draws a fresh key.
- Row ids an advance will use are drawn when it commits, and what it finds to copy is what the table
  holds then; its lookups and its commit are one event. The ids are unused and distinct, as random
  UUIDs are taken to be. Edges are given as pairs; the accepted spellings of an edge are
  normalised before the model starts.
- In `Worker`, a write to Redis that raises has had no effect, and a worker process does not die in
  the middle of a handler. In `EngineInputs`, `EngineCode`, `EngineTraps`, `Confluence`, `Agreement`
  and `Resolution`, an ordinary step is a function of type, effective configuration and inputs, and a
  gate's answer is fixed for each run and step. What is claimed to be possible takes it that a step
  that is run can succeed and that a gate can be resolved.
- Floating-point numbers are real numbers with a sign, so that zero has two. Any rounding to the
  nearest millionth will do. How the language splits text and reads numbers is a parameter, of which
  only is assumed that it reads plain digits as such (`Yolo.Standard`). A hash into the unit interval
  is a function parameter, and so is the conversion of values to text in `Wiring`.
- The class names in an archive's `data.yaml` read back as the list that was written.
- `Wiring` takes port names to be plain words without dots or line ends, as all names in the
  catalogue are, and `Recorded` there says that steps record the outputs their types declare.
- Every commit in `RepoStore` sees one revisions table; revisions are only ever added in the system
  and foreign keys keep those a commit pins.
- A review counts as unchanged when the server returns, frame by frame, what was pushed.

## Model

| member | source | states |
|---|---|---|
| `Graphs.KahnExactness` | services/api/src/cvops_api/engine/coordinator.py:478-497 | over every edge list, an order that Kahn's algorithm may enumerate is a topological order of exactly the steps if and only if no edge crosses the step list and there is no cycle |
| `Graphs.KahnDetectsCycles` | services/frontend/src/lib/workflowGraph.ts:96-109 | without dangling edges the final count falls short exactly when the steps contain a cycle |
| `Graphs.MissedStepGivesCycle` | services/api/src/cvops_api/engine/coordinator.py:489-497 | completeness: a step left out of the order lies behind a cycle |
| `Graphs.TopologicalMeansAcyclic` | services/api/src/cvops_api/engine/coordinator.py:145-150 | soundness: a graph that has a topological order has no cycle |
| `Graphs.KahnOrdersAgree` | services/api/src/cvops_api/engine/coordinator.py:478-497 | however its queue is ordered, the algorithm lists the same nodes |
| `Turns.FifoUnique` | services/api/src/cvops_api/engine/coordinator.py:487-497 | a maximal order that serves the queue in turn, declared roots first and then by last incoming edge, is unique, so the sort has one answer |
| `Kahn.IndexEdges` | services/api/src/cvops_api/engine/coordinator.py:480-485 | the in-degree and adjacency tables agree with the edge list, unknown ends included |
| `Kahn.Roots` | services/api/src/cvops_api/engine/coordinator.py:487 | the starting queue holds exactly the declared steps without incoming edges |
| `Kahn.Relax` | services/api/src/cvops_api/engine/coordinator.py:490-495 | processing a node keeps every in-degree equal to the number of its unprocessed incoming edges and queues exactly what reaches zero |
| `Kahn.TopoSort` | services/api/src/cvops_api/engine/coordinator.py:478-497 | the answer is decided by a maximal order of the known nodes and the length test, with the nodes in the order in which the queue serves them; without dangling edges it is none exactly for cycles |
| `Kahn.ReportsCycle` | services/frontend/src/lib/workflowGraph.ts:85-109 | the editor reports a cycle exactly when its nodes contain one, for every edge list |
| `Kahn.KnownEdgesKeepCycles` | services/frontend/src/lib/workflowGraph.ts:91-95 | dropping dangling edges neither hides nor invents a cycle |
| `Kahn.EngineAgreesWithEditor` | services/api/src/cvops_api/engine/coordinator.py:145-150 | the engine gets a usable order exactly when the editor reports no cycle and no edge dangles |
| `Kahn.DanglingEdgesFoolTheLengthTest` | services/api/src/cvops_api/engine/coordinator.py:497 | two dangling edges make the engine accept a list that is not a permutation of the steps |
| `Refs.MatchStep` | services/api/src/cvops_api/engine/ref_resolver.py:13 | the step grammar is decided exactly: the split found is a reading, and none found means there is none |
| `Refs.MatchParam` | services/api/src/cvops_api/engine/ref_resolver.py:14 | the parameter grammar is decided exactly, final newline included |
| `Refs.GrammarsDisjoint` | services/api/src/cvops_api/engine/ref_resolver.py:13-14 | no string reads as both kinds of reference, and a reading is unique even with ".outputs." inside a step id |
| `Refs.ResolvesIffAvailable` | services/api/src/cvops_api/engine/ref_resolver.py:21-50 | resolution of a nested value fails exactly when some string in it refers to something missing or is an unreadable reference |
| `Refs.ResolveReadsOnlyRefs` | services/api/src/cvops_api/engine/ref_resolver.py:27-50 | outputs of steps that are not referenced cannot influence the result |
| `Refs.StepRefReadsBack` | services/api/src/cvops_api/engine/ref_resolver.py:28-35 | a written step reference reads back as its step and output |
| `Refs.ParamRefReadsBack` | services/api/src/cvops_api/engine/ref_resolver.py:36-41 | a written parameter reference reads back as its name |
| `Refs.Classify` | services/api/src/cvops_api/engine/ref_resolver.py:27-46 | a string is read as a step reference, a parameter reference, a bad reference or plain text, in that order and never wrongly |
| `Refs.ResolvesToIff` | services/api/src/cvops_api/engine/ref_resolver.py:21-50 | resolution yields exactly the value the template stands for: references replaced by the outputs and parameters they name, arrays and objects item by item, everything else unchanged; it fails if there is none |
| `Refs.LiteralsStay` | services/api/src/cvops_api/engine/ref_resolver.py:43-50 | a value in which no string starts with a dollar sign resolves to itself |
| `Workflow.PassExtends` | services/api/src/cvops_api/engine/coordinator.py:158-303 | however far one advance gets, it only adds children of steps that had none, each with all predecessors succeeded, and keeps what it read |
| `Workflow.PassCloses` | services/api/src/cvops_api/engine/coordinator.py:186-303 | one-pass closure: a completed loop leaves a child for every step whose predecessors all succeeded, also when reuse cascades |
| `Workflow.VisitTouchesOnly` | services/api/src/cvops_api/engine/coordinator.py:187-191 | visiting a step changes no other step and creates it if it was ready |
| `Workflow.Ids` | services/api/src/cvops_api/engine/coordinator.py:143 | the step dictionary has each id once |
| `Workflow.Find` | services/api/src/cvops_api/engine/coordinator.py:193 | the entry of an id is one of its definitions |
| `Workflow.KeysEqualIff` | packages/steps/src/cvops_steps/auto_label.py:27-31 | two keys are equal exactly for equal type and inputs and equal settings, where an auto-labelling step without a threshold counts as set to 0.35; a review's key is equal only to its own |
| `Workflow.FreezesIff` | services/api/src/cvops_api/engine/coordinator.py:218-228 | the inputs of a step are frozen to its template, each field resolved on its own under the same keys, or to the run parameters without a template |
| `Workflow.VisitMeaning` | services/api/src/cvops_api/engine/coordinator.py:186-303 | one iteration in full: which steps are passed over, raise, fail the run, or get a row, and what the row and the dictionaries then hold |
| `Workflow.FindIsLast` | services/api/src/cvops_api/engine/coordinator.py:143 | of definitions with one id the last counts |
| `Workflow.IdsInOrder` | services/api/src/cvops_api/engine/coordinator.py:143-146 | the ids are sorted from the order in which they first occur |
| `EngineSafety.ReadIsExact` | services/api/src/cvops_api/engine/coordinator.py:158-167 | the rebuilt dictionaries hold exactly the status and outputs of the unique child of each step |
| `EngineSafety.OutcomeAdds` | services/api/src/cvops_api/engine/coordinator.py:186-323 | what an advance writes are instances of steps that had no child |
| `EngineSafety.FailRowSafe` | services/api/src/cvops_api/engine/coordinator.py:523-534 | failing a child together with its parent keeps every safety invariant |
| `EngineSafety.LockedIsPending` | services/api/src/cvops_api/engine/coordinator.py:112-119 | a run whose row an advance holds is still live |
| `EngineSafety.StepSafe` | services/api/src/cvops_api/engine/coordinator.py:112-325 | every event keeps: one child per step, causality, failure propagation, success completeness, exact snapshots under the lock, doorbells naming committed rows |
| `EngineSafety.RunSafe` | services/api/src/cvops_api/engine/coordinator.py:112-325 | the invariants hold after any interleaving of events from a safe state |
| `EngineSafety.ReachableSafe` | services/api/src/cvops_api/engine/coordinator.py:112-325 | safety in every reachable state |
| `EngineRuns.StepEvolves` | services/api/src/cvops_api/engine/coordinator.py:338-447 | rows move only along pending, running, waiting, succeeded or failed, and a succeeded row is never rewritten |
| `EngineRuns.StartsOnce` | packages/worker-common/src/cvops_worker_common/runner.py:46-58 | under duplicated, dropped, swept and retried messages a row is started at most once, and a pending row never was |
| `EngineRuns.SucceededHasNoActiveChild` | services/api/src/cvops_api/engine/coordinator.py:305-309 | every child of a succeeded run has succeeded, so none can still fail |
| `EngineRuns.StepFinal` | services/api/src/cvops_api/engine/coordinator.py:117-119 | one event changes neither verdict nor children of a finished run |
| `EngineRuns.RunFinal` | services/api/src/cvops_api/engine/coordinator.py:117-119 | over any continuation a finished run keeps its verdict and its children |
| `EngineProgress.PassSettles` | services/api/src/cvops_api/engine/coordinator.py:186-309 | an advance that ends its loop on a current snapshot leaves nothing due: every ready step has a child, or the run is finished |
| `EngineProgress.SomethingIsLeft` | services/api/src/cvops_api/engine/coordinator.py:305-309 | a live settled run of a non-empty graph still has an active child |
| `EngineProgress.StepUpToDate` | services/api/src/cvops_api/engine/coordinator.py:112-325 | if nobody owes a run an advance, the last one left nothing undone; every event but a crash inside one of its own advances keeps this |
| `EngineProgress.RunUpToDate` | services/api/src/cvops_api/engine/coordinator.py:112-325 | the same over whole runs in which no advance of the run in question was lost or rolled back |
| `EngineProgress.OrderCovers` | services/api/src/cvops_api/engine/coordinator.py:145-150 | a sorted list that passes the length test and names no unknown step covers the steps, so the loop cannot raise |
| `EngineProgress.NoStall` | services/api/src/cvops_api/engine/coordinator.py:302-325 | unless one of its own advances was lost, a live run of a non-empty graph that does not mislead the sort always has an advance owed or in flight, or a pending, running or waiting child |
| `EngineInputs.EqualKeysEqualValues` | services/api/src/cvops_api/engine/step.py:76-86 | equal idempotency keys mean equal computed outputs, and never the same review twice |
| `EngineInputs.ReuseTransparency` | services/api/src/cvops_api/engine/coordinator.py:240-286 | over all workflows sharing the table, every succeeded row, executed or copied, holds what its step computes on its own configuration and inputs |
| `EngineInputs.AncestorsDone` | services/api/src/cvops_api/engine/coordinator.py:189-191 | all proper ancestors of a ready step have succeeded |
| `EngineInputs.PassInputsStand` | services/api/src/cvops_api/engine/coordinator.py:218-228 | inputs frozen during one advance are what their templates resolve to at its end |
| `EngineInputs.ExplanationStays` | services/api/src/cvops_api/engine/coordinator.py:218-228 | frozen inputs of an existing row stay explained by the outputs of its ancestors |
| `EngineInputs.CopiesExactly` | services/api/src/cvops_api/engine/coordinator.py:240-286 | an advance copies exactly the steps for which the table holds a finished run of the same type, inputs and settings, with its outputs, and never a review |
| `EngineCode.CopyAll` | services/api/src/cvops_api/engine/coordinator.py:247-303 | whatever an advance has read, it can copy each step exactly if the table holds a succeeded run of its type and key |
| `EngineCode.CopiesAgree` | services/api/src/cvops_api/engine/coordinator.py:240-246 | all runs that could be copied for a step have the same outputs, so it does not matter which one is |
| `EngineCode.PassIsDry` | services/api/src/cvops_api/engine/coordinator.py:186-303 | an advance that copies exactly what it can ends where its dry run over the table ends: same verdict, same statuses, same outputs |
| `EngineCode.DryStays` | services/api/src/cvops_api/engine/coordinator.py:247-286 | a dry run that only copies stays the same however the table grows before the advance commits |
| `EngineCode.CodeIsFaithful` | services/api/src/cvops_api/engine/coordinator.py:100-451 | the code's own runs are faithful runs of the transition system |
| `EngineCompletion.StartChild` | services/api/src/cvops_api/engine/coordinator.py:55-77 | a pending child whose doorbell was lost is swept and claimed, as events of the code |
| `EngineCompletion.ProgressPossible` | services/api/src/cvops_api/engine/coordinator.py:240-447 | from such a state some events of the code make measurable progress: its sort, copies exactly where the table has a run to copy, reviews that park, and outputs that the steps compute |
| `EngineCompletion.AlwaysFinishable` | services/api/src/cvops_api/engine/coordinator.py:112-451 | from every state reached without a crash inside an advance of the run, events of the code alone, copies included, can still bring it to a verdict, however messages were lost, if its definition does not mislead the sort |
| `EngineCompletion.SortsExist` | services/api/src/cvops_api/engine/coordinator.py:478-497 | every definition has an answer that the topological sort may give, so in every world there is a code to speak of |
| `EngineTraps.TrappedForGood` | services/api/src/cvops_api/engine/coordinator.py:447-451 | a live run with no advance owed or in flight and no active child keeps its record and its children over every continuation that does not kick it |
| `EngineTraps.IdleForGood` | services/api/src/cvops_api/engine/coordinator.py:240-325 | one whose advance in flight can only copy keeps its record and its children over every continuation by events of the code, gains copies at most, and is never brought on |
| `EngineTraps.LostAdvanceStalls` | services/api/src/cvops_api/engine/coordinator.py:447-451 | a process that dies before the only advance that is owed leaves a live run that stays as it is forever |
| `EngineTraps.FinishableIff` | services/api/src/cvops_api/engine/coordinator.py:112-451 | after any crashes, events of the code can still bring a live run that does not mislead the sort to a verdict if and only if an advance is owed, a child is active, or the advance in flight, once it has copied all that the table has to copy, fails, completes or creates a step to execute |
| `EngineTraps.IdleCommit` | services/api/src/cvops_api/engine/coordinator.py:240-325 | an advance that only copies and does not complete leaves no advance due and no active child |
| `EngineTraps.StirringCommit` | services/api/src/cvops_api/engine/coordinator.py:186-325 | an advance that will act, committed as the code commits it, ends the run or leaves it an active child |
| `EngineDangling.MisleadsIff` | services/api/src/cvops_api/engine/coordinator.py:497 | a definition misleads the sort exactly if the sorted list has the right length and leaves out a step |
| `EngineDangling.NoCrossingIsSafe` | services/api/src/cvops_api/engine/coordinator.py:478-497 | a definition without dangling edges never does |
| `EngineDangling.MisledNeverSucceeds` | services/api/src/cvops_api/engine/coordinator.py:191-193 | a run of a misleading definition never succeeds, in any history |
| `EngineDangling.StrandsIff` | services/api/src/cvops_api/engine/coordinator.py:145-193 | a run that came to rest without a crash in its own advances and without having failed is left pending, for good, exactly if its definition is empty or misleads the sort |
| `EngineDangling.FacesForGood` | services/api/src/cvops_api/engine/coordinator.py:187-193 | once the predecessors of an unknown listed step are done, every advance ends there: over every continuation the run never succeeds and gets no further child unless it fails |
| `Confluence.EvaluateNext` | services/api/src/cvops_api/engine/coordinator.py:218-240 | one step of the sequential evaluation agrees with the child row of that step |
| `Confluence.SucceededRunsAgreeWithEvaluation` | services/api/src/cvops_api/engine/coordinator.py:158-451 | confluence: whatever the schedule, reuse, message loss or crash, a run that succeeds gives each step the outputs of sequential evaluation in any topological order |
| `Agreement.PassIsSourced` | services/api/src/cvops_api/engine/coordinator.py:218-228 | every new row of an advance was resolved from outputs of steps that were done before it, in the table or earlier in the same pass |
| `Agreement.RunRanked` | services/api/src/cvops_api/engine/coordinator.py:218-303 | in every reachable state the rows can be ranked so that each was resolved from succeeded siblings of lower rank |
| `Agreement.RowsAgree` | services/api/src/cvops_api/engine/coordinator.py:158-451 | by induction on that rank, equal steps in two tables froze equal inputs |
| `Agreement.SchedulesAgree` | services/api/src/cvops_api/engine/coordinator.py:158-451 | in any two histories, finished or not, equal steps of one run have equal inputs and, once succeeded, equal outputs, for every definition |
| `Resolution.ResolutionAgrees` | services/api/src/cvops_api/engine/coordinator.py:218-228 | if references name ancestors, whether and to what the inputs of a ready step resolve is the same for every advance that meets it in any history |
| `Resolution.PassFits` | services/api/src/cvops_api/engine/coordinator.py:218-228 | what an advance resolves a ready step from are the outputs the table has for the step's ancestors |
| `Resolution.FixedByAncestorsIff` | services/api/src/cvops_api/engine/coordinator.py:218-228 | for every definition and step, what its inputs resolve to depends on steps that are no ancestors exactly if a reference names one, no string of the template is unreadable, and none names a missing parameter |
| `Resolution.ResolvesSomehowIff` | services/api/src/cvops_api/engine/coordinator.py:218-228 | some outputs make the inputs of a step resolve exactly if no string of its template is unreadable or names a missing parameter |
| `Resolution.ReferencedStepsDone` | services/api/src/cvops_api/engine/coordinator.py:218-228 | in every reachable state, for every definition, the steps that a child's template refers to have succeeded in its run |
| `Resolution.RefersAheadNeverBorn` | services/api/src/cvops_api/engine/coordinator.py:218-238 | in every history, a step whose template refers to itself or to a step that waits for it is never created, and its run never succeeds |
| `Resolution.FrozenInEveryHistory` | services/api/src/cvops_api/engine/coordinator.py:218-303 | in every reachable state the inputs of every child are its template resolved against outputs of succeeded siblings, or the run parameters without a template |
| `EngineExample.OneStepWorkflowSucceeds` | services/api/src/cvops_api/engine/coordinator.py:100-451 | a one-step workflow reaches success by a faithful run, with the value its step computes |
| `EngineExample.DanglingEdgesStrand` | services/api/src/cvops_api/engine/coordinator.py:187-193 | a two-step workflow with two dangling edges is run, without any crash, to a state in which it stays pending whatever follows |
| `ReuseExample.ForwardReferencesDependOnReuse` | services/api/src/cvops_api/engine/coordinator.py:218-238 | for one such definition, the first advance goes on or fails the run exactly according to what was found for reuse |
| `ReuseExample.VerdictDependsOnHistory` | services/api/src/cvops_api/engine/coordinator.py:218-286 | that definition is submitted and first advanced in two reachable tables: it fails in one and goes on in the other, where another workflow has run the referenced step |
| `CopyExample.ReadyIsNotEnough` | services/api/src/cvops_api/engine/coordinator.py:186-325 | a three-step workflow is run, with one lost advance, to a state in which the advance in flight has read a ready step without a child, all children have succeeded, and yet no events of the code bring the run to a verdict: the ready step is only copied |
| `Coordinator.PredecessorMap` | services/api/src/cvops_api/engine/coordinator.py:152-156 | the predecessor table lists exactly the sources of a step's edges |
| `Coordinator.AllSucceededPreds` | services/api/src/cvops_api/engine/coordinator.py:189-191 | the readiness test is exact |
| `Coordinator.FindPrior` | services/api/src/cvops_api/engine/coordinator.py:247-257 | a prior is a succeeded run of the type with the key, and none found means there is none |
| `Coordinator.ReadChildren` | services/api/src/cvops_api/engine/coordinator.py:158-167 | the loop over child rows builds exactly the two dictionaries of the model |
| `Coordinator.MakeRow` | services/api/src/cvops_api/engine/coordinator.py:258-303 | the new row is a copy exactly when a run to copy exists |
| `Coordinator.CreateOne` | services/api/src/cvops_api/engine/coordinator.py:186-303 | one iteration of the loop is the model's visit; the row it adds runs the step as defined, on its template with every field resolved, or on the run parameters if it has none |
| `Coordinator.CreateReady` | services/api/src/cvops_api/engine/coordinator.py:186-303 | the loop equals the model's pass, and copies exactly what the table held before |
| `Coordinator.AssignIds` | services/api/src/cvops_api/engine/coordinator.py:259-301 | new rows get distinct ids that the table does not hold |
| `RunsStore.Store.constructor` | services/api/src/cvops_api/engine/coordinator.py:112-119 | an empty table is reachable |
| `RunsStore.Store.SubmitRun` | services/api/src/cvops_api/engine/coordinator.py:126-131 | submitting a run is one step of the transition system |
| `RunsStore.Store.LockAndRead` | services/api/src/cvops_api/engine/coordinator.py:112-167 | taking the lock and reading the children is one step and returns the exact snapshot |
| `RunsStore.Store.Plan` | services/api/src/cvops_api/engine/coordinator.py:145-303 | sorting and creating decide the outcome the model prescribes, before anything is written |
| `RunsStore.Store.Conclude` | services/api/src/cvops_api/engine/coordinator.py:169-177 | failed, waiting, failed-in-loop, finished and unfinished runs are told apart as in the model |
| `RunsStore.Store.Save` | services/api/src/cvops_api/engine/coordinator.py:305-325 | the transaction commits before any doorbell, and exactly the pending children are rung |
| `RunsStore.Store.RingEach` | services/api/src/cvops_api/engine/coordinator.py:324-325 | each announced row gets exactly one message |
| `RunsStore.Store.AdvanceWorkflow` | services/api/src/cvops_api/engine/coordinator.py:100-325 | the whole operation takes exactly the model's begin, commit and ring steps, and copies are made exactly where possible |
| `RunsStore.Store.ClaimRow` | packages/worker-common/src/cvops_worker_common/runner.py:46-58 | a row is claimed exactly when it is pending and its type is known, whoever holds the parent's lock; otherwise the message is ignored or the row fails with its parent |
| `RunsStore.Store.RecordResult` | services/api/src/cvops_api/engine/coordinator.py:396-451 | success, gate and failure are each recorded as their step of the transition system, and success advances the parent |
| `RunsStore.Store.ProcessMessage` | services/api/src/cvops_api/engine/coordinator.py:338-451 | a message is handled as claim and record, or changes nothing |
| `RunsStore.Store.FailChild` | services/api/src/cvops_api/engine/coordinator.py:523-534 | child and parent fail in one write |
| `RunsStore.Store.Write` | services/api/src/cvops_api/engine/coordinator.py:305-323 | one transaction adds the rows, sets the parent and releases its lock |
| `RunsStore.Store.RingOne` | services/api/src/cvops_api/engine/coordinator.py:325 | a doorbell moves from the outbox to the stream |
| `RunsStore.Store.Announce` | services/api/src/cvops_api/engine/coordinator.py:321-325 | a surviving run is committed first and rung afterwards |
| `Worker.AckedOnce` | services/worker-preprocessing/src/cvops_worker/worker.py:124-125 | a delivery is acknowledged at most once, and exactly once when it has left the worker |
| `Worker.PermitsBalance` | services/worker-preprocessing/src/cvops_worker/worker.py:124-126 | for every replica, free permits plus active handlers plus handlers whose acknowledgement raised equal the concurrency, so the permits balance exactly when none raised |
| `Worker.StuckForGood` | services/worker-preprocessing/src/cvops_worker/worker.py:124-133 | a handler whose acknowledgement raised never moves again, so its re-enqueue is never made |
| `Worker.FailuresConserved` | services/worker-preprocessing/src/cvops_worker/worker.py:110-133 | every counted failure of a job is one re-enqueue, decided, waiting or made, or one dead letter, decided or made, if and only if no acknowledgement that owed it a re-enqueue raised and no write of a count's expiry, a dead letter or a re-enqueue did; the failures lost in these ways are all that is missing |
| `Worker.DeadLettersExact` | services/worker-preprocessing/src/cvops_worker/worker.py:111-123 | under every interleaving of all handlers' awaits, the failures whose own count came out above MAX_RETRIES are the dead letters of the job, decided or made, and those lost to a raised write; so they are the dead letters alone if and only if no such write raised |
| `RetryLaw.OverlapBreaks` | services/worker-preprocessing/src/cvops_worker/worker.py:111-123 | after one overlapping count some continuation breaks the law |
| `RetryLaw.BothDie` | services/worker-preprocessing/src/cvops_worker/worker.py:111-123 | two deliveries of a job that both fail at the limit are both dead-lettered |
| `RetryLaw.OverlapRun` | services/worker-preprocessing/src/cvops_worker/worker.py:111-123 | such a run exists for every worker that retries at all |
| `RetryLaw.StreakLaw` | services/worker-preprocessing/src/cvops_worker/worker.py:111-123 | without expiry or raised writes, and if no failure of the job is counted while a handler that dead-letters it has not cleared the counter yet, a failure is dead-lettered exactly if it completes a multiple of MAX_RETRIES + 1 consecutive failures |
| `RetryLaw.StreakLawIff` | services/worker-preprocessing/src/cvops_worker/worker.py:111-123 | that condition is exact: the law can be relied on at every moment of a run without expiry or raised writes if and only if there was no such overlap, or nothing is ever retried |
| `Handlers.ConsumeLoop.constructor` | services/worker-preprocessing/src/cvops_worker/worker.py:92-94 | a fresh worker is the initial state |
| `Handlers.ConsumeLoop.Spawn` | services/worker-preprocessing/src/cvops_worker/worker.py:149-154 | a handler starts only with a permit taken |
| `Handlers.ConsumeLoop.DropPoison` | services/worker-preprocessing/src/cvops_worker/worker.py:101-104 | a message without a job is dead-lettered at once |
| `Handlers.ConsumeLoop.ForgetFailures` | services/worker-preprocessing/src/cvops_worker/worker.py:107-109 | success clears the job's counter |
| `Handlers.ConsumeLoop.RecordFailure` | services/worker-preprocessing/src/cvops_worker/worker.py:110-114 | a failure raises the counter and its own count decides between a retry and a dead letter |
| `Handlers.ConsumeLoop.Acknowledge` | services/worker-preprocessing/src/cvops_worker/worker.py:124-133 | the acknowledgement gives the permit back before the back-off starts |
| `Handlers.ConsumeLoop.SendToDlq` | services/worker-preprocessing/src/cvops_worker/worker.py:121-122 | the dead letter is written as a step of its own |
| `Handlers.ConsumeLoop.ClearCounter` | services/worker-preprocessing/src/cvops_worker/worker.py:123 | and only then is the counter cleared |
| `Handlers.ConsumeLoop.CountOnly` | services/worker-preprocessing/src/cvops_worker/worker.py:111-112 | a count whose expiry cannot be set decides nothing |
| `Handlers.ConsumeLoop.LoseLetter` | services/worker-preprocessing/src/cvops_worker/worker.py:121-123 | a dead letter that cannot be written is lost, and the counter stays |
| `Handlers.ConsumeLoop.LoseRetry` | services/worker-preprocessing/src/cvops_worker/worker.py:133 | a re-enqueue that cannot be written is lost |
| `Handlers.ConsumeLoop.Outcome` | services/worker-preprocessing/src/cvops_worker/worker.py:100-123 | the try block takes exactly the steps that its message, its result, its count and the writes that raise call for, with other handlers at work between any two |
| `Handlers.ConsumeLoop.Handle` | services/worker-preprocessing/src/cvops_worker/worker.py:96-133 | a whole handler is those steps and then one acknowledgement, made or raised, interleaved with anything |
| `Versioning.RunInv` | services/api/src/cvops_api/routers/datasets.py:454-477 | every run of interleaved lock-based and compare-and-swap committers keeps history, lock and tree invariants |
| `Versioning.StaleCommitterAborts` | services/api/src/cvops_api/routers/datasets.py:639-659 | a committer whose ref moved, or appeared, since it read it cannot land |
| `Versioning.LandingReadsHead` | packages/steps/src/cvops_steps/commit_dataset.py:256-275 | a landing committer read the ref's present target, by lock or by comparison |
| `Versioning.LinearHistory` | packages/steps/src/cvops_steps/commit_dataset.py:256-275 | the successive targets of a ref form a parent chain ending at its head |
| `Versioning.HeadsGrow` | services/api/src/cvops_api/routers/datasets.py:454-477 | the recorded targets of a ref only ever grow at the end |
| `Versioning.AcknowledgedStaysAncestor` | packages/steps/src/cvops_steps/commit_dataset.py:133-136 | an acknowledged commit is an ancestor of its ref's head ever after |
| `Versioning.OnlyAcknowledgedCommits` | packages/steps/src/cvops_steps/commit_dataset.py:10-14 | the table holds exactly the acknowledged commits: an abort leaves none |
| `Versioning.RouterCanMoveTag` | services/api/src/cvops_api/routers/datasets.py:560-567 | that can happen as soon as a tag exists and no branch of its name does |
| `Versioning.TreeIsFold` | packages/steps/src/cvops_steps/commit_dataset.py:138-162 | a commit's tree is the fold of the batches along its parent chain, by each commit's own rule |
| `Versioning.CumulativeTree` | services/api/src/cvops_api/routers/datasets.py:573-601 | every commit of every reachable repository has such a chain from a root |
| `Versioning.RemovedByOne` | services/api/src/cvops_api/routers/datasets.py:949-968 | exactly which samples one commit removes from its parent, per committer |
| `Versioning.FromSamplesRemovesNothing` | services/api/src/cvops_api/routers/datasets.py:949-968 | from an ancestor to a descendant over from-samples commits the diff removes nothing |
| `Versioning.StepInv` | services/api/src/cvops_api/routers/datasets.py:454-477 | each transaction step keeps the invariants |
| `Versioning.HasRootChain` | services/api/src/cvops_api/routers/datasets.py:573-577 | every commit has a parent chain to a root |
| `Versioning.NeverNamed` | packages/steps/src/cvops_steps/commit_dataset.py:138-162 | a sample that no batch named is in no tree of the chain |
| `Versioning.TagMovesIff` | services/api/src/cvops_api/routers/datasets.py:560-567 | a tag moves exactly when a transaction lands that was requested from the router under the tag's name at a moment when the tag existed and no branch of that name did |
| `Versioning.TagKeyIff` | services/api/src/cvops_api/routers/datasets.py:560-567 | an open transaction aims at a tag exactly if it was requested so |
| `Versioning.LastBatchWins` | packages/steps/src/cvops_steps/commit_dataset.py:138-162 | on any chain a sample that some batch named is in the tree exactly if no direct commit came since and its last pin has a revision or no step committed since; it then has that pin |
| `CommitDataset.BestRevisions` | packages/steps/src/cvops_steps/commit_dataset.py:77-87 | every sample with a row gets the first of its rows with the highest revision number |
| `CommitDataset.MergeBatch` | packages/steps/src/cvops_steps/commit_dataset.py:143-162 | the loops over parent rows and batch build exactly the tree of the history model |
| `CommitDataset.LoadMeta` | packages/steps/src/cvops_steps/commit_dataset.py:168-194 | the metadata cache answers for every pinned revision as the table does |
| `CommitDataset.StepStatsOf` | packages/steps/src/cvops_steps/commit_dataset.py:193-213 | the step's counters: for each split the samples of the tree in it; for each review status the samples whose pinned revision is in the table with that status, or with none for "unknown"; for each class the boxes of it in those revisions |
| `CommitDataset.SampleStatsOf` | services/api/src/cvops_api/routers/datasets.py:603-624 | the router's sample count, the number of samples with a revision, and for each split the samples in it |
| `CommitDataset.RecountAgrees` | packages/steps/src/cvops_steps/commit_dataset.py:168-213 | counting with the cache is counting with the table |
| `CommitDataset.DirectCountIff` | services/api/src/cvops_api/routers/datasets.py:421-452 | the plain endpoint's stored count is its number of rows exactly when no sample lacks a revision in the request |
| `CommitDataset.Overlay` | packages/steps/src/cvops_steps/commit_dataset.py:158-162 | the batch wins on overlap and adds what only it has |
| `CommitDataset.CountSample` | packages/steps/src/cvops_steps/commit_dataset.py:196-206 | one sample moves all three counters to the larger set |
| `CommitDataset.CountClasses` | packages/steps/src/cvops_steps/commit_dataset.py:203-206 | every box with a class key is counted once |
| `CommitDataset.Fetch` | packages/steps/src/cvops_steps/commit_dataset.py:174-194 | the query returns the wanted revisions that exist |
| `CommitDataset.ZipAt` | services/api/src/cvops_api/routers/datasets.py:438-452 | each sample of the plain endpoint is pinned to the revision at its own place |
| `Splits.BySourceGroup` | packages/steps/src/cvops_steps/split_strategies.py:66-84 | each sample goes to the split in whose range the hash of its source lies, so samples of one source get one split |
| `Splits.TestIff` | packages/steps/src/cvops_steps/split_strategies.py:58-63 | the test split is empty when the ratios leave nothing over, and otherwise holds exactly the upper range of hashes |
| `Splits.NoSourceStraddles` | packages/steps/src/cvops_steps/split_strategies.py:75-80 | on a history of steps that group by source with one seed and one pair of ratios, no source straddles two splits in any head |
| `Splits.RaisedRatioLeaks` | packages/steps/src/cvops_steps/commit_dataset.py:123-126 | raising the train ratio between two commits splits a source |
| `Splits.CutBatch` | services/api/src/cvops_api/routers/datasets.py:569-601 | the router batch holds each sample with its winning revision or none; train and val are as large as fits into their shares, test is the rest, and the parts follow one another in request order |
| `Splits.CutSizes` | services/api/src/cvops_api/routers/datasets.py:72-81 | with ratios that sum to at most one, cutting at whole shares loses nothing |
| `Splits.StraddlesIff` | packages/steps/src/cvops_steps/commit_dataset.py:123-126 | over a whole history in which each commit groups by source with ratios of its own, a source straddles in a head exactly if two of its samples remain from commits whose ratios put it in different buckets |
| `Splits.RatioChangeStraddlesIff` | packages/steps/src/cvops_steps/commit_dataset.py:123-126 | in one step after a uniform history: a source straddles exactly if it has a carried and a new sample and its hash changes bucket |
| `Splits.BucketIff` | packages/steps/src/cvops_steps/split_strategies.py:58-63 | each split is assigned exactly on its own range of hashes |
| `Splits.RandomSeeded` | packages/steps/src/cvops_steps/split_strategies.py:87-103 | each sample goes to the split in whose range its own hash lies |
| `Splits.SplitCounts` | services/api/src/cvops_api/routers/datasets.py:72-81 | the two counts are the whole numbers of samples in the two shares |
| `Splits.PairBatch` | services/api/src/cvops_api/routers/datasets.py:434-452 | the plain endpoint stores each pair at its place in the request, split by that place among all requested samples |
| `RepoStore.PlanBatch` | packages/steps/src/cvops_steps/commit_dataset.py:60-126 | a plan exists exactly when some input sample has a revision; it pins champions, applies presets, and without presets splits by source or by sample |
| `RepoStore.KeepAnnotated` | packages/steps/src/cvops_steps/commit_dataset.py:89 | the inputs with a revision, in order |
| `RepoStore.ReadRows` | packages/steps/src/cvops_steps/commit_dataset.py:144-156 | the rows of a commit are its tree |
| `RepoStore.Repository.Open` | packages/steps/src/cvops_steps/commit_dataset.py:324-343 | looking up a ref, with the lock or without, is the begin step of the history model; the router raises when branch and tag share the name |
| `RepoStore.Repository.Build` | packages/steps/src/cvops_steps/commit_dataset.py:143-213 | the commit's tree is the model's merge and its statistics are a recount |
| `RepoStore.Repository.CanLand` | services/api/src/cvops_api/routers/datasets.py:638-659 | the write is refused exactly when an insert would clash or the compare-and-swap finds another target |
| `RepoStore.Repository.Land` | packages/steps/src/cvops_steps/commit_dataset.py:215-275 | a commit lands with its ref in one step or leaves nothing, and every stored statistic of a cumulative commit still equals a recount |
| `RepoStore.Repository.constructor` | services/api/src/cvops_api/routers/datasets.py:454-477 | an empty repository is reachable |
| `RepoStore.Repository.Write` | packages/steps/src/cvops_steps/commit_dataset.py:215-275 | commit, statistics and ref are written together as the model's landing step |
| `RepoStore.Repository.RollBack` | services/api/src/cvops_api/routers/datasets.py:648-649 | a refused transaction only releases its locks |
| `Layout.Layering.ComputeLayer` | services/frontend/src/lib/workflowGraph.ts:138-151 | on every graph the recursion ends below the node count; without cycles it returns the longest path length from a root |
| `Layout.Layering.Deepest` | services/frontend/src/lib/workflowGraph.ts:143-147 | the maximum over the parents is taken correctly while the call stack is guarded |
| `Layout.LongestFromParents` | services/frontend/src/lib/workflowGraph.ts:143-147 | the recurrence of longest-path layering is exact |
| `Layout.AcyclicWalkIsShort` | services/frontend/src/lib/workflowGraph.ts:144-145 | without cycles no walk is as long as the node list, so the cap cannot bite |
| `Layout.Incoming` | services/frontend/src/lib/workflowGraph.ts:129-133 | the parent table lists exactly the known sources of known targets |
| `Layout.GroupByLayer` | services/frontend/src/lib/workflowGraph.ts:154-160 | each layer's group is its nodes in input order |
| `Layout.LayeredLayout` | services/frontend/src/lib/workflowGraph.ts:127-169 | every node gets a place of its own in the column of its layer |
| `Layout.EdgesDrawnRight` | services/frontend/src/lib/workflowGraph.ts:122-126 | without cycles every edge spans at least one column to the right |
| `Layout.RowsInOrder` | services/frontend/src/lib/workflowGraph.ts:122-126 | rows follow the input order without gaps |
| `Layout.CyclesCannotGoRight` | services/frontend/src/lib/workflowGraph.ts:122-126 | on a cyclic graph no layering makes every edge go right |
| `Layout.Layers` | services/frontend/src/lib/workflowGraph.ts:135-152 | every node gets a layer below the node count |
| `Layout.PlaceColumn` | services/frontend/src/lib/workflowGraph.ts:163-167 | the nodes of one column are placed at their rows and no other node is |
| `Wiring.FindProvider` | services/frontend/src/lib/stepMeta.ts:154-181 | the search returns a nearest proper ancestor that outputs the key, or none exactly when there is none |
| `Wiring.LevelDone` | services/frontend/src/lib/stepMeta.ts:168-179 | one level of the search extends what is known by one step of distance |
| `Wiring.NothingBeyond` | services/frontend/src/lib/stepMeta.ts:168-180 | when a level brings nothing new, everything upstream was seen |
| `Wiring.ResolveInputs` | services/frontend/src/lib/stepMeta.ts:191-211 | each port is wired to a nearest provider, else to a run parameter, else to nothing |
| `Wiring.BuildInputs` | services/frontend/src/lib/stepMeta.ts:228-239 | the saved inputs are exactly the ports that could be wired |
| `Wiring.NodesToDef` | services/frontend/src/pages/WorkflowBuilder.tsx:66-95 | a saved definition carries these inputs for every step |
| `Wiring.EditorAgreesWithEngineIff` | services/frontend/src/lib/stepMeta.ts:217 | editor and engine read the same parameter name out of a string exactly if the engine reads none or the name holds no line terminator |
| `Wiring.EmittedRefReadsBackIff` | services/frontend/src/lib/stepMeta.ts:204 | a written step reference reads back exactly if the step id is not empty and holds no newline |
| `Wiring.WiredRefsAreAncestors` | services/frontend/src/lib/stepMeta.ts:154-211 | every reference in a saved workflow names a proper ancestor |
| `Wiring.IndexPreds` | services/frontend/src/lib/stepMeta.ts:161-166 | the predecessor table lists exactly the sources of a node's edges |
| `Wiring.IndexNodes` | services/frontend/src/lib/stepMeta.ts:160 | a later node of the same id replaces an earlier one |
| `Wiring.SweepLevel` | services/frontend/src/lib/stepMeta.ts:170-178 | one pass over the frontier finds a nearest provider or the next frontier |
| `Wiring.ParamsOf` | services/frontend/src/lib/stepMeta.ts:219-222 | the parameters of one step are found exactly |
| `Wiring.ExtractRunParams` | services/frontend/src/lib/stepMeta.ts:214-225 | the run is asked for exactly the parameters its steps name, whatever values the inputs hold |
| `Wiring.WiredStepResolves` | services/frontend/src/lib/stepMeta.ts:183-239 | when an advance reaches a ready step of a saved workflow it creates the step's row, and each wired input of the row is the nearest provider's output or the run parameter of the port's name |
| `Wiring.WirePort` | services/frontend/src/lib/stepMeta.ts:201-208 | one port gets the provider's output, else the run parameter if it may be one, else nothing |
| `EditorRuns.DrawnWorkflowsAreConfluent` | services/frontend/src/lib/stepMeta.ts:183-239 | workflows saved by the editor satisfy the hypothesis of confluence, so their successful runs all agree |
| `Windows.WindowRecords` | packages/steps/src/cvops_steps/parse_sensor.py:41-60 | the scan returns exactly the non-empty windows at its start times |
| `Windows.NoGaps` | packages/steps/src/cvops_steps/parse_sensor.py:54-59 | a step no longer than the window leaves no record out |
| `Windows.CoversAllIff` | packages/steps/src/cvops_steps/parse_sensor.py:52 | every sorted input is covered exactly for a positive window and a non-negative overlap |
| `Windows.ZeroOverlapPartitions` | packages/steps/src/cvops_steps/parse_sensor.py:41-60 | without overlap the windows, joined, are the records |
| `Windows.Scan` | packages/steps/src/cvops_steps/parse_sensor.py:53-59 | the loop collects the non-empty windows in order |
| `Windows.NothingInvented` | packages/steps/src/cvops_steps/parse_sensor.py:56 | a window holds only records at or after its start |
| `Windows.CoveredIff` | packages/steps/src/cvops_steps/parse_sensor.py:50-59 | for records in any order, which are kept: none if the first time is after the last, otherwise exactly those from the first time to the end of the last window |
| `Windows.ReachIff` | packages/steps/src/cvops_steps/parse_sensor.py:53-59 | the windows reach exactly from their start to the end of the last one |
| `Windows.UnsortedLosesRecords` | packages/steps/src/cvops_steps/parse_sensor.py:50-51 | so records out of time order can fall into no window |
| `Chunks.SplitChars` | packages/steps/src/cvops_steps/chunk_text.py:19-25 | the loop returns the non-blank chunks at its start positions |
| `Chunks.HeadsReassemble` | packages/steps/src/cvops_steps/chunk_text.py:20-24 | unfiltered chunks, each cut where the next begins, reassemble the text |
| `Chunks.OnlyBlanksAreLost` | packages/steps/src/cvops_steps/chunk_text.py:25 | after the filter only whitespace can be missing, for every allowed overlap |
| `Chunks.ChunkAt` | packages/steps/src/cvops_steps/chunk_text.py:19-24 | before filtering, chunk k starts k strides in, where a stride is the size less the overlap |
| `Chunks.DropBlank` | packages/steps/src/cvops_steps/chunk_text.py:25 | the filter keeps the chunks that are not blank, in order |
| `Decimal.FixedReadsBack` | packages/steps/src/cvops_steps/export_yolo.py:151 | a number printed with six decimals reads back as itself, the sign of a zero included |
| `Decimal.FixedInjective` | packages/steps/src/cvops_steps/export_yolo.py:151 | equal text means equal sign and equal millionths |
| `Decimal.SixDecimals` | packages/steps/src/cvops_steps/export_yolo.py:151 | exactly six decimals and no needless leading zero |
| `Yolo.ClassIndex` | packages/steps/src/cvops_steps/export_yolo.py:67-69 | the class index is the position of the key, the last one for a repeated key |
| `Yolo.LabelLines` | packages/steps/src/cvops_steps/export_yolo.py:139-152 | the writer's text is one terminated line for each box of a known class with four coordinates |
| `Yolo.ReExportIsIdentical` | packages/steps/src/cvops_steps/export_yolo.py:139-152 | exporting what was imported gives the same label text, character for character |
| `Yolo.LineReadsBack` | packages/steps/src/cvops_steps/import_dataset.py:70-80 | one written line reads back as its annotation at six decimals |
| `Yolo.ParseLabels` | packages/steps/src/cvops_steps/import_dataset.py:68-80 | the reader's loop gives the annotations of the lines, or the error of one of them, for any spellings of numbers and spaces the language reads |
| `Yolo.LabelsReadBack` | packages/steps/src/cvops_steps/import_dataset.py:66-82 | importing an exported label file gives the ordered boxes of known classes at six decimals |
| `Yolo.PrecisionKept` | packages/steps/src/cvops_steps/export_yolo.py:151 | no coordinate moves by more than half a millionth or changes its sign |
| `Yolo.WordsSplit` | packages/steps/src/cvops_steps/import_dataset.py:68 | a space ends the word before it and makes no word itself |
| `Yolo.FirstLine` | packages/steps/src/cvops_steps/import_dataset.py:67 | a line goes up to the first character that ends lines |
| `Archive.ParseYolo` | packages/steps/src/cvops_steps/import_dataset.py:55-82 | the loop over the label files gives the table of annotations by stem, or the error of one of them |
| `Archive.ByStemExact` | packages/steps/src/cvops_steps/import_dataset.py:63-82 | files with distinct stems are all found under their stems, and nothing else is |
| `Archive.SplitReadsBackIff` | packages/steps/src/cvops_steps/import_dataset.py:23-32 | an exported image is found in its split exactly for the three split names |
| `Archive.ImportImages` | packages/steps/src/cvops_steps/import_dataset.py:304-396 | the loop over the images gives their samples, a revision for each with a valid box, and the split map |
| `Archive.PassedOnIff` | packages/steps/src/cvops_steps/import_dataset.py:392-395 | comparing two sizes passes the split map on exactly if every image resolved and no sample came twice, and it then holds each image's split |
| `Archive.StoredOnce` | packages/steps/src/cvops_steps/import_dataset.py:338-379 | each sample gets at most one revision, with the valid boxes of its own file |
| `Archive.ArchiveRoundTrip` | packages/steps/src/cvops_steps/import_dataset.py:222-396 | importing an exported commit, its files found in any order, never fails, stores for each sample one revision with exactly its surviving boxes or none, and returns a split map with exactly each sample's split |
| `Archive.DetectSplitIff` | packages/steps/src/cvops_steps/import_dataset.py:23-32 | an image's split is the one that the first of its folders stands for that stands for any, with the three spellings of val |
| `Review.BoxRoundTripIff` | packages/cvat-client/src/cvops_cvat_client/geometry.py:26-68 | the two box conversions are inverse on a box exactly when its sizes are not negative |
| `Review.RectRoundTrip` | packages/cvat-client/src/cvops_cvat_client/geometry.py:26-68 | the other way round a rectangle comes back with its corners in order |
| `Review.BuildShapes` | packages/cvat-client/src/cvops_cvat_client/client.py:177-194 | the loop builds one shape per kept pre-label in frame order, and fails exactly when one sits on an image without a size |
| `Review.PushPull` | packages/cvat-client/src/cvops_cvat_client/client.py:177-243 | what was pushed comes back per frame as its kept pre-labels, in order and unchanged |
| `Review.SyncReview` | services/worker-cvat/src/worker_cvat/sync.py:117-168 | no samples, a review that would be lost whole, and a resumed gate are told apart; the table grows as the loop says |
| `Review.NothingWrittenIff` | services/worker-cvat/src/worker_cvat/sync.py:149-168 | nothing is written exactly when no sample has a revision or an ontology to fall back on |
| `Review.OneRevisionPerSample` | services/worker-cvat/src/worker_cvat/sync.py:117-148 | each sample gets exactly one revision, numbered next in its line, holding its frame's annotations, boxes or not |
| `Review.ReviewEndToEnd` | services/worker-cvat/src/worker_cvat/sync.py:84-172 | an unchanged review gives each sample one new revision equal to its kept pre-labels |
| `Review.PullReview` | packages/cvat-client/src/cvops_cvat_client/client.py:226-243 | the reviewed rectangles are grouped by frame in order; frames without any are left out; a frame that does not exist or has no size is an error, frame numbers below zero counting from the end |
| `Review.LatestIsHighest` | services/worker-cvat/src/worker_cvat/sync.py:123-132 | the previous revision of a sample is one of its own with the highest number |
| `Review.WriteAll` | services/worker-cvat/src/worker_cvat/sync.py:121-172 | the loop writes the next revision of each writable sample and counts what it writes |
| `Paging.ListPage` | services/api/src/cvops_api/routers/events.py:51-61 | a page is full or last, and has a cursor exactly if rows remain beyond it |
| `Paging.RestAfter` | services/api/src/cvops_api/routers/datasets.py:310-311 | filtering past a row leaves exactly what the listing has after it |
| `Paging.CollectIsFollow` | services/api/src/cvops_api/routers/datasets.py:310-317 | following cursors against the table is walking down the listing |
| `Paging.CompleteIff` | services/api/src/cvops_api/routers/events.py:51-57 | exactly when following the cursors gives the whole listing once and in order, for each kind of handler and every limit |
| `Paging.NewestFirstComplete` | services/api/src/cvops_api/routers/datasets.py:300-317 | the commit list and the event log lose and repeat nothing for a positive limit, equal times included |
| `Paging.EarlyCursorGives` | services/api/src/cvops_api/routers/datasets.py:379-385 | the handlers that take the cursor one row too far give the listing less one row at each page boundary |

## Left out

- Cancel, retry and manual gate resolution: their handlers are not part of this model. A review that is synchronised after it was resolved by hand has its outputs written a second time, which the model does not show, and its run advanced once more, which only `Kick` shows.
- Which of several runs with an equal key is copied (the code takes the most recent): their outputs are proved equal (`EngineCode.CopiesAgree`).
- Event emission, error texts, timestamps and the age limit of the orphan sweep: a sweep may fire for any pending row.
- Edits of a saved workflow during a run, which an advance would re-read.
- Worker crashes while a step is running: nothing in the system recovers them, so no progress is claimed for them.
- The shared consumer loop of the other workers: it acknowledges every message whatever its handler does, which the engine model covers as a message that is dropped and a row that is swept later.
- The token-refresh queue, React pages, brand scripts, migrations, authentication, CRUD routers and deployers: plumbing or easy members.
- S3, Redis wire details, SQLAlchemy, OpenCV, inference, the CVAT SDK, tar and gzip bytes, base64 and JSON Schema validation.
- Sentence and line splitting of text, COCO import, and format detection.
- Deleting refs: the history model creates and moves them only, since a deleted branch has no head to be an ancestor of.
- Second parents of commits: no code writes them.
- The order in which `sorted` writes archive members: entries are distinct by name, so it carries no information.
- `Kahn.ReportsCycle`: every node on the canvas has an id of its own, as the editor gives it; for a list that repeats an id nothing is claimed, since a repeated root would be processed twice.
- Imports without an ontology, which store samples and splits only, and the counters an import reports.
- `Review.SyncReview`: concurrent deliveries for one task are taken one after the other, because the completed check takes no lock; labelling-job rows and the ontology columns are not modelled.
- `Windows.WindowRecords`: timestamps are numbers; a value that is not one raises in the code.
- `EngineCompletion.AlwaysFinishable`: completion is possible from every such state, not guaranteed under every schedule, because the code gives no fairness.
