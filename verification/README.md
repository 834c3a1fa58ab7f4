# Drift Happens: a verified model of the segment backend

Customers belong to segments. A segment's members are the materialised answer to a rule
tree over a customer's transactions and over other segments' members. The backend keeps
the answers current: a Redis buffer collects changed customers and triggers a rebuild in
dependency order, each evaluation commits the member diff together with delta rows and an
outbox event, a publisher hands the events to the broker, and a cascade consumer
re-evaluates the dependents of a changed segment. A campaign consumer reacts to the same
events with notifications that cannot be taken back.

This project models that backend in Dafny and proves what it is for: whatever the
interleaving, with duplicates, crashes and restarts, the cascade stops, the member table
ends as the one table that answers all rules, the event stream can rebuild it, and no
event is announced twice. Where the code does less than its comments say, the exact
condition is proved, with an input at which it fails.

How it is organised, from the bottom up:

- `SegmentRules`, `Evaluator`, `RuleValidator`, `Metrics`: the rule language, its
  evaluation, its admission from JSON, the aggregates it compares.
- `Tables`, `Dependency` (with `DependencyRace`), `Graph`, `SegmentOrder`,
  `SegmentEvaluation`: the database, the edge table, the topological sort and the
  orchestrator. The services are classes over a mutable `Database`; each method is proved
  against a function on the value `TableState`.
- `Denotation`: what the member table should be; existence, uniqueness, rebuild
  correctness, monotonicity.
- `CascadeConsumer`, `CascadeProtocol`, `Convergence`, `CascadeTermination`: the update
  protocol as a step system in which evaluations of different segments overlap step by step,
  its coverage invariant, confluence, and the weight that makes it stop.
- `Simulation`: the services' own loops as runs of that step system.
- `OutboxPublisher`, `Replay`, `OverlappingPasses`: the duplicated broker stream as a
  refinement of the commit log, and the log as the history of the member table.
- `Campaign` (with `CampaignProtocol`), `ChangeBuffer` (with `ChangeBufferProtocol`),
  `Simulator`: at-most-once notifications, conservation of marks, time shift.
- `SegmentsController`, `SegmentLifecycle`: create, update and delete, and the graph
  invariants they keep or break.

Modelling conventions: a database transaction is one assignment; a UUID drawn by an
evaluation is a counter that never repeats; an outbox row's position stands for its id and
its `createdAt`; clocks, random draws, query order and the outcome of each broker call are
parameters; amounts are cents and times are milliseconds; JavaScript numbers are reals
with the two infinities and NaN.

## Where the code and its documentation differ

- The buffer swap is said to lose no event. It loses no mark, but a flush that throws after
  the swap is only logged: nothing rebuilds for that snapshot
  (`ChangeBufferProtocol.OneRebuildPerSwapIff`, `ChangeBufferProtocol.StrandedSnapshot`), and a
  segment can stay wrong until something evaluates it again (`Convergence.FailedRebuildLeavesStale`).
  From rest this does no harm exactly when the new data makes no rule ask for other members
  (`Convergence.FailedRebuildHarmlessIff`); over any run only dropped segments can be wrong
  (`Convergence.RestIsTheAnswer`), and one completed rebuild mends them all (`Simulation.FlushRuns`).
- A forced refresh is offered for STATIC segments. One whose rule refers to a segment gives it an
  edge, and from then on every event of that parent throws in the cascade consumer and goes back
  to the head of its queue (`CascadeConsumer.ForcedRefreshPoisons`,
  `CascadeConsumer.PoisonedForever`; exact condition in `CascadeConsumer.ForcedRefreshPoisonsIff`).
- Serial cascade handling and `skipDuplicates` are said to remove the races. Two evaluations of
  the same segment, one by the cascade and one by a request or a rebuild, still race, and the
  later commit can leave a member nobody asks for, without an event that would lead back to it
  (`OverlappingPasses.StaleRowSurvives`; exact conditions in
  `OverlappingPasses.OvertakenIsConsistentIff` and `OverlappingPasses.StaysIffHarmless`).
- The simulator's comment says that advancing time is undone by a negative argument. The
  endpoint refuses anything below one day, and every accepted call moves every transaction
  strictly back (`Simulator.AdvanceNeverReverses`).
- The root README says that advancing 30 days drops everyone out of Active Buyers. The
  window is closed at 30 days, so a transaction stamped at this instant still counts
  (`Metrics.ThirtyDaysKeepToday`; `Metrics.AdvanceEmptiesWindowIff` gives the exact condition).
- `create` and `update` are said to surface dependency cycles as errors. Neither looks for
  any but direct self-references (`SegmentLifecycle.UpdateKeepsAcyclicIff`,
  `SegmentLifecycle.UpdateAcceptsCycles`).
- The outbox comments promise an event for every membership change. Initial members of a
  STATIC segment are stored without one (`SegmentLifecycle.CreateIsLoggedIff`,
  `SegmentLifecycle.InitialMembersAreNotLogged`).
- Deletion is said to be blocked if any other segment refers to the deleted one. A STATIC
  segment that was never refreshed has no edge rows and is not protected
  (`SegmentLifecycle.RemoveBreaksRefreshIff`, `SegmentLifecycle.RemoveBreaksRefresh`).
- The campaign consumer's claim makes it safe against duplicates, and also makes a handler
  that fails after its claim lose the notifications for good
  (`CampaignProtocol.CompleteIffOwnerSurvived`, `CampaignProtocol.FailedOwnerLosesNotification`).

## Model

| member | source | states |
|---|---|---|
| `Evaluator.OperatorsOnFinite` | apps/api/src/segments/evaluator.service.ts:67-86 | the six operators are the usual comparisons on finite numbers |
| `Evaluator.OperatorsBeyondFinite` | apps/api/src/segments/metrics.service.ts:13-17 | an infinite age passes exactly `>`, `>=` and `!=` against a threshold, operators come in complementary pairs, NaN passes only `!=` |
| `Evaluator.ComparesCount30d` | apps/api/src/segments/evaluator.service.ts:33-86 | a comparison on the 30-day count compares that count, under each of the six operators |
| `Evaluator.ComparesCountTotal` | apps/api/src/segments/evaluator.service.ts:33-86 | the same of the total count |
| `Evaluator.ComparesSum60d` | apps/api/src/segments/evaluator.service.ts:33-86 | the same of the 60-day sum |
| `Evaluator.ComparesAge` | apps/api/src/segments/evaluator.service.ts:33-86 | the same of the age of the last transaction |
| `Evaluator.ComparesNoTransaction` | apps/api/src/segments/evaluator.service.ts:33-86 | without a transaction the age is above every threshold, equal to none and below none |
| `Evaluator.LooksUpMembership` | apps/api/src/segments/evaluator.service.ts:38-46 | an `in_segment` node answers membership in the named segment and throws exactly if it was not loaded |
| `Evaluator.NeedsEveryChild` | apps/api/src/segments/evaluator.service.ts:47-50 | an `and` node is true exactly when every child is, and otherwise answers or throws as its first child that is not |
| `Evaluator.EvaluateFootprint` | apps/api/src/segments/evaluator.service.ts:23-60 | the evaluator's answer, its throw included, depends on memberships only through the segments the rule refers to |
| `Evaluator.EvaluateMeansHolds` | apps/api/src/segments/evaluator.service.ts:33-50 | with all referenced segments loaded the short-circuiting walk never throws and equals the order-free conjunction |
| `Evaluator.HoldsMonotone` | apps/api/src/segments/evaluator.service.ts:33-50 | more members in the referenced segments can only make a rule true, never false |
| `RuleValidator.ValidateIff` | apps/api/src/segments/segments.controller.ts:79-133 | a rule is the validator's answer if and only if the JSON spells it and it has no empty `and`, no empty id, only finite values and no node below level 32 |
| `RuleValidator.ValidateRoundTrip` | apps/api/src/segments/segments.controller.ts:79-133 | the JSON of a rule is accepted exactly when the rule is well formed, and gives the rule back |
| `RuleValidator.RevalidateIsIdentity` | apps/api/src/segments/segments.controller.ts:79-133 | validating an accepted rule again changes nothing |
| `RuleValidator.BlameIsFirst` | apps/api/src/segments/segments.controller.ts:74-78 | a rejection's path points at the first bad node in depth-first order and names what is wrong with it; an accepted input has no bad node |
| `RuleValidator.ComparisonsAsWritten` | apps/api/src/segments/segments.controller.ts:49-108 | each of the four metric names and six operator signs, as clients write them, becomes the comparison it stands for, with any finite value |
| `RuleValidator.OtherNamesAreRefused` | apps/api/src/segments/segments.controller.ts:88-99 | every other metric is refused as a bad metric, and every other operator as a bad operator |
| `RuleValidator.ReferencesAsWritten` | apps/api/src/segments/segments.controller.ts:109-116 | a reference is accepted exactly with a non-empty id, and names it |
| `RuleValidator.NestingAsWritten` | apps/api/src/segments/segments.controller.ts:79-82 | any node deeper than 32 levels is refused as too deep, and a node at level 32 is not |
| `RuleValidator.ConjunctionsAsWritten` | apps/api/src/segments/segments.controller.ts:117-127 | an `and` keeps all its children in order, each validated one level deeper |
| `Metrics.ComputeAll` | apps/api/src/segments/metrics.service.ts:42-73 | every customer gets one entry, with the aggregate of its transactions at the given time |
| `Metrics.OneMoreTransaction` | apps/api/src/segments/metrics.service.ts:42-60 | how one more transaction moves each of the four metrics, with both window edges, and that the age is that of the latest transaction and infinite without one |
| `Metrics.NoTransactions` | apps/api/src/segments/metrics.service.ts:45-56 | without transactions counts and sum are zero and the age is infinite |
| `Metrics.AgeIsOfTheLatest` | apps/api/src/segments/metrics.service.ts:52-56 | the age is that of one of the customer's transactions, in days of 86,400 seconds, and none is younger |
| `Metrics.ShiftedRows` | apps/api/src/simulator/simulator.controller.ts:211-215 | `advance-time` moves each row by whole days and changes nothing else of it |
| `Metrics.TimeShift` | apps/api/src/simulator/simulator.controller.ts:36-43 | moving all transactions back N days gives everyone the metrics of the unmoved ones N days later, for every N and all four metrics |
| `Metrics.ShiftsAdd` | apps/api/src/simulator/simulator.controller.ts:212-215 | shifts compose by addition |
| `Metrics.AdvanceEmptiesWindowIff` | apps/api/src/simulator/simulator.controller.ts:196-198 | advancing N days empties a customer's 30-day count exactly when each of their transactions is older than N - 30 days from now |
| `Metrics.ThirtyDaysKeepToday` | apps/api/src/simulator/simulator.controller.ts:196-198 | a transaction stamped at this instant still counts after advancing 30 days |
| `Dependency.CollectParentIds` | apps/api/src/segments/dependency.service.ts:23-42 | the accumulator gains exactly the segments that the rule refers to anywhere |
| `SegmentRules.RefsAreNamed` | apps/api/src/segments/dependency.service.ts:23-42 | a rule refers to a segment if and only if one of its nodes, at some path, is an `in_segment` naming it |
| `Dependency.DependencyService.ReplaceDependencies` | apps/api/src/segments/dependency.service.ts:50-88 | the child's incoming edges become the rule's references and no other edge changes; self-references and unknown parents are refused with the table unchanged |
| `Dependency.ReplacedUnique` | apps/api/src/segments/dependency.service.ts:44-49 | that description fixes the edge table, so repeating the call changes nothing |
| `DependencyRace.RacingCallsAgree` | apps/api/src/segments/dependency.service.ts:61-87 | any interleaving of the statements of any number of calls for the same child and rule, from any table, ends as one call alone |
| `SegmentOrder.TopoSort` | apps/api/src/segments/segment-evaluation.service.ts:252-283 | the search loop returns the specified order or the stuck segments, and terminates |
| `SegmentOrder.SortedIff` | apps/api/src/segments/segment-evaluation.service.ts:246-283 | the answer is a permutation of the batch with every in-batch parent before its child, and the sort throws exactly when the in-batch references have a cycle |
| `SegmentEvaluation.SegmentEvaluationService.LoadParentMemberships` | apps/api/src/segments/segment-evaluation.service.ts:230-244 | an entry for each parent asked for, with its members, empty if it has none |
| `SegmentEvaluation.SegmentEvaluationService.MatchingCustomers` | apps/api/src/segments/segment-evaluation.service.ts:120-126 | the loop collects exactly the customers for whom the rule holds, and the evaluator does not throw in it |
| `SegmentEvaluation.SegmentEvaluationService.Persist` | apps/api/src/segments/segment-evaluation.service.ts:144-194 | members, delta rows and one pending event change together, and nothing is written for an empty diff |
| `SegmentEvaluation.SegmentEvaluationService.EvaluateSegment` | apps/api/src/segments/segment-evaluation.service.ts:94-208 | the segment gets the members its rule asks for and the edges its rule refers to, with the diff in the event; every throw leaves the tables unchanged |
| `SegmentEvaluation.EvaluationThrowsIff` | apps/api/src/segments/segment-evaluation.service.ts:94-106 | each early throw with its exact condition, and that it leaves the tables alone |
| `SegmentEvaluation.EvaluationDecidesMembers` | apps/api/src/segments/segment-evaluation.service.ts:111-126 | after an evaluation the members are exactly the customers for whom the evaluator answers true |
| `SegmentEvaluation.EvaluationTouchesItsSegment` | apps/api/src/segments/segment-evaluation.service.ts:105-126 | no other segment's members or edges change, and the segment's edges come exactly from what its rule refers to |
| `SegmentEvaluation.EvaluationRecordsChanges` | apps/api/src/segments/segment-evaluation.service.ts:159-177 | the new delta rows are an ADD for everyone who came in and a REMOVE for everyone who left, under the new batch id, and no other |
| `SegmentEvaluation.EvaluationAnnouncesChanges` | apps/api/src/segments/segment-evaluation.service.ts:178-193 | one pending event with exactly those changes and the segment's name, or none if nothing changed |
| `SegmentEvaluation.EvaluatedInTwoSteps` | apps/api/src/segments/segment-evaluation.service.ts:110-194 | reading with the edge update, then committing the diff, is the whole evaluation when nothing happens in between |
| `SegmentEvaluation.SegmentEvaluationService.RebuildAllDynamic` | apps/api/src/segments/segment-evaluation.service.ts:215-226 | all DYNAMIC segments are evaluated in topological order up to the first throw |
| `Denotation.ExactlyOneAnswer` | apps/api/src/segments/segment-evaluation.service.ts:86-93 | on an acyclic graph exactly one member table satisfies every DYNAMIC rule for given STATIC memberships |
| `Denotation.AnswerUnique` | apps/api/src/segments/segment-evaluation.service.ts:120-136 | two tables that satisfy every DYNAMIC rule and agree on STATIC segments are equal |
| `Denotation.RebuildCorrect` | apps/api/src/segments/segment-evaluation.service.ts:210-226 | a rebuild does not throw, leaves the answer, does not touch STATIC memberships and leaves every rule's edges |
| `Denotation.RebuildRefusesCycles` | apps/api/src/segments/segment-evaluation.service.ts:246-279 | a rebuild throws exactly when the DYNAMIC references have a cycle, before changing anything |
| `Denotation.SecondRebuildQuiet` | apps/api/src/segments/segment-evaluation.service.ts:56-58 | a second rebuild writes no member, edge, delta or event, whatever order its query returns |
| `Denotation.AnswersMonotone` | apps/api/src/segments/evaluator.service.ts:33-50 | larger STATIC memberships give larger answers throughout an acyclic graph, however deep |
| `Denotation.RebuildMonotone` | apps/api/src/segments/segment-evaluation.service.ts:215-226 | the same of the tables that two rebuilds leave |
| `CascadeConsumer.CascadeConsumerService.Handle` | apps/api/src/messaging/cascade-consumer.service.ts:86-120 | the direct dependents of the changed segment, each once, are evaluated in turn up to the first throw; other event types do nothing |
| `CascadeConsumer.CascadeConsumerService.Process` | apps/api/src/messaging/cascade-consumer.service.ts:71-84 | the message leaves the queue when its handler returns and is back when it throws |
| `CascadeConsumer.RebuildCascadesQuietly` | apps/api/src/messaging/cascade-consumer.service.ts:19-22 | handling the events of a rebuild, in any order and number, changes no member and produces no event |
| `CascadeConsumer.EvaluationsSucceedIff` | apps/api/src/segments/segment-evaluation.service.ts:94-106 | on an acyclic graph with existing references a run of evaluations throws if and only if one of its segments is STATIC, and then with the STATIC guard |
| `CascadeConsumer.ForcedRefreshPoisonsIff` | apps/api/src/segments/segments.controller.ts:458-466 | after a forced refresh of a STATIC segment, handling the events of a parent throws if and only if the segment's rule refers to that parent |
| `CascadeConsumer.PoisonedForever` | apps/api/src/messaging/cascade-consumer.service.ts:71-84 | with a STATIC dependent every redelivery throws, however many there are and whatever the data have become |
| `CascadeConsumer.ForcedRefreshPoisons` | apps/api/src/messaging/cascade-consumer.service.ts:74-82 | two segments and one forced refresh with which that happens |
| `CascadeProtocol.StepKeepsInvariant` | apps/api/src/messaging/change-buffer.service.ts:106-140 | every step of the whole protocol, failures included, keeps the coverage invariant: each DYNAMIC segment agrees with its rule, or some work under way will evaluate it again, or its evaluation has failed and been dropped; and so for each open evaluation |
| `CascadeProtocol.RunKeepsInvariant` | apps/api/src/messaging/cascade-consumer.service.ts:71-120 | so does every run, with data changes, rule updates, creates, duplicates, redeliveries, failures and restarts, and with evaluations of different segments overlapping step by step |
| `CascadeProtocol.CommitKeepsSafe` | apps/api/src/segments/segment-evaluation.service.ts:140-194 | a commit settles its own segment if what the evaluation read is still so, and otherwise it is covered; whenever members changed its event covers the segments referring to it |
| `CascadeProtocol.StepKeepsPassesSound` | apps/api/src/segments/segment-evaluation.service.ts:94-138 | an evaluation loads its segment, writes edges, reads metrics, reads parents and reads its members at five different moments; whatever happens in between, other evaluations and their commits included, what it has read is still so or its segment is covered |
| `CascadeProtocol.MessagesAreConserved` | apps/api/src/messaging/cascade-consumer.service.ts:71-84 | the broker's messages grow only by a publish and shrink only by an acknowledgement; failures and restarts lose none |
| `CascadeProtocol.MarksAreConserved` | apps/api/src/messaging/change-buffer.service.ts:106-127 | marks leave the buffer only in a swap that a rebuild is to follow, and a restart keeps them |
| `CascadeProtocol.LogIsConserved` | apps/api/src/messaging/outbox-publisher.service.ts:74-116 | outbox rows never change but for PENDING becoming PUBLISHED when marked, and appear only by commits |
| `CascadeProtocol.MembersAreConserved` | apps/api/src/segments/segment-evaluation.service.ts:140-158 | members change only by a commit of their own segment, by its diff, or by a create |
| `Convergence.BootstrapEstablishesInvariant` | apps/api/src/segments/segment-evaluation.service.ts:45-84 | the state after the bootstrap rebuild satisfies the invariant |
| `Convergence.RestIsTheAnswer` | apps/api/src/messaging/cascade-consumer.service.ts:86-120 | in every reachable state with nothing left to do each DYNAMIC segment agrees with its rule unless its evaluation was dropped and no later one has taken it over; with none dropped the state holds the one answer for its rules, metrics and STATIC memberships |
| `Convergence.RestAfterCrashesIsTheAnswer` | apps/api/src/messaging/cascade-consumer.service.ts:71-84 | failures of handlers and publishers, duplicates and restarts never drop an evaluation, so after them a state at rest holds the answer |
| `Convergence.FailedRebuildDrops` | apps/api/src/messaging/change-buffer.service.ts:92-104 | a rebuild that fails after the buffer swap leaves the system at rest with the old members, every DYNAMIC segment dropped |
| `Convergence.FailedRebuildHarmlessIff` | apps/api/src/messaging/change-buffer.service.ts:92-140 | from rest with nothing dropped, the members that a failed rebuild leaves are the answer for the new data if and only if no rule asks for other members than before |
| `Convergence.FailedRebuildLeavesStale` | apps/api/src/messaging/change-buffer.service.ts:127-140 | a system at rest in the answer and one new transaction with which that leaves a wrong answer |
| `Convergence.AnswerSurvivesIff` | apps/api/src/segments/segment-evaluation.service.ts:108-133 | an answer for one state of the metrics is the answer for another if and only if no rule asks for other members |
| `Convergence.TimeAloneLeavesStale` | apps/api/src/segments/metrics.service.ts:42-60 | a transaction and a rule with which the passing of 31 days, which triggers nothing, makes the table at rest wrong |
| `Convergence.Confluence` | apps/api/src/messaging/cascade-consumer.service.ts:19-22 | with data and rules frozen, any two runs from one state that come to rest with nothing dropped end with the same members |
| `Convergence.CyclesHaveSeveralAnswers` | apps/api/src/segments/segments.controller.ts:138-147 | why acyclicity is needed: two segments referring to each other have two different answers |
| `CascadeTermination.StepLowers` | apps/api/src/messaging/cascade-consumer.service.ts:99-119 | in every reachable state, every fault-free step the system takes by itself, owed refreshes included, lowers a weight over the reference graph, even where saved rules have left stale edges |
| `CascadeTermination.RunsAreBounded` | apps/api/src/messaging/cascade-consumer.service.ts:99-119 | hence no such run is longer than the weight of the state it starts from, whichever reachable state that is, and it writes at most as many events as it has steps |
| `CascadeTermination.NeverStuck` | apps/api/src/messaging/outbox-publisher.service.ts:74-111 | a reachable state that is not at rest has a step to take by itself |
| `CascadeTermination.MaximalRunsEndInTheAnswer` | apps/api/src/segments/segment-evaluation.service.ts:160-193 | left to itself from any reachable state, after a restart, a create or a saved rule too, the system stops within the bound, with STATIC memberships untouched, in the answer but for segments dropped before |
| `CascadeTermination.EveryRunSettles` | apps/api/src/messaging/cascade-consumer.service.ts:19-22 | from the bootstrap: after any run without dropped evaluations the system left to itself stops, in the answer |
| `Simulation.EvaluationRuns` | apps/api/src/segments/segment-evaluation.service.ts:94-208 | the six steps of an evaluation with nothing in between are `evaluateSegment` |
| `Simulation.ProcessRuns` | apps/api/src/messaging/cascade-consumer.service.ts:71-120 | delivering a message, evaluating the dependents in the order of the lookup and acknowledging is a run that ends with the tables of `Process`, which does not throw |
| `Simulation.FlushRuns` | apps/api/src/messaging/change-buffer.service.ts:106-140 | swap, rebuild and end is a run that ends with the tables of `Tick`, and no DYNAMIC segment stays dropped |
| `Simulation.TickRuns` | apps/api/src/messaging/outbox-publisher.service.ts:74-116 | sending and marking a batch, with any refusals and failures, is a run that ends with the outbox of `Tick`, the queue longer by the parents of the rows sent |
| `Simulation.UpdateRuns` | apps/api/src/segments/segments.controller.ts:299-310 | saving a DYNAMIC segment's rule and evaluating it at once is a run that ends with the tables of an accepted update, and the request owes nothing more |
| `Simulation.CreateDynamicRuns` | apps/api/src/segments/segments.controller.ts:212-236 | the same of a DYNAMIC create |
| `Simulation.CreateStaticRuns` | apps/api/src/segments/segments.controller.ts:212-248 | the same of a STATIC create with its initial members |
| `OutboxPublisher.OutboxPublisherService.FindPending` | apps/api/src/messaging/outbox-publisher.service.ts:75-79 | the oldest pending rows, at most a hundred |
| `OutboxPublisher.PendingRowsAreOrdered` | apps/api/src/messaging/outbox-publisher.service.ts:75-79 | the rows found are pending, in order, and no more than asked for |
| `OutboxPublisher.PendingRowsAreFirst` | apps/api/src/messaging/outbox-publisher.service.ts:75-79 | a pending row is passed over only if as many as asked for come before it |
| `OutboxPublisher.OutboxPublisherService.DrainBatch` | apps/api/src/messaging/outbox-publisher.service.ts:74-116 | rows are sent and then marked one by one, up to the first refusal or failure |
| `OutboxPublisher.OutboxPublisherService.Tick` | apps/api/src/messaging/outbox-publisher.service.ts:58-72 | a tick during another does nothing, a failing query changes nothing, and the guard is released |
| `OutboxPublisher.StreamRefinesLog` | apps/api/src/messaging/outbox-publisher.service.ts:58-116 | under any commits, refusals, failures and restarts the stream without adjacent repeats is a prefix of the log, and PUBLISHED rows are a prefix at most one shorter |
| `OutboxPublisher.CommitInsideTick` | apps/api/src/messaging/outbox-publisher.service.ts:74-116 | a commit in the middle of a tick leaves outbox and stream as the same commit after the tick would, so ticks may be taken as atomic |
| `OutboxPublisher.DrainsInCeilingTicks` | apps/api/src/messaging/outbox-publisher.service.ts:28-31 | n pending rows without faults are all published after exactly ceil(n/100) ticks |
| `Replay.StreamRebuildsMembers` | apps/api/src/messaging/outbox-publisher.service.ts:84-111 | with creates, rule updates, evaluations and faulty ticks in any order, applying the duplicated stream to the initial members gives the table as of some log prefix, and the current table once nothing is PENDING |
| `Replay.SerialHistoryAlternates` | apps/api/src/segments/segment-evaluation.service.ts:140-193 | the table is the fold of the log, each event carries exactly its delta rows, and ADD and REMOVE alternate per segment and customer |
| `Replay.AlternatesIffReal` | apps/api/src/segments/segment-evaluation.service.ts:135-136 | changes alternate exactly when every batch added non-members and removed members only |
| `OverlappingPasses.OverlappingPassesReplay` | apps/api/src/segments/segment-evaluation.service.ts:128-194 | with reads and commits of any passes interleaved, the table is still the fold of the commits and each event matches its delta rows |
| `OverlappingPasses.AlternatesIffUndisturbed` | apps/api/src/segments/segment-evaluation.service.ts:145-149 | under overlap changes alternate exactly when no commit found the rows it changes altered since its read |
| `OverlappingPasses.MovesAreHalves` | apps/api/src/segments/segment-evaluation.service.ts:128-194 | the reads and commits that interleave are the two halves of the orchestrator's evaluation |
| `OverlappingPasses.CommitInstallsIff` | apps/api/src/segments/segment-evaluation.service.ts:143-158 | a commit gives its segment what its pass asked for exactly when every row it leaves alone is still as it read it |
| `OverlappingPasses.StaysIffHarmless` | apps/api/src/segments/segment-evaluation.service.ts:143-158 | over any run of overlapping passes a settled segment stays settled exactly as long as each commit on it adds only members of the answer and removes none of them |
| `OverlappingPasses.OvertakenIsConsistentIff` | apps/api/src/segments/segment-evaluation.service.ts:128-158 | an evaluation overtaken by one with newer metrics leaves the segment consistent if and only if it adds only what the newer one asks for and removes nothing of it |
| `OverlappingPasses.StaleRowSurvives` | apps/api/src/messaging/cascade-consumer.service.ts:27-36 | a rule and two metrics tables at which that fails: the segment is inconsistent, the only event is about itself, and nobody depends on it |
| `OverlappingPasses.AddRecordedTwice` | apps/api/src/segments/segment-evaluation.service.ts:145-154 | a rule and metrics at which two overlapping evaluations record the same ADD under two batch ids, so that changes do not alternate |
| `Campaign.CampaignConsumerService.Handle` | apps/api/src/messaging/campaign-consumer.service.ts:84-144 | an unclaimed event is claimed and its due notifications sent once, a claimed one or another type changes nothing |
| `CampaignProtocol.AtMostOnce` | apps/api/src/messaging/campaign-consumer.service.ts:72-144 | under any deliveries, crashes and requeues each event has at most one ADD and one REMOVE notification, with its payload's counts, and at most one owner |
| `CampaignProtocol.AtMostTenHandlers` | apps/api/src/messaging/campaign-consumer.service.ts:36-70 | at most ten handlers are at work in any reachable state |
| `CampaignProtocol.CompleteIffOwnerSurvived` | apps/api/src/messaging/campaign-consumer.service.ts:104-144 | at rest an event has all its notifications if and only if no handler failed while it owned the event with one still due |
| `CampaignProtocol.FailedOwnerLosesNotification` | apps/api/src/messaging/campaign-consumer.service.ts:104-144 | a run of claim, failure and redelivery that comes to rest with the notification lost |
| `CampaignProtocol.HandleRuns` | apps/api/src/messaging/campaign-consumer.service.ts:72-144 | a delivery handled with nothing in between is a run that ends with the claims and the feed of `Handle` |
| `ChangeBuffer.ChangeBufferService.MarkChanged` | apps/api/src/messaging/change-buffer.service.ts:76-78 | the buffer gains the customer |
| `ChangeBuffer.ChangeBufferService.MarkChangedMany` | apps/api/src/messaging/change-buffer.service.ts:84-90 | the buffer gains the customers |
| `ChangeBuffer.ChangeBufferService.Tick` | apps/api/src/messaging/change-buffer.service.ts:92-140 | a non-empty buffer is taken whole and followed by one rebuild; an empty buffer, a tick during another or a throw of RENAME does nothing; a throw of SMEMBERS or DEL takes the buffer without a rebuild; every throw releases the guard |
| `ChangeBufferProtocol.StepKeepsInvariant` | apps/api/src/messaging/change-buffer.service.ts:106-140 | each step of marks and flushes, Redis failures included, keeps conservation and the one-rebuild guard |
| `ChangeBufferProtocol.NothingMarkedIsLost` | apps/api/src/messaging/change-buffer.service.ts:76-140 | over any interleaving the marked ids are the buffer and the snapshots, each mark is in the buffer or a later snapshot, one rebuild runs at a time, and each non-empty swap has its rebuild or was stranded by a throw |
| `ChangeBufferProtocol.OneRebuildPerSwapIff` | apps/api/src/messaging/change-buffer.service.ts:106-140 | between flushes there has been one rebuild per swap if and only if Redis never threw after a RENAME |
| `ChangeBufferProtocol.StrandedSnapshot` | apps/api/src/messaging/change-buffer.service.ts:127-128 | a run in which a mark ends in a snapshot that no rebuild follows |
| `ChangeBufferProtocol.TickRuns` | apps/api/src/messaging/change-buffer.service.ts:92-140 | a tick with nothing in between, with or without a Redis failure, is a run that ends with the buffer of `Tick`, and with a rebuild exactly when it runs one |
| `Simulator.SimulatorController.SimulateTransaction` | apps/api/src/simulator/simulator.controller.ts:64-77 | one transaction and one mark, or neither for an unknown customer; a mark that throws leaves the transaction unmarked |
| `Simulator.SimulatorController.SimulateBulk` | apps/api/src/simulator/simulator.controller.ts:117-183 | exactly `count` transactions are inserted and exactly their customers marked, whatever the chunk size; a mark that throws ends the call with one chunk inserted and unmarked |
| `Simulator.DrawnRows` | apps/api/src/simulator/simulator.controller.ts:142-158 | what is inserted: one row per draw, of a customer from the pool, with the drawn amount, stamped whole days ago |
| `Simulator.TouchedIff` | apps/api/src/simulator/simulator.controller.ts:159-163 | the customers marked for a chunk are exactly those of its rows |
| `Simulator.SimulatorController.AdvanceTime` | apps/api/src/simulator/simulator.controller.ts:202-234 | every transaction moves back by the whole days, all customers are marked, and the answer reports the days unrounded; a mark that throws leaves the transactions moved and nobody marked |
| `Simulator.AdvancedRebuild` | apps/api/src/simulator/simulator.controller.ts:36-43 | the rebuild after `advance-time` writes what a rebuild that many days later would write |
| `Simulator.AdvanceThenFlush` | apps/api/src/simulator/simulator.controller.ts:202-234 | `advance-time` followed by the flush's tick, through the two services, leaves the tables of a rebuild over the unmoved data that many days later, and takes all marks |
| `Simulator.AdvancesAdd` | apps/api/src/simulator/simulator.controller.ts:202-223 | two advances with their rebuilds end with the members of one rebuild at the sum of the days |
| `Simulator.LastRebuildDecides` | apps/api/src/segments/segment-evaluation.service.ts:215-226 | a rebuild in between leaves no trace in the members of the next one |
| `Simulator.AdvanceNeverReverses` | apps/api/src/simulator/simulator.controller.ts:190-206 | every accepted advance moves every transaction at least a day back |
| `SegmentsController.SegmentsController.AssertRuleReferences` | apps/api/src/segments/segments.controller.ts:138-159 | self-references and unknown segments are refused, in this order |
| `SegmentsController.SegmentsController.Create` | apps/api/src/segments/segments.controller.ts:196-251 | tables and answer after a create, in the source's order of refusals |
| `SegmentsController.SegmentsController.Update` | apps/api/src/segments/segments.controller.ts:264-313 | tables and answer after an update; a changed DYNAMIC rule is evaluated at once |
| `SegmentsController.SegmentsController.Remove` | apps/api/src/segments/segments.controller.ts:328-346 | refused while edges lead from the segment; else the segment goes with its member, delta and edge rows |
| `SegmentLifecycle.CreateRefusedAs` | apps/api/src/segments/segments.controller.ts:197-221 | when a create is refused and with what, in the source's order, and that it then changes nothing |
| `SegmentLifecycle.CreateDynamicEffect` | apps/api/src/segments/segments.controller.ts:223-236 | an accepted DYNAMIC create stores name and validated rule, agrees with the rule at once, has its edges, and announces who came in |
| `SegmentLifecycle.CreateStaticEffect` | apps/api/src/segments/segments.controller.ts:238-248 | a STATIC create stores exactly the initial members without edges, rows or event; an unknown one among them leaves the segment empty |
| `SegmentLifecycle.UpdateRefusedAs` | apps/api/src/segments/segments.controller.ts:265-297 | when an update is refused and with what, and that it then changes nothing |
| `SegmentLifecycle.UpdateEffect` | apps/api/src/segments/segments.controller.ts:272-310 | an accepted update stores name and validated rule; a DYNAMIC segment with a new rule agrees with it at once, with edges, delta rows and one event telling what changed; everything else stays |
| `SegmentLifecycle.RemoveEffect` | apps/api/src/segments/segments.controller.ts:328-346 | a delete is refused exactly for an unknown segment or one with an edge from it; else its own rows go and no other |
| `SegmentLifecycle.RequestsKeepTheGraph` | apps/api/src/segments/segments.controller.ts:196-346 | any requests keep edges equal to existing references and names unique; without rule updates they keep the graph acyclic and rebuilds from throwing |
| `SegmentLifecycle.BootstrapIsSound` | apps/api/src/segments/segment-evaluation.service.ts:60-84 | the bootstrap rebuild of a seeded database establishes these invariants |
| `SegmentLifecycle.UpdateKeepsAcyclicIff` | apps/api/src/segments/segments.controller.ts:138-147 | an admitted rule update keeps the graph acyclic if and only if no DYNAMIC segment it refers to already depends on the updated one |
| `SegmentLifecycle.UpdateAcceptsCycles` | apps/api/src/segments/segments.controller.ts:293-310 | pointing a segment at one of its dependents is accepted and makes every later rebuild throw |
| `SegmentLifecycle.RemoveBreaksRefreshIff` | apps/api/src/segments/segments.controller.ts:315-325 | after an accepted delete a segment can still be refreshed if and only if its rule does not refer to the deleted one, which holds of every DYNAMIC segment |
| `SegmentLifecycle.RemoveBreaksRefresh` | apps/api/src/segments/segments.controller.ts:315-325 | a sound database in which an accepted delete makes the refresh of a STATIC segment throw |
| `SegmentLifecycle.CreateIsLoggedIff` | apps/api/src/segments/segments.controller.ts:223-248 | a create can be replayed from its events if and only if the segment is DYNAMIC or has no initial members |
| `SegmentLifecycle.InitialMembersAreNotLogged` | apps/api/src/segments/segments.controller.ts:238-248 | an accepted create whose member no event tells of |
| `Graph.RedirectKeepsAcyclicIff` | apps/api/src/segments/segment-evaluation.service.ts:246-251 | changing what one node of an acyclic graph refers to closes a cycle exactly when a new parent reaches it |

## Left out

- CascadeProtocol.RunKeepsInvariant: two evaluations of the same segment do not overlap; the second waits for the first. In the source one by the cascade, one by a rebuild and one by a request can overlap, and convergence can then fail; `OverlappingPasses` says exactly when, and shows that replay still holds.
- CascadeProtocol.StepKeepsInvariant: a rule update is a step only if the graph stays acyclic, because otherwise there need not be one answer and a rebuild throws after its snapshot is gone; `SegmentLifecycle.UpdateKeepsAcyclicIff` says which updates these are.
- CascadeProtocol.StepKeepsPassesSound: a parents' query reads all of them at one instant, and edges are replaced in one statement; `DependencyRace` interleaves the two statements.
- Convergence.RestIsTheAnswer: starts from a database in which only DYNAMIC segments have edge rows, and without forced refreshes; `CascadeConsumer.ForcedRefreshPoisonsIff` says which of them would stop the cascade.
- The passing of time in the cascade protocol: metrics change there only when data do. The clock moves them too and triggers nothing; `Convergence.AnswerSurvivesIff` says when the answer outlives that, `Convergence.TimeAloneLeavesStale` that it need not.
- CascadeTermination.MaximalRunsEndInTheAnswer: counts fault-free steps of the system itself. With faults, with new data or with further requests there is no bound.
- Replay.StreamRebuildsMembers: creating a STATIC segment with initial members writes no event, and deleting one removes member rows without one.
- SegmentLifecycle.RequestsKeepTheGraph: each request is atomic, so the rollback of a create whose evaluation throws is unreachable and has no counterpart. The cascade protocol, where that evaluation can fail, keeps the segment as a dropped one; the source deletes it.
- Deletion inside the cascade protocol. A rebuild or a handler's list that still names a deleted segment throws; an event of a deleted segment finds no edges and is acknowledged.
- CampaignProtocol.AtMostOnce: a failed name lookup is one of the failures; the names, the preview and the wording of the notifications are not modelled.
- The order of the ids in an event's two arrays, which no query fixes: they are sets.
- OutboxPublisher.OutboxPublisherService.DrainBatch: a publish that the channel accepts is taken to have reached the broker, although the channel has no confirms.
- Floating-point rounding, SQL and calendar arithmetic (a day is 86,400 seconds), and a fractional `count` or `chunkSize`.
- Wall-clock timers and latencies: a tick may come at any time.
- AMQP, Redis and Prisma clients, connection lifecycle, the realtime gateway and the web application.
- Profile updates, which no rule reads, and the read-only endpoints.
- Error texts beyond their kind and the path of a rejected rule.
