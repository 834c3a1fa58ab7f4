/**
 The services' own loops as runs of the step system: an evaluation, the cascade consumer's
 handling of a message, the rebuild behind a buffer swap and a publisher batch, each without
 anything in between, take the step system where the services' methods take the tables.
 */
module Simulation {
  import opened Wrappers
  import opened SegmentRules
  import opened Evaluator
  import opened Tables
  import opened Dependency
  import opened Graph
  import opened SegmentOrder
  import opened SegmentEvaluation
  import opened Denotation
  import opened CascadeConsumer
  import opened CascadeProtocol
  import OutboxPublisher
  import RuleValidator
  import SegmentsController

  lemma {:induction false} RunsInTurn(s: System, first: seq<Action>, second: seq<Action>)
    requires ForeignKeys(s.t) && Runs(s, first) && Runs(Run(s, first), second)
    ensures Runs(s, first + second) && Run(s, first + second) == Run(Run(s, first), second)
    decreases |first|
  {
    if first == [] {
      assert first + second == second;
    } else {
      assert (first + second)[1..] == first[1..] + second;
      RunsInTurn(Apply(s, first[0]), first[1..], second);
    }
  }

  lemma OneStep(s: System, a: Action)
    requires ForeignKeys(s.t) && Enabled(s, a)
    ensures Runs(s, [a]) && Run(s, [a]) == Apply(s, a)
  {
    assert [a][1..] == [];
    assert Runs(Apply(s, a), []);
  }

  lemma OneMore(s: System, actions: seq<Action>, a: Action)
    requires ForeignKeys(s.t) && Runs(s, actions) && Enabled(Run(s, actions), a)
    ensures Runs(s, actions + [a]) && Run(s, actions + [a]) == Apply(Run(s, actions), a)
  {
    OneStep(Run(s, actions), a);
    RunsInTurn(s, actions, [a]);
  }

  /** The four steps between the load and the commit. */
  function Advances(id: SegmentId): seq<Action> {
    [Advance(id)] + [Advance(id)] + [Advance(id)] + [Advance(id)]
  }

  lemma AdvanceGoesOn(s: System, id: SegmentId, stage: Stage, owner: Owner, mends: bool)
    requires ForeignKeys(s.t) && id in s.passes && s.passes[id] == Pass(owner, mends, stage) && !stage.Compared?
    requires id in s.t.segments && (stage.Loaded? ==> DependencyFailure(s.t.segments, id, stage.segment.rule).None?)
    ensures Enabled(s, Advance(id))
    ensures Apply(s, Advance(id))
         == s.(t := Recorded(s.t, id, stage), passes := s.passes[id := Pass(owner, mends, NextStage(s, id, stage))])
  {
  }

  lemma AdvancesRun(s: System, id: SegmentId, owner: Owner, mends: bool)
    requires ForeignKeys(s.t) && id in s.t.segments && id in s.passes
    requires s.passes[id] == Pass(owner, mends, Loaded(s.t.segments[id]))
    requires DependencyFailure(s.t.segments, id, s.t.segments[id].rule).None?
    ensures Runs(s, Advances(id))
    ensures Run(s, Advances(id))
         == s.(t := Begun(s.t, id), passes := s.passes[id := Pass(owner, mends, Compared(Diff(s.t, s.metrics, id)))])
  {
    var segment := s.t.segments[id];
    AdvanceGoesOn(s, id, Loaded(segment), owner, mends);
    OneStep(s, Advance(id));
    var s1 := Apply(s, Advance(id));
    AdvanceGoesOn(s1, id, Linked(segment), owner, mends);
    OneMore(s, [Advance(id)], Advance(id));
    var s2 := Apply(s1, Advance(id));
    assert s2.passes == s.passes[id := Pass(owner, mends, Measured(segment, s.metrics))];
    AdvanceGoesOn(s2, id, Measured(segment, s.metrics), owner, mends);
    OneMore(s, [Advance(id)] + [Advance(id)], Advance(id));
    LastAdvances(s, Apply(s2, Advance(id)), id, owner, mends);
    OneMore(s, [Advance(id)] + [Advance(id)] + [Advance(id)], Advance(id));
  }

  lemma LastAdvances(s: System, s3: System, id: SegmentId, owner: Owner, mends: bool)
    requires ForeignKeys(s.t) && ForeignKeys(s3.t) && id in s.t.segments && id in s.passes
    requires var asked := Asked(s.t.segments[id], NewMembers(s.t.segments[id].rule, s.metrics, s.t.members));
             var linked := s.t.(dependencies := WithIncoming(s.t.dependencies, id, Refs(s.t.segments[id].rule)));
             && s3 == s.(t := linked, passes := s3.passes)
             && id in s3.passes && s3.passes[id] == Pass(owner, mends, asked) && s3.passes.Keys == s.passes.Keys
             && forall other | other in s.passes && other != id :: s3.passes[other] == s.passes[other]
    ensures Enabled(s3, Advance(id))
    ensures Apply(s3, Advance(id))
         == s.(t := Begun(s.t, id), passes := s.passes[id := Pass(owner, mends, Compared(Diff(s.t, s.metrics, id)))])
  {
    AdvanceGoesOn(s3, id, s3.passes[id].stage, owner, mends);
    var diff := Diff(s.t, s.metrics, id);
    assert s3.passes[id := Pass(owner, mends, Compared(diff))] == s.passes[id := Pass(owner, mends, Compared(diff))];
  }

  /** An evaluation from its start to its commit. */
  function Evaluation(start: Action, id: SegmentId): seq<Action> {
    [start] + Advances(id) + [Commit(id)]
  }

  /** What a start leaves behind besides the open evaluation. */
  ghost function Scheduled(s: System, a: Action): System
    requires ForeignKeys(s.t) && Enabled(s, a)
  {
    Apply(s, a).(passes := s.passes)
  }

  ghost predicate Mends(s: System, start: Action)
    requires Enabled(s, start) && Starts(start)
  {
    !start.HandleOne? || Started(s, start) in s.dropped
  }

  lemma EvaluationReachesCommit(s: System, start: Action)
    requires WellFormed(s) && Enabled(s, start) && Starts(start)
    ensures var id, s1 := Started(s, start), Apply(s, start);
            && Runs(s, [start] + Advances(id))
            && Run(s, [start] + Advances(id))
               == s1.(t := Begun(s.t, id),
                      passes := s1.passes[id := Pass(OwnerOf(start), Mends(s, start), Compared(Diff(s.t, s.metrics, id)))])
  {
    var id := Started(s, start);
    StartEffect(s, start);
    EvaluationSucceeds(s.t, id);
    OneStep(s, start);
    AdvancesRun(Apply(s, start), id, OwnerOf(start), Mends(s, start));
    RunsInTurn(s, [start], Advances(id));
  }

  /** An evaluation that nothing interrupts is `evaluateSegment`. */
  lemma EvaluationRuns(s: System, start: Action)
    requires WellFormed(s) && Enabled(s, start) && Starts(start)
    ensures var id, end := Started(s, start), Scheduled(s, start);
            && Runs(s, Evaluation(start, id))
            && Run(s, Evaluation(start, id))
               == end.(t := AfterEvaluate(s.t, s.metrics, id, false),
                       handler := if start.HandleOne? then Handling(s.handler.parent, s.handler.todo - {id}) else s.handler)
  {
    var id := Started(s, start);
    StartEffect(s, start);
    EvaluationSucceeds(s.t, id);
    EvaluationReachesCommit(s, start);
    EvaluationCommits(s, Apply(s, start), id, OwnerOf(start));
    OneMore(s, [start] + Advances(id), Commit(id));
  }

  lemma EvaluationCommits(s: System, s': System, id: SegmentId, owner: Owner)
    requires ForeignKeys(s.t) && HasStarted(s, s', id, owner) && EvaluationFailure(s.t, id, false).None?
    ensures var mends := !owner.ByHandler? || id in s.dropped;
            var s2 := s'.(t := Begun(s.t, id), passes := s'.passes[id := Pass(owner, mends, Compared(Diff(s.t, s.metrics, id)))]);
            && Enabled(s2, Commit(id))
            && Finish(s2, id) == s'.(passes := s.passes, t := AfterEvaluate(s.t, s.metrics, id, false),
                 handler := if owner.ByHandler? then Handling(s.handler.parent, s.handler.todo - {id}) else s.handler)
  {
    var mends := !owner.ByHandler? || id in s.dropped;
    EvaluatedInTwoSteps(s.t, s.metrics, id);
    ClosingRestores(s.passes, s'.passes, id, s'.passes[id], Pass(owner, mends, Compared(Diff(s.t, s.metrics, id))));
  }

  lemma ClosingRestores(passes: map<SegmentId, Pass>, passes': map<SegmentId, Pass>, id: SegmentId, first: Pass, pass: Pass)
    requires id !in passes && passes' == passes[id := first]
    ensures passes'[id := pass] - {id} == passes
  {
  }

  /** The cascade consumer's loop over the dependents. */
  function Handlings(order: seq<SegmentId>): seq<Action> {
    if order == [] then [] else Evaluation(HandleOne(order[0]), order[0]) + Handlings(order[1..])
  }

  lemma HandleOneRuns(s: System, id: SegmentId)
    requires WellFormed(s) && Enabled(s, HandleOne(id))
    ensures Runs(s, Evaluation(HandleOne(id), id))
    ensures Run(s, Evaluation(HandleOne(id), id))
         == s.(t := AfterEvaluate(s.t, s.metrics, id, false), handler := Handling(s.handler.parent, s.handler.todo - {id}),
               dropped := s.dropped - {id})
  {
    EvaluationRuns(s, HandleOne(id));
  }

  lemma DropsUnroll(dropped: set<SegmentId>, order: seq<SegmentId>)
    requires order != []
    ensures dropped - {order[0]} - Elements(order[1..]) == dropped - Elements(order)
  {
    assert order == [order[0]] + order[1..];
  }

  lemma {:induction false} HandlingsRun(s: System, order: seq<SegmentId>)
    requires Invariant(s) && s.handler.Handling? && NoneBy(s, ByHandler)
    requires Distinct(order) && Elements(order) == s.handler.todo
    requires forall id | id in order :: id !in s.passes
    ensures Runs(s, Handlings(order))
    ensures Run(s, Handlings(order))
         == s.(t := AfterEvaluateAll(s.t, s.metrics, order), handler := Handling(s.handler.parent, {}),
               dropped := s.dropped - Elements(order))
    decreases |order|
  {
    if order == [] {
      assert s.dropped - Elements(order) == s.dropped;
    } else {
      var id := order[0];
      assert id in Elements(order);
      HandleOneRuns(s, id);
      RunKeepsInvariant(s, Evaluation(HandleOne(id), id));
      var s1 := Run(s, Evaluation(HandleOne(id), id));
      assert Elements(order[1..]) == s.handler.todo - {id};
      EvaluationSucceeds(s.t, id);
      HandlingsRun(s1, order[1..]);
      RunsInTurn(s, Evaluation(HandleOne(id), id), Handlings(order[1..]));
      DropsUnroll(s.dropped, order);
    }
  }

  lemma DeliveredDoesNotThrow(s: System, k: nat, order: seq<SegmentId>)
    requires WellFormed(s) && k < |s.queue| && Elements(order) == Dependents(s.t.dependencies, s.queue[k])
    ensures EvaluateAllFailure(s.t, s.metrics, order).None?
  {
    forall i | 0 <= i < |order| ensures IsDynamic(s.t.segments, order[i]) {
      assert order[i] in Elements(order);
    }
    EvaluationsSucceedIff(s.t, s.metrics, order);
  }

  /**
   The cascade consumer: delivering a message, evaluating the dependents in the order the lookup
   returned and acknowledging takes the tables where `CascadeConsumerService.Process` takes them.
   */
  lemma ProcessRuns(s: System, k: nat, order: seq<SegmentId>)
    requires Invariant(s) && Enabled(s, Deliver(k))
    requires Distinct(order) && Elements(order) == Dependents(s.t.dependencies, s.queue[k])
    requires forall id | id in order :: id !in s.passes
    ensures var actions := [Deliver(k)] + Handlings(order) + [Ack];
            && Runs(s, actions)
            && Run(s, actions) == s.(t := AfterEvaluateAll(s.t, s.metrics, order), queue := s.queue[..k] + s.queue[k + 1..],
                                     dropped := s.dropped - Elements(order))
            && EvaluateAllFailure(s.t, s.metrics, order).None?
  {
    NoHandlerPass(s);
    OneStep(s, Deliver(k));
    StepKeepsInvariant(s, Deliver(k));
    var s1 := Apply(s, Deliver(k));
    HandlingsRun(s1, order);
    RunsInTurn(s, [Deliver(k)], Handlings(order));
    OneMore(s, [Deliver(k)] + Handlings(order), Ack);
    DeliveredDoesNotThrow(s, k, order);
  }

  /** The rebuild's loop. */
  function Rebuildings(order: seq<SegmentId>): seq<Action> {
    if order == [] then [] else Evaluation(RebuildOne, order[0]) + Rebuildings(order[1..])
  }

  lemma RebuildOneRuns(s: System)
    requires WellFormed(s) && Enabled(s, RebuildOne)
    ensures var id := s.rebuild.todo[0];
            && Runs(s, Evaluation(RebuildOne, id))
            && Run(s, Evaluation(RebuildOne, id))
               == s.(t := AfterEvaluate(s.t, s.metrics, id, false), rebuild := Running(s.rebuild.todo[1..]),
                     dropped := s.dropped - {id})
  {
    EvaluationRuns(s, RebuildOne);
  }

  lemma {:induction false} RebuildingsRun(s: System, order: seq<SegmentId>)
    requires Invariant(s) && s.rebuild == Running(order) && NoneBy(s, ByRebuild)
    requires forall id | id in order :: id !in s.passes
    ensures Runs(s, Rebuildings(order))
    ensures Run(s, Rebuildings(order))
         == s.(t := AfterEvaluateAll(s.t, s.metrics, order), rebuild := Running([]), dropped := s.dropped - Elements(order))
    decreases |order|
  {
    if order == [] {
      assert s.dropped - Elements(order) == s.dropped;
    } else {
      assert order[0] in Elements(order);
      EvaluationSucceeds(s.t, order[0]);
      RebuildOneRuns(s);
      RunKeepsInvariant(s, Evaluation(RebuildOne, order[0]));
      RebuildingsRun(Run(s, Evaluation(RebuildOne, order[0])), order[1..]);
      RunsInTurn(s, Evaluation(RebuildOne, order[0]), Rebuildings(order[1..]));
      DropsUnroll(s.dropped, order);
    }
  }

  /**
   The flush: swapping the buffer and rebuilding to the end takes the tables where
   `ChangeBufferService.Tick` takes them, and no segment remains dropped.
   */
  lemma FlushRuns(s: System, rows: seq<SegmentId>)
    requires Invariant(s) && Enabled(s, Flush) && s.passes == map[] && ListsDynamic(s.t.segments, rows)
    ensures var actions := [Flush] + [StartRebuild(rows)] + Rebuildings(Order(s, rows)) + [EndRebuild];
            && Runs(s, actions)
            && Run(s, actions) == s.(t := AfterRebuild(s.t, s.metrics, rows), buffer := {},
                                     dropped := s.dropped - DynamicIds(s.t.segments))
  {
    OneStep(s, Flush);
    OneMore(s, [Flush], StartRebuild(rows));
    RunKeepsInvariant(s, [Flush] + [StartRebuild(rows)]);
    var s2 := Run(s, [Flush] + [StartRebuild(rows)]);
    var order := Order(s, rows);
    StartRebuildOrder(s, rows);
    RebuildingsRun(s2, order);
    RunsInTurn(s, [Flush] + [StartRebuild(rows)], Rebuildings(order));
    OneMore(s, [Flush] + [StartRebuild(rows)] + Rebuildings(order), EndRebuild);
    BatchIsDynamicGraph(s.t.segments, rows);
    SortedIff(rows, s.t.segments);
  }

  lemma RefreshRuns(s: System, id: SegmentId)
    requires WellFormed(s) && Enabled(s, Refresh(id))
    ensures Runs(s, Evaluation(Refresh(id), id))
    ensures Run(s, Evaluation(Refresh(id), id))
         == s.(t := AfterEvaluate(s.t, s.metrics, id, false), refreshing := s.refreshing - {id}, dropped := s.dropped - {id})
  {
    EvaluationRuns(s, Refresh(id));
  }

  lemma EditEffect(s: System, a: Action)
    requires ForeignKeys(s.t) && Enabled(s, a) && Edits(a) && IsDynamic(Apply(s, a).t.segments, a.id)
    ensures Apply(s, a) == s.(t := Apply(s, a).t, refreshing := s.refreshing + {a.id})
  {
  }

  /** Saving a DYNAMIC segment and evaluating it at once. */
  lemma SaveAndEvaluateRuns(s: System, a: Action)
    requires Invariant(s) && Enabled(s, a) && Edits(a) && a.id !in s.passes && IsDynamic(Apply(s, a).t.segments, a.id)
    ensures Runs(s, [a] + Evaluation(Refresh(a.id), a.id))
    ensures Run(s, [a] + Evaluation(Refresh(a.id), a.id))
         == s.(t := AfterEvaluate(Apply(s, a).t, s.metrics, a.id, false),
               refreshing := s.refreshing - {a.id}, dropped := s.dropped - {a.id})
  {
    OneStep(s, a);
    StepKeepsInvariant(s, a);
    EditEffect(s, a);
    RefreshRuns(Apply(s, a), a.id);
    RunsInTurn(s, [a], Evaluation(Refresh(a.id), a.id));
    assert s.refreshing + {a.id} - {a.id} == s.refreshing - {a.id};
  }

  lemma SavedIsUpdated(s: System, id: SegmentId, input: RuleValidator.Json, rule: SegmentRule)
    requires ForeignKeys(s.t) && IsDynamic(s.t.segments, id)
    requires RuleValidator.Validate(input, [], 0) == Success(rule) && Enabled(s, SaveRule(id, rule))
    ensures IsDynamic(Apply(s, SaveRule(id, rule)).t.segments, id)
    ensures SegmentsController.Updated(s.t, s.metrics, id, SegmentsController.UpdateBody(None, Some(input)))
         == (AfterEvaluate(Apply(s, SaveRule(id, rule)).t, s.metrics, id, false), None)
  {
    var body := SegmentsController.UpdateBody(None, Some(input));
    assert SegmentsController.UpdateRefusal(s.t, id, body).None?;
    SavedIsPatched(s.t, id, input, rule);
    assert Apply(s, SaveRule(id, rule)).t == SegmentsController.Patched(s.t, id, body);
  }

  lemma SavedIsPatched(t: TableState, id: SegmentId, input: RuleValidator.Json, rule: SegmentRule)
    requires id in t.segments && RuleValidator.Validate(input, [], 0) == Success(rule)
    requires SegmentsController.UpdateRefusal(t, id, SegmentsController.UpdateBody(None, Some(input))).None?
    ensures SegmentsController.Patched(t, id, SegmentsController.UpdateBody(None, Some(input)))
         == t.(segments := t.segments[id := t.segments[id].(rule := rule)])
  {
  }

  /**
   A rule update: saving the rule and evaluating at once takes the tables where
   `SegmentsController.Update` takes them, and the request owes nothing more.
   */
  lemma UpdateRuns(s: System, id: SegmentId, input: RuleValidator.Json, rule: SegmentRule)
    requires Invariant(s) && IsDynamic(s.t.segments, id) && id !in s.passes
    requires RuleValidator.Validate(input, [], 0) == Success(rule) && Enabled(s, SaveRule(id, rule))
    ensures var actions := [SaveRule(id, rule)] + Evaluation(Refresh(id), id);
            var (t', error) := SegmentsController.Updated(s.t, s.metrics, id, SegmentsController.UpdateBody(None, Some(input)));
            && error.None? && Runs(s, actions)
            && Run(s, actions) == s.(t := t', refreshing := s.refreshing - {id}, dropped := s.dropped - {id})
  {
    SavedIsUpdated(s, id, input, rule);
    SaveAndEvaluateRuns(s, SaveRule(id, rule));
  }

  lemma CreatedIsSaved(s: System, customers: set<CustomerId>, id: SegmentId, body: SegmentsController.CreateBody)
    requires ForeignKeys(s.t) && id !in s.t.segments
    requires SegmentsController.Created(s.t, s.metrics, customers, id, body).1.None?
    ensures var rule := RuleValidator.Validate(body.rule, [], 0);
            var t' := SegmentsController.Created(s.t, s.metrics, customers, id, body).0;
            && rule.Success?
            && var create := CreateSegment(id, Segment(body.name, body.kind, rule.value),
                                           if body.kind.DYNAMIC? then {} else body.initialMemberIds);
               && Enabled(s, create)
               && t' == if body.kind.DYNAMIC? then AfterEvaluate(Apply(s, create).t, s.metrics, id, false) else Apply(s, create).t
  {
  }

  /** A create: the same of `SegmentsController.Create`, for a DYNAMIC segment, */
  lemma CreateDynamicRuns(s: System, customers: set<CustomerId>, id: SegmentId, body: SegmentsController.CreateBody)
    requires Invariant(s) && id !in s.t.segments && id !in s.passes && body.kind.DYNAMIC?
    requires SegmentsController.Created(s.t, s.metrics, customers, id, body).1.None?
    ensures var rule := RuleValidator.Validate(body.rule, [], 0);
            var t' := SegmentsController.Created(s.t, s.metrics, customers, id, body).0;
            && rule.Success?
            && var actions := [CreateSegment(id, Segment(body.name, DYNAMIC, rule.value), {})] + Evaluation(Refresh(id), id);
               && Runs(s, actions)
               && Run(s, actions) == s.(t := t', refreshing := s.refreshing - {id}, dropped := s.dropped - {id})
  {
    CreatedIsSaved(s, customers, id, body);
    var rule := RuleValidator.Validate(body.rule, [], 0).value;
    SaveAndEvaluateRuns(s, CreateSegment(id, Segment(body.name, DYNAMIC, rule), {}));
  }

  /** and for a STATIC one with its initial members. */
  lemma CreateStaticRuns(s: System, customers: set<CustomerId>, id: SegmentId, body: SegmentsController.CreateBody)
    requires Invariant(s) && id !in s.t.segments && body.kind.STATIC?
    requires SegmentsController.Created(s.t, s.metrics, customers, id, body).1.None?
    ensures var rule := RuleValidator.Validate(body.rule, [], 0);
            var t' := SegmentsController.Created(s.t, s.metrics, customers, id, body).0;
            && rule.Success?
            && var create := CreateSegment(id, Segment(body.name, STATIC, rule.value), body.initialMemberIds);
               Runs(s, [create]) && Run(s, [create]) == s.(t := t')
  {
    CreatedIsSaved(s, customers, id, body);
    var rule := RuleValidator.Validate(body.rule, [], 0).value;
    OneStep(s, CreateSegment(id, Segment(body.name, STATIC, rule), body.initialMemberIds));
  }

  /** The parents that the given outbox rows are about. */
  function Parents(rows: seq<OutboxRow>, stream: seq<nat>): seq<SegmentId>
    requires forall i | 0 <= i < |stream| :: stream[i] < |rows|
  {
    seq(|stream|, i requires 0 <= i < |stream| => rows[stream[i]].payload.segmentId)
  }

  /** The publisher's steps for a batch, up to the first row that is refused or fails. */
  function Sendings(batch: seq<nat>, attempts: nat -> OutboxPublisher.Attempt): seq<Action> {
    if batch == [] then []
    else
      var attempt := attempts(batch[0]);
      if attempt.Accepted? then [Publish(batch[0])] + [MarkPublished] + Sendings(batch[1..], attempts)
      else if attempt.AcceptedMarkFails? || attempt.sent then [Publish(batch[0])] + [PublisherFails]
      else []
  }

  /** The rows of a batch that reach the broker. */
  function Sent(batch: seq<nat>, attempts: nat -> OutboxPublisher.Attempt): seq<nat> {
    if batch == [] then []
    else
      var attempt := attempts(batch[0]);
      if attempt.Accepted? then [batch[0]] + Sent(batch[1..], attempts)
      else if attempt.AcceptedMarkFails? || attempt.sent then [batch[0]]
      else []
  }

  /** The batch's rows are pending, each listed once. */
  ghost predicate PendingBatch(rows: seq<OutboxRow>, batch: seq<nat>) {
    && Distinct(batch)
    && forall i | 0 <= i < |batch| :: batch[i] < |rows| && rows[batch[i]].status.PENDING?
  }

  lemma {:induction false} SentInBatch(batch: seq<nat>, attempts: nat -> OutboxPublisher.Attempt, n: nat)
    requires forall i | 0 <= i < |batch| :: batch[i] < n
    ensures forall i | 0 <= i < |Sent(batch, attempts)| :: Sent(batch, attempts)[i] < n
  {
    if batch != [] {
      SentInBatch(batch[1..], attempts, n);
    }
  }

  lemma {:induction false} DrainedSends(p: OutboxPublisher.Publication, batch: seq<nat>, attempts: nat -> OutboxPublisher.Attempt)
    requires forall i | 0 <= i < |batch| :: batch[i] < |p.rows|
    ensures OutboxPublisher.Drained(p, batch, attempts).stream == p.stream + Sent(batch, attempts)
    decreases |batch|
  {
    if batch != [] && attempts(batch[0]).Accepted? {
      var marked := OutboxPublisher.Publication(OutboxPublisher.Marked(p.rows, batch[0]), p.stream + [batch[0]]);
      DrainedSends(marked, batch[1..], attempts);
      assert p.stream + [batch[0]] + Sent(batch[1..], attempts) == p.stream + Sent(batch, attempts);
    }
  }

  /** One row sent and marked. */
  lemma SendAndMark(s: System, row: nat)
    requires ForeignKeys(s.t) && s.inFlight.None? && row < |s.t.outbox| && s.t.outbox[row].status.PENDING?
    ensures Runs(s, [Publish(row)] + [MarkPublished])
    ensures Run(s, [Publish(row)] + [MarkPublished])
         == s.(t := s.t.(outbox := OutboxPublisher.Marked(s.t.outbox, row)),
               queue := s.queue + [s.t.outbox[row].payload.segmentId])
  {
    OneStep(s, Publish(row));
    OneMore(s, [Publish(row)], MarkPublished);
  }

  lemma SendAndFail(s: System, row: nat)
    requires ForeignKeys(s.t) && s.inFlight.None? && row < |s.t.outbox| && s.t.outbox[row].status.PENDING?
    ensures Runs(s, [Publish(row)] + [PublisherFails])
    ensures Run(s, [Publish(row)] + [PublisherFails]) == s.(queue := s.queue + [s.t.outbox[row].payload.segmentId])
  {
    OneStep(s, Publish(row));
    OneMore(s, [Publish(row)], PublisherFails);
  }

  lemma MarkedLeavesRest(rows: seq<OutboxRow>, batch: seq<nat>)
    requires PendingBatch(rows, batch) && batch != []
    ensures PendingBatch(OutboxPublisher.Marked(rows, batch[0]), batch[1..])
  {
    assert forall i | 0 <= i < |batch| - 1 :: batch[1..][i] == batch[i + 1];
  }

  lemma ParentsOneMore(rows: seq<OutboxRow>, queue: seq<SegmentId>, row: nat, rest: seq<nat>)
    requires row < |rows| && forall i | 0 <= i < |rest| :: rest[i] < |rows|
    ensures queue + [rows[row].payload.segmentId] + Parents(OutboxPublisher.Marked(rows, row), rest)
         == queue + Parents(rows, [row] + rest)
  {
  }

  lemma {:induction false} BatchRuns(s: System, stream: seq<nat>, batch: seq<nat>, attempts: nat -> OutboxPublisher.Attempt)
    requires ForeignKeys(s.t) && s.inFlight.None? && PendingBatch(s.t.outbox, batch)
    requires forall i | 0 <= i < |Sent(batch, attempts)| :: Sent(batch, attempts)[i] < |s.t.outbox|
    ensures Runs(s, Sendings(batch, attempts))
    ensures var drained := OutboxPublisher.Drained(OutboxPublisher.Publication(s.t.outbox, stream), batch, attempts);
            Run(s, Sendings(batch, attempts))
            == s.(t := s.t.(outbox := drained.rows), queue := s.queue + Parents(s.t.outbox, Sent(batch, attempts)))
    decreases |batch|
  {
    if batch == [] {
      assert s.queue + Parents(s.t.outbox, []) == s.queue;
    } else if attempts(batch[0]).Accepted? {
      var row, rest := batch[0], batch[1..];
      SendAndMark(s, row);
      var s1 := Run(s, [Publish(row)] + [MarkPublished]);
      MarkedLeavesRest(s.t.outbox, batch);
      SentInBatch(rest, attempts, |s.t.outbox|);
      BatchRuns(s1, stream + [row], rest, attempts);
      RunsInTurn(s, [Publish(row)] + [MarkPublished], Sendings(rest, attempts));
      ParentsOneMore(s.t.outbox, s.queue, row, Sent(rest, attempts));
    } else if attempts(batch[0]).AcceptedMarkFails? || attempts(batch[0]).sent {
      SendAndFail(s, batch[0]);
      assert Parents(s.t.outbox, [batch[0]]) == [s.t.outbox[batch[0]].payload.segmentId];
    } else {
      assert s.queue + Parents(s.t.outbox, []) == s.queue;
    }
  }

  lemma {:induction false} PendingRowsArePending(rows: seq<OutboxRow>, from: nat, take: nat)
    requires from <= |rows|
    ensures PendingBatch(rows, OutboxPublisher.PendingRows(rows, from, take))
    ensures forall i | 0 <= i < |OutboxPublisher.PendingRows(rows, from, take)| ::
              from <= OutboxPublisher.PendingRows(rows, from, take)[i]
    decreases |rows| - from
  {
    if from < |rows| && take > 0 {
      PendingRowsArePending(rows, from + 1, if rows[from].status.PENDING? then take - 1 else take);
    }
  }

  /**
   The publisher: sending and marking the pending rows of a batch, with whatever refusals and
   failures, takes the outbox where `OutboxPublisherService.Tick` takes it, and the queue gains
   the parents of the rows that the broker's stream gains.
   */
  lemma TickRuns(s: System, stream: seq<nat>, attempts: nat -> OutboxPublisher.Attempt)
    requires ForeignKeys(s.t) && s.inFlight.None?
    ensures var batch := OutboxPublisher.PendingRows(s.t.outbox, 0, OutboxPublisher.BATCH_SIZE);
            var after := OutboxPublisher.Ticked(OutboxPublisher.Publication(s.t.outbox, stream), attempts);
            && Runs(s, Sendings(batch, attempts))
            && (forall i | 0 <= i < |Sent(batch, attempts)| :: Sent(batch, attempts)[i] < |s.t.outbox|)
            && after.stream == stream + Sent(batch, attempts)
            && Run(s, Sendings(batch, attempts))
               == s.(t := s.t.(outbox := after.rows), queue := s.queue + Parents(s.t.outbox, Sent(batch, attempts)))
  {
    var batch := OutboxPublisher.PendingRows(s.t.outbox, 0, OutboxPublisher.BATCH_SIZE);
    PendingRowsArePending(s.t.outbox, 0, OutboxPublisher.BATCH_SIZE);
    SentInBatch(batch, attempts, |s.t.outbox|);
    BatchRuns(s, stream, batch, attempts);
    DrainedSends(OutboxPublisher.Publication(s.t.outbox, stream), batch, attempts);
  }
}
