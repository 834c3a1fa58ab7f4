/**
 What the coverage invariant gives: every run that comes to rest ends in the one correct member
 table, except for the segments whose evaluation was dropped and none has taken over since.
 */
module Convergence {
  import opened Wrappers
  import opened SegmentRules
  import opened Evaluator
  import opened Metrics
  import opened Tables
  import opened Graph
  import opened SegmentOrder
  import opened SegmentEvaluation
  import opened Denotation
  import opened CascadeProtocol

  /** Nothing is left to do: nothing owed, buffered, running, uncommitted, pending, queued or being handled. */
  ghost predicate Quiescent(s: System) {
    && s.owed == []
    && s.buffer == {}
    && s.rebuild.Idle?
    && s.refreshing == {}
    && s.passes == map[]
    && (forall row | 0 <= row < |s.t.outbox| :: s.t.outbox[row].status.PUBLISHED?)
    && s.queue == []
    && s.handler.Waiting?
  }

  /** The application after its bootstrap rebuild, the events of that rebuild still to be published. */
  ghost predicate Bootstrapped(s: System, before: TableState, rows: seq<SegmentId>) {
    && ForeignKeys(before) && ListsDynamic(before.segments, rows)
    && References(before.segments) && Acyclic(DynamicGraph(before.segments))
    && (forall e | e in before.dependencies :: IsDynamic(before.segments, e.childId))
    && s == System(AfterRebuild(before, s.metrics, rows), s.metrics, [], {}, Idle, {}, {}, map[], None, [], Waiting)
  }

  lemma {:induction false} EvaluateAllKeepsChildren(t: TableState, metrics: MetricsTable, ids: seq<SegmentId>)
    requires ForeignKeys(t)
    requires forall e | e in t.dependencies :: IsDynamic(t.segments, e.childId)
    ensures forall e | e in AfterEvaluateAll(t, metrics, ids).dependencies :: IsDynamic(t.segments, e.childId)
    decreases |ids|
  {
    if ids != [] && EvaluationFailure(t, ids[0], false).None? {
      EvaluateAllKeepsChildren(AfterEvaluate(t, metrics, ids[0], false), metrics, ids[1..]);
    }
  }

  lemma BootstrapEstablishesInvariant(s: System, before: TableState, rows: seq<SegmentId>)
    requires Bootstrapped(s, before, rows)
    ensures Invariant(s)
  {
    RebuildCorrect(before, s.metrics, rows);
    BatchIsDynamicGraph(before.segments, rows);
    var order := Sorted(rows, before.segments);
    if order.Success? {
      EvaluateAllKeepsChildren(before, s.metrics, order.value);
    }
  }

  /**
   Convergence: whatever happened before, in a reachable state with nothing left to do every
   DYNAMIC segment but the dropped ones agrees with its rule. With none dropped the member table
   is the answer for its rules, its metrics and its STATIC memberships, and that answer is unique.
   */
  lemma RestIsTheAnswer(s: System, before: TableState, rows: seq<SegmentId>, actions: seq<Action>)
    requires Bootstrapped(s, before, rows) && Runs(s, actions) && Quiescent(Run(s, actions))
    ensures var end := Run(s, actions);
            && (forall id | IsDynamic(end.t.segments, id) && id !in end.dropped ::
                  Consistent(end.t.segments, end.metrics, end.t.members, id))
            && (end.dropped == {} ==>
                  && IsAnswer(end.t.segments, end.metrics, end.t.members)
                  && forall m :: IsAnswer(end.t.segments, end.metrics, m) && SameStatics(end.t.segments, m, end.t.members)
                                 ==> m == end.t.members)
  {
    BootstrapEstablishesInvariant(s, before, rows);
    RunKeepsInvariant(s, actions);
    InvariantAtRest(Run(s, actions));
  }

  lemma InvariantAtRest(s: System)
    requires Invariant(s) && Quiescent(s)
    ensures forall id | IsDynamic(s.t.segments, id) && id !in s.dropped :: Consistent(s.t.segments, s.metrics, s.t.members, id)
    ensures s.dropped == {} ==>
              && IsAnswer(s.t.segments, s.metrics, s.t.members)
              && forall m :: IsAnswer(s.t.segments, s.metrics, m) && SameStatics(s.t.segments, m, s.t.members)
                             ==> m == s.t.members
  {
    forall id | IsDynamic(s.t.segments, id) && id !in s.dropped ensures Consistent(s.t.segments, s.metrics, s.t.members, id) {
      assert Safe(s, id);
    }
    forall m | s.dropped == {} && IsAnswer(s.t.segments, s.metrics, m) && SameStatics(s.t.segments, m, s.t.members)
      ensures m == s.t.members
    {
      AnswerUnique(s.t.segments, s.metrics, m, s.t.members);
    }
  }

  /** Failures that leave an evaluation undone: of a mark, of a rebuild, of a request's or the bootstrap's evaluation. */
  predicate Drops(a: Action) {
    a.MarkFails? || a.RebuildFails? || a.RequestFails? || a.AbandonRefresh?
  }

  /** The dropped segments, and those that the cascade consumer has taken over and not finished. */
  function Undone(s: System): set<SegmentId> {
    s.dropped + Unmended(s)
  }

  lemma OnlyDropsDrop(s: System, a: Action)
    requires ForeignKeys(s.t) && Enabled(s, a) && !Drops(a)
    ensures Undone(Apply(s, a)) <= Undone(s)
  {
    if a.Advance? {
      AdvanceEffect(s, a.id);
    }
  }

  lemma DroppedShrinks(s: System, a: Action)
    requires ForeignKeys(s.t) && Enabled(s, a) && !Drops(a) && !a.HandlerFails?
    ensures Apply(s, a).dropped <= s.dropped
  {
  }

  lemma {:induction false} RunDropsNothing(s: System, actions: seq<Action>)
    requires ForeignKeys(s.t) && Runs(s, actions) && forall i | 0 <= i < |actions| :: !Drops(actions[i])
    ensures Undone(Run(s, actions)) <= Undone(s)
    ensures (forall i | 0 <= i < |actions| :: !actions[i].HandlerFails?) ==> Run(s, actions).dropped <= s.dropped
    decreases |actions|
  {
    if actions != [] {
      OnlyDropsDrop(s, actions[0]);
      if !actions[0].HandlerFails? {
        DroppedShrinks(s, actions[0]);
      }
      RunDropsNothing(Apply(s, actions[0]), actions[1..]);
    }
  }

  /**
   What the design promises to survive, it survives: handlers and publishers may fail, messages
   come twice and the whole application restart, and a state at rest still holds the answer.
   */
  lemma RestAfterCrashesIsTheAnswer(s: System, before: TableState, rows: seq<SegmentId>, actions: seq<Action>)
    requires Bootstrapped(s, before, rows) && Runs(s, actions) && Quiescent(Run(s, actions))
    requires forall i | 0 <= i < |actions| :: !Drops(actions[i])
    ensures IsAnswer(Run(s, actions).t.segments, Run(s, actions).metrics, Run(s, actions).t.members)
  {
    RunDropsNothing(s, actions);
    RestIsTheAnswer(s, before, rows, actions);
  }

  lemma First(s: System, a: Action, rest: seq<Action>)
    requires ForeignKeys(s.t) && Enabled(s, a) && Runs(Apply(s, a), rest)
    ensures Runs(s, [a] + rest) && Run(s, [a] + rest) == Run(Apply(s, a), rest)
  {
    assert ([a] + rest)[1..] == rest;
  }

  /** When an answer outlives a change of the metrics: exactly when no rule asks for other members than before. */
  lemma AnswerSurvivesIff(segments: map<SegmentId, Segment>, before: MetricsTable, after: MetricsTable, members: Membership)
    requires IsAnswer(segments, before, members)
    ensures IsAnswer(segments, after, members)
      <==> forall id | IsDynamic(segments, id) ::
             NewMembers(segments[id].rule, after, members) == NewMembers(segments[id].rule, before, members)
  {
    assert forall id | IsDynamic(segments, id) :: Consistent(segments, before, members, id);
    if IsAnswer(segments, after, members) {
      assert forall id | IsDynamic(segments, id) :: Consistent(segments, after, members, id);
    }
  }

  lemma AsksForBuyers(c: CustomerId, count: nat, members: Membership)
    ensures NewMembers(Compare(TxCount30d, Gt, Finite(0.0)), map[c := CustomerMetrics(count, count, 0.0, Finite(0.0))], members)
         == if count > 0 then {c} else {}
  {
    assert CustomerMetrics(count, count, 0.0, Finite(0.0)).Get(TxCount30d) == Finite(count as real);
  }

  /** New data whose rebuild fails after the buffer swap. */
  function FailedRebuild(metrics: MetricsTable, ids: set<CustomerId>): seq<Action> {
    [ChangeData(metrics, ids)] + ([Mark(0)] + ([Flush] + ([RebuildFails] + [])))
  }

  /** A rebuild that fails after the swap is logged and not tried again: the state is at rest, with the old members. */
  lemma FailedRebuildDrops(s: System, metrics: MetricsTable, ids: set<CustomerId>)
    requires ForeignKeys(s.t) && Quiescent(s) && ids != {}
    ensures Runs(s, FailedRebuild(metrics, ids))
    ensures Run(s, FailedRebuild(metrics, ids)) == s.(metrics := metrics, dropped := s.dropped + DynamicIds(s.t.segments))
  {
    var s1 := Apply(s, ChangeData(metrics, ids));
    assert s1.owed == [ids];
    var s2 := Apply(s1, Mark(0));
    assert s2.buffer == ids && s2.owed == [];
    var s3 := Apply(s2, Flush);
    First(s3, RebuildFails, []);
    First(s2, Flush, [RebuildFails] + []);
    First(s1, Mark(0), [Flush] + ([RebuildFails] + []));
    First(s, ChangeData(metrics, ids), [Mark(0)] + ([Flush] + ([RebuildFails] + [])));
  }

  /**
   When a failed rebuild does no harm: from a state at rest with nothing dropped, the members it
   leaves are the answer for the new data if and only if the new data makes no rule ask for other
   members than before.
   */
  lemma FailedRebuildHarmlessIff(s: System, metrics: MetricsTable, ids: set<CustomerId>)
    requires Invariant(s) && Quiescent(s) && s.dropped == {} && ids != {}
    ensures Runs(s, FailedRebuild(metrics, ids))
    ensures IsAnswer(s.t.segments, metrics, Run(s, FailedRebuild(metrics, ids)).t.members)
      <==> forall id | IsDynamic(s.t.segments, id) ::
             NewMembers(s.t.segments[id].rule, metrics, s.t.members) == NewMembers(s.t.segments[id].rule, s.metrics, s.t.members)
  {
    FailedRebuildDrops(s, metrics, ids);
    InvariantAtRest(s);
    AnswerSurvivesIff(s.t.segments, s.metrics, metrics, s.t.members);
  }

  /**
   Time alone: metrics move when the clock does, and nothing marks anyone for it. A transaction
   that was in the 30-day window leaves it, and the table at rest is no longer the answer.
   */
  lemma TimeAloneLeavesStale(id: SegmentId, c: CustomerId, cents: int)
    ensures var segments := map[id := Segment(id, DYNAMIC, Compare(TxCount30d, Gt, Finite(0.0)))];
            var txs := [Transaction(c, cents, 0)];
            && IsAnswer(segments, MetricsAt({c}, txs, 0), map[id := {c}])
            && !IsAnswer(segments, MetricsAt({c}, txs, 31 * DAY), map[id := {c}])
  {
    var rule := Compare(TxCount30d, Gt, Finite(0.0));
    var segments: map<SegmentId, Segment> := map[id := Segment(id, DYNAMIC, rule)];
    var txs := [Transaction(c, cents, 0)];
    forall now ensures NewMembers(rule, MetricsAt({c}, txs, now), map[id := {c}])
                    == if Count(txs, c, Some(now - 30 * DAY)) > 0 then {c} else {}
    {
      assert MetricsAt({c}, txs, now)[c].Get(TxCount30d) == Finite(Count(txs, c, Some(now - 30 * DAY)) as real);
    }
    assert txs[1..] == [] && Count([], c, Some(1 * DAY)) == 0 && Count([], c, Some(-30 * DAY)) == 0;
    assert Counted(txs[0], c, Some(-30 * DAY)) && !Counted(txs[0], c, Some(1 * DAY));
    assert IsDynamic(segments, id);
    assert !Consistent(segments, MetricsAt({c}, txs, 31 * DAY), map[id := {c}], id);
  }

  /**
   Why the dropped ones are excepted. A customer's first transaction is marked, the swap takes the
   mark, the rebuild fails: nothing is left to do, and the segment that asks for the customer does
   not have them.
   */
  lemma FailedRebuildLeavesStale(id: SegmentId, c: CustomerId)
    ensures var rule := Compare(TxCount30d, Gt, Finite(0.0));
            var t := TableState(map[id := Segment(id, DYNAMIC, rule)], map[id := {}], {}, {}, [], 0);
            var s := System(t, map[c := CustomerMetrics(0, 0, 0.0, Finite(0.0))], [], {}, Idle, {}, {}, map[], None, [], Waiting);
            var actions := FailedRebuild(map[c := CustomerMetrics(1, 1, 0.0, Finite(0.0))], {c});
            && Invariant(s) && Runs(s, actions) && Quiescent(Run(s, actions))
            && !Consistent(t.segments, Run(s, actions).metrics, Run(s, actions).t.members, id)
  {
    var rule := Compare(TxCount30d, Gt, Finite(0.0));
    var segments: map<SegmentId, Segment> := map[id := Segment(id, DYNAMIC, rule)];
    var t := TableState(segments, map[id := {}], {}, {}, [], 0);
    var s := System(t, map[c := CustomerMetrics(0, 0, 0.0, Finite(0.0))], [], {}, Idle, {}, {}, map[], None, [], Waiting);
    AsksForBuyers(c, 0, t.members);
    AsksForBuyers(c, 1, t.members);
    AloneIsAcyclic(segments, id);
    FailedRebuildDrops(s, map[c := CustomerMetrics(1, 1, 0.0, Finite(0.0))], {c});
  }

  lemma AloneIsAcyclic(segments: map<SegmentId, Segment>, id: SegmentId)
    requires segments.Keys == {id} && id !in Refs(segments[id].rule)
    ensures Acyclic(DynamicGraph(segments))
  {
    var g := DynamicGraph(segments);
    forall c ensures !IsCycle(g, c) {
      assert |c| > 1 && c[0] in g ==> c[1] !in g[c[0]];
    }
  }

  /** Steps that leave the data and the rules alone. */
  predicate Frozen(a: Action) {
    !a.ChangeData? && !a.CreateSegment? && !a.SaveRule?
  }

  lemma {:induction false} FrozenRunKeeps(s: System, actions: seq<Action>)
    requires Invariant(s) && Runs(s, actions) && forall i | 0 <= i < |actions| :: Frozen(actions[i])
    ensures Run(s, actions).t.segments == s.t.segments && Run(s, actions).metrics == s.metrics
    ensures SameStatics(s.t.segments, s.t.members, Run(s, actions).t.members)
    decreases |actions|
  {
    if actions != [] {
      FrozenStepKeeps(s, actions[0]);
      StepKeepsInvariant(s, actions[0]);
      FrozenRunKeeps(Apply(s, actions[0]), actions[1..]);
    }
  }

  lemma CommitKeepsStatics(s: System, id: SegmentId)
    requires WellFormed(s) && Enabled(s, Commit(id))
    ensures SameStatics(s.t.segments, s.t.members, Finish(s, id).t.members)
  {
    assert PassWellFormed(s, id);
  }

  lemma OnlyCommitsChangeMembers(s: System, a: Action)
    requires ForeignKeys(s.t) && Enabled(s, a) && Frozen(a) && !a.Commit?
    ensures Apply(s, a).t.members == s.t.members && Apply(s, a).t.segments == s.t.segments
  {
    if a.Advance? {
      AdvanceEffect(s, a.id);
    } else {
      TablesFrame(s, a);
    }
  }

  lemma FrozenKeepsMetrics(s: System, a: Action)
    requires ForeignKeys(s.t) && Enabled(s, a) && Frozen(a)
    ensures Apply(s, a).metrics == s.metrics
  {
  }

  lemma FrozenStepKeeps(s: System, a: Action)
    requires WellFormed(s) && Enabled(s, a) && Frozen(a)
    ensures Apply(s, a).t.segments == s.t.segments && Apply(s, a).metrics == s.metrics
    ensures SameStatics(s.t.segments, s.t.members, Apply(s, a).t.members)
  {
    FrozenKeepsMetrics(s, a);
    if a.Commit? {
      CommitKeepsStatics(s, a.id);
    } else {
      OnlyCommitsChangeMembers(s, a);
    }
  }

  /**
   Confluence: with data and rules frozen, two runs from the same state that both come to
   rest with nothing dropped end with the same member table, whatever their interleavings, duplicates and crashes.
   */
  lemma Confluence(s: System, left: seq<Action>, right: seq<Action>)
    requires Invariant(s) && Runs(s, left) && Runs(s, right)
    requires forall i | 0 <= i < |left| :: Frozen(left[i])
    requires forall i | 0 <= i < |right| :: Frozen(right[i])
    requires Quiescent(Run(s, left)) && Quiescent(Run(s, right))
    requires Run(s, left).dropped == {} && Run(s, right).dropped == {}
    ensures Run(s, left).t.members == Run(s, right).t.members
  {
    RunKeepsInvariant(s, left);
    RunKeepsInvariant(s, right);
    FrozenRunKeeps(s, left);
    FrozenRunKeeps(s, right);
    InvariantAtRest(Run(s, left));
    InvariantAtRest(Run(s, right));
  }

  /** Without acyclicity there is no one answer: two segments that refer to each other may both be empty or both full. */
  lemma CyclesHaveSeveralAnswers(c: CustomerId, metrics: MetricsTable)
    requires c in metrics
    ensures var segments := map["a" := Segment("a", DYNAMIC, InSegment("b")), "b" := Segment("b", DYNAMIC, InSegment("a"))];
            && !Acyclic(DynamicGraph(segments))
            && IsAnswer(segments, metrics, map["a" := {}, "b" := {}])
            && IsAnswer(segments, metrics, map["a" := {c}, "b" := {c}])
  {
    var segments := map["a" := Segment("a", DYNAMIC, InSegment("b")), "b" := Segment("b", DYNAMIC, InSegment("a"))];
    assert "a" != "b" by { assert "a"[0] == 'a' && "b"[0] == 'b'; }
    assert DynamicIds(segments) == {"a", "b"};
    var g := DynamicGraph(segments);
    assert g["a"] == {"b"} && g["b"] == {"a"};
    assert IsCycle(g, ["a", "b", "a"]);
    var empty, full: Membership := map["a" := {}, "b" := {}], map["a" := {c}, "b" := {c}];
    forall id | id in segments
      ensures Consistent(segments, metrics, empty, id) && Consistent(segments, metrics, full, id)
    {
      assert NewMembers(segments[id].rule, metrics, empty) == {};
      assert NewMembers(segments[id].rule, metrics, full) == {c};
    }
  }
}
