/**
 The cascade stops. Without new data, rule changes, requests or faults, every step lowers a
 weight that counts, over the reference graph, the evaluations and events still to come, and
 what the edges that a saved rule no longer asks for may still lead to.
 */
module CascadeTermination {
  import opened Wrappers
  import opened SegmentRules
  import opened Tables
  import opened Dependency
  import opened Graph
  import opened Denotation
  import opened CascadeConsumer
  import opened CascadeProtocol
  import opened Convergence

  /** The DYNAMIC segments that refer to `p`. */
  function Children(segments: map<SegmentId, Segment>, p: SegmentId): set<SegmentId> {
    set id | id in DynamicIds(segments) && p in Refs(segments[id].rule)
  }

  /**
   The cost of evaluating each member of `s` from position `k` of a topological order on: the six
   steps of the evaluation, the event it may cause (publish, mark, deliver, acknowledge), and the
   cost of the children that event leads to.
   */
  function Cost(segments: map<SegmentId, Segment>, order: seq<SegmentId>, s: set<SegmentId>, k: nat): nat
    requires k <= |order|
    decreases |order| - k
  {
    if k == |order| then 0
    else
      (if order[k] in s then 10 + Cost(segments, order, Children(segments, order[k]), k + 1) else 0)
      + Cost(segments, order, s, k + 1)
  }

  lemma {:induction false} CostSkips(segments: map<SegmentId, Segment>, order: seq<SegmentId>, s: set<SegmentId>, k: nat, k': nat)
    requires k <= k' <= |order|
    requires forall j | k <= j < k' :: order[j] !in s
    ensures Cost(segments, order, s, k) == Cost(segments, order, s, k')
    decreases k' - k
  {
    if k < k' {
      CostSkips(segments, order, s, k + 1, k');
    }
  }

  lemma ChildrenLater(segments: map<SegmentId, Segment>, order: seq<SegmentId>, k: nat)
    requires IsTopological(DynamicGraph(segments), order) && k < |order|
    ensures Cost(segments, order, Children(segments, order[k]), k + 1) == Cost(segments, order, Children(segments, order[k]), 0)
  {
    forall j | 0 <= j < k + 1 ensures order[j] !in Children(segments, order[k]) {
      ParentsEarlier(segments, order, k, order[k]);
      if order[j] in Children(segments, order[k]) {
        ParentsEarlier(segments, order, j, order[k]);
        assert false;
      }
    }
    CostSkips(segments, order, Children(segments, order[k]), 0, k + 1);
  }

  lemma {:induction false} CostWithout(segments: map<SegmentId, Segment>, order: seq<SegmentId>, s: set<SegmentId>,
                                       id: SegmentId, at: nat, k: nat)
    requires IsTopological(DynamicGraph(segments), order)
    requires k <= |order| && at < |order| && order[at] == id && id in s
    ensures Cost(segments, order, s, k)
         == Cost(segments, order, s - {id}, k)
            + if k <= at then 10 + Cost(segments, order, Children(segments, id), 0) else 0
    decreases |order| - k
  {
    if k < |order| {
      CostWithout(segments, order, s, id, at, k + 1);
      if k == at {
        ChildrenLater(segments, order, k);
      }
    }
  }

  /** Taking one DYNAMIC segment off the list saves its evaluation and all it may lead to. */
  lemma CostOfOne(segments: map<SegmentId, Segment>, order: seq<SegmentId>, s: set<SegmentId>, id: SegmentId)
    requires IsTopological(DynamicGraph(segments), order) && id in s && IsDynamic(segments, id)
    ensures Cost(segments, order, s, 0)
         == Cost(segments, order, s - {id}, 0) + 10 + Cost(segments, order, Children(segments, id), 0)
  {
    assert id in Elements(order);
    var at :| 0 <= at < |order| && order[at] == id;
    CostWithout(segments, order, s, id, at, 0);
  }

  lemma {:induction false} CostMonotone(segments: map<SegmentId, Segment>, order: seq<SegmentId>,
                                        a: set<SegmentId>, b: set<SegmentId>, k: nat)
    requires k <= |order| && forall j | k <= j < |order| && order[j] in a :: order[j] in b
    ensures Cost(segments, order, a, k) <= Cost(segments, order, b, k)
    decreases |order| - k
  {
    if k < |order| {
      CostMonotone(segments, order, a, b, k + 1);
    }
  }

  /** No list costs more than that of all DYNAMIC segments. */
  lemma CostAtMostAll(segments: map<SegmentId, Segment>, order: seq<SegmentId>, a: set<SegmentId>)
    requires IsTopological(DynamicGraph(segments), order)
    ensures Cost(segments, order, a, 0) <= Cost(segments, order, DynamicIds(segments), 0)
  {
    assert forall j | 0 <= j < |order| :: order[j] in Elements(order);
    CostMonotone(segments, order, a, DynamicIds(segments), 0);
  }

  /** `n` times `x`, as a sum. */
  function Times(n: nat, x: nat): nat {
    if n == 0 then 0 else Times(n - 1, x) + x
  }

  lemma {:induction false} TimesAdds(n: nat, m: nat, x: nat)
    ensures Times(n + m, x) == Times(n, x) + Times(m, x)
  {
    if m > 0 {
      TimesAdds(n, m - 1, x);
    }
  }

  lemma TimesMonotone(few: nat, many: nat, x: nat)
    requires few <= many
    ensures Times(few, x) <= Times(many, x)
  {
    TimesAdds(few, many - few, x);
  }

  /** The most that one more DYNAMIC segment can add to a list. */
  function MostForOne(segments: map<SegmentId, Segment>, order: seq<SegmentId>): nat {
    10 + Cost(segments, order, DynamicIds(segments), 0)
  }

  /** A list costs at most what its part in `known` costs, and the most for each segment outside. */
  lemma {:induction false} CostOutside(segments: map<SegmentId, Segment>, order: seq<SegmentId>,
                                       a: set<SegmentId>, known: set<SegmentId>)
    requires IsTopological(DynamicGraph(segments), order) && a <= DynamicIds(segments)
    ensures Cost(segments, order, a, 0) <= Cost(segments, order, known, 0) + Times(|a - known|, MostForOne(segments, order))
    decreases |a - known|
  {
    if a - known == {} {
      CostMonotone(segments, order, a, known, 0);
    } else {
      var id :| id in a - known;
      var rest := a - {id};
      assert rest - known == a - known - {id};
      CostOutside(segments, order, rest, known);
      CostOfOne(segments, order, a, id);
      CostAtMostAll(segments, order, Children(segments, id));
    }
  }

  /** What an event of `p` still costs once it is in the queue. */
  function EventCost(segments: map<SegmentId, Segment>, order: seq<SegmentId>, p: SegmentId): nat {
    2 + Cost(segments, order, Children(segments, p), 0)
  }

  function RowCost(s: System, order: seq<SegmentId>, row: nat): nat
    requires row < |s.t.outbox|
  {
    if s.t.outbox[row].status.PUBLISHED? then 0
    else if s.inFlight == Some(row) then 1
    else 2 + EventCost(s.t.segments, order, s.t.outbox[row].payload.segmentId)
  }

  function OutboxCost(s: System, order: seq<SegmentId>, n: nat): nat
    requires n <= |s.t.outbox|
  {
    if n == 0 then 0 else OutboxCost(s, order, n - 1) + RowCost(s, order, n - 1)
  }

  function QueueCost(segments: map<SegmentId, Segment>, order: seq<SegmentId>, queue: seq<SegmentId>): nat {
    if queue == [] then 0
    else QueueCost(segments, order, queue[..|queue| - 1]) + EventCost(segments, order, queue[|queue| - 1])
  }

  /** The steps still ahead of an open evaluation, with those of the event it may cause. */
  function StepsLeft(stage: Stage): nat {
    match stage
    case Loaded(_) => 9
    case Linked(_) => 8
    case Measured(_, _) => 7
    case Asked(_, _) => 6
    case Compared(_) => 5
  }

  function PassCost(segments: map<SegmentId, Segment>, passes: map<SegmentId, Pass>, order: seq<SegmentId>, id: SegmentId): nat {
    if id in passes then StepsLeft(passes[id].stage) + Cost(segments, order, Children(segments, id), 0) else 0
  }

  function PassesCost(segments: map<SegmentId, Segment>, passes: map<SegmentId, Pass>, order: seq<SegmentId>, k: nat): nat
    requires k <= |order|
    decreases |order| - k
  {
    if k == |order| then 0
    else PassCost(segments, passes, order, order[k]) + PassesCost(segments, passes, order, k + 1)
  }

  /** The handler's children whose evaluation has not begun. */
  function NotBegun(handler: Handler, passes: map<SegmentId, Pass>): set<SegmentId> {
    if handler.Waiting? then {} else set id | id in handler.todo && !(id in passes && passes[id].owner.ByHandler?)
  }

  ghost function HandlerCost(s: System, order: seq<SegmentId>): nat {
    if s.handler.Waiting? then 0 else 1 + Cost(s.t.segments, order, NotBegun(s.handler, s.passes), 0)
  }

  function FullCost(s: System, order: seq<SegmentId>): nat {
    Cost(s.t.segments, order, DynamicIds(s.t.segments), 0)
  }

  function RebuildCost(s: System, order: seq<SegmentId>): nat {
    match s.rebuild
    case Idle => 0
    case Swapped => 2 + FullCost(s, order)
    case Running(todo) => 1 + Cost(s.t.segments, order, Elements(todo), 0)
  }

  function BufferCost(s: System, order: seq<SegmentId>): nat {
    Times(|s.owed|, 4 + FullCost(s, order)) + if s.buffer == {} then 0 else 3 + FullCost(s, order)
  }

  ghost function Potential(s: System, order: seq<SegmentId>): nat {
    BufferCost(s, order) + RebuildCost(s, order) + HandlerCost(s, order)
    + PassesCost(s.t.segments, s.passes, order, 0)
    + QueueCost(s.t.segments, order, s.queue) + OutboxCost(s, order, |s.t.outbox|)
  }

  /** Steps the system takes by itself when nothing fails. */
  predicate Internal(a: Action) {
    a.Mark? || a.Flush? || a.StartRebuild? || a.RebuildOne? || a.EndRebuild? || a.Advance? || a.Commit?
    || a.Publish? || a.MarkPublished? || a.Deliver? || a.HandleOne? || a.Ack? || a.Refresh?
  }

  /** The segment has an edge from a parent that its rule no longer asks for, or an open evaluation is about to write one. */
  ghost predicate IsStale(s: System, id: SegmentId)
    requires id in s.t.segments
  {
    var parents := Refs(s.t.segments[id].rule);
    || !(Incoming(s.t.dependencies, id) <= parents)
    || (id in s.passes && s.passes[id].stage.Loaded? && !(Refs(s.passes[id].stage.segment.rule) <= parents))
  }

  ghost function Stale(s: System): set<SegmentId> {
    set id | id in DynamicIds(s.t.segments) && IsStale(s, id)
  }

  /** The handler's children that its evaluation will still free of stale edges. */
  ghost predicate WillRelink(s: System, id: SegmentId)
    requires id in s.t.segments
  {
    && s.handler.Handling? && id in s.handler.todo
    && (HandlerPass(s, id) ==>
          s.passes[id].stage.Loaded? && Refs(s.passes[id].stage.segment.rule) <= Refs(s.t.segments[id].rule))
  }

  /** The segments that an event of a former parent can still bring into a handler's list. */
  ghost function Misled(s: System): set<SegmentId> {
    set id | id in Stale(s) && !WillRelink(s, id)
  }

  /** Refreshes still owed and segments that can still be misled, each at the most it may cost. */
  function Reserve(segments: map<SegmentId, Segment>, order: seq<SegmentId>,
                   refreshing: set<SegmentId>, misled: set<SegmentId>): nat
  {
    Times(|refreshing| + |misled|, MostForOne(segments, order))
  }

  ghost function Weight(s: System, order: seq<SegmentId>): nat {
    Potential(s, order) + Reserve(s.t.segments, order, s.refreshing, Misled(s))
  }

  lemma {:induction false} OutboxUnchanged(s: System, s': System, order: seq<SegmentId>, n: nat)
    requires n <= |s.t.outbox| && n <= |s'.t.outbox|
    requires forall row | 0 <= row < n :: RowCost(s, order, row) == RowCost(s', order, row)
    ensures OutboxCost(s, order, n) == OutboxCost(s', order, n)
  {
    if n > 0 {
      OutboxUnchanged(s, s', order, n - 1);
    }
  }

  lemma {:induction false} OutboxOneRow(s: System, s': System, order: seq<SegmentId>, at: nat, n: nat)
    requires at < n <= |s.t.outbox| && n <= |s'.t.outbox|
    requires forall row | 0 <= row < n && row != at :: RowCost(s, order, row) == RowCost(s', order, row)
    ensures OutboxCost(s', order, n) - OutboxCost(s, order, n) == RowCost(s', order, at) - RowCost(s, order, at)
  {
    if n - 1 == at {
      OutboxUnchanged(s, s', order, n - 1);
    } else {
      OutboxOneRow(s, s', order, at, n - 1);
    }
  }

  lemma {:induction false} QueueWithout(segments: map<SegmentId, Segment>, order: seq<SegmentId>, queue: seq<SegmentId>, k: nat)
    requires k < |queue|
    ensures QueueCost(segments, order, queue)
         == QueueCost(segments, order, queue[..k] + queue[k + 1..]) + EventCost(segments, order, queue[k])
  {
    var last := |queue| - 1;
    if k == last {
      assert queue[..k] + queue[k + 1..] == queue[..last];
    } else {
      QueueWithout(segments, order, queue[..last], k);
      var without := queue[..k] + queue[k + 1..];
      assert without[..last - 1] == queue[..last][..k] + queue[..last][k + 1..];
    }
  }

  lemma {:induction false} PassesUnchanged(segments: map<SegmentId, Segment>, passes: map<SegmentId, Pass>,
                                           passes': map<SegmentId, Pass>, order: seq<SegmentId>, k: nat)
    requires k <= |order|
    requires forall j | k <= j < |order| ::
               PassCost(segments, passes, order, order[j]) == PassCost(segments, passes', order, order[j])
    ensures PassesCost(segments, passes, order, k) == PassesCost(segments, passes', order, k)
    decreases |order| - k
  {
    if k < |order| {
      PassesUnchanged(segments, passes, passes', order, k + 1);
    }
  }

  lemma {:induction false} PassesOneChange(segments: map<SegmentId, Segment>, passes: map<SegmentId, Pass>,
                                           passes': map<SegmentId, Pass>, order: seq<SegmentId>, at: nat, k: nat)
    requires k <= at < |order| && Distinct(order)
    requires forall id | id != order[at] :: PassCost(segments, passes, order, id) == PassCost(segments, passes', order, id)
    ensures PassesCost(segments, passes, order, k) + PassCost(segments, passes', order, order[at])
         == PassesCost(segments, passes', order, k) + PassCost(segments, passes, order, order[at])
    decreases |order| - k
  {
    if k == at {
      PassesUnchanged(segments, passes, passes', order, k + 1);
    } else {
      PassesOneChange(segments, passes, passes', order, at, k + 1);
    }
  }

  /** Only the evaluation of `id` differs. */
  ghost predicate DifferAt(passes: map<SegmentId, Pass>, passes': map<SegmentId, Pass>, id: SegmentId) {
    forall other | other != id :: (other in passes <==> other in passes') && (other in passes ==> passes[other] == passes'[other])
  }

  lemma OnePassChanges(segments: map<SegmentId, Segment>, passes: map<SegmentId, Pass>, passes': map<SegmentId, Pass>,
                       order: seq<SegmentId>, id: SegmentId)
    requires IsTopological(DynamicGraph(segments), order) && IsDynamic(segments, id) && DifferAt(passes, passes', id)
    ensures PassesCost(segments, passes, order, 0) + PassCost(segments, passes', order, id)
         == PassesCost(segments, passes', order, 0) + PassCost(segments, passes, order, id)
  {
    assert id in Elements(order);
    var at :| 0 <= at < |order| && order[at] == id;
    PassesOneChange(segments, passes, passes', order, at, 0);
  }

  lemma DistinctTail(todo: seq<SegmentId>)
    requires Distinct(todo) && todo != []
    ensures todo[0] in Elements(todo) && Elements(todo) - {todo[0]} == Elements(todo[1..])
  {
  }

  /** Starting an evaluation adds its cost but for the step of starting it. */
  lemma StartCost(s: System, s': System, order: seq<SegmentId>, id: SegmentId, owner: Owner)
    requires WellFormed(s) && HasStarted(s, s', id, owner) && IsTopological(DynamicGraph(s.t.segments), order)
    ensures PassesCost(s'.t.segments, s'.passes, order, 0)
         == PassesCost(s.t.segments, s.passes, order, 0) + 9 + Cost(s.t.segments, order, Children(s.t.segments, id), 0)
    ensures OutboxCost(s', order, |s'.t.outbox|) == OutboxCost(s, order, |s.t.outbox|)
  {
    OnePassChanges(s.t.segments, s.passes, s'.passes, order, id);
    OutboxUnchanged(s, s', order, |s.t.outbox|);
  }

  lemma StartedBegins(s: System, s': System, id: SegmentId, owner: Owner)
    requires HasStarted(s, s', id, owner)
    ensures NotBegun(s'.handler, s'.passes)
         == if owner.ByHandler? then NotBegun(s.handler, s.passes) - {id} else NotBegun(s.handler, s.passes)
    ensures owner.ByHandler? ==> id in NotBegun(s.handler, s.passes)
  {
  }

  lemma RebuildOneLowers(s: System, order: seq<SegmentId>)
    requires WellFormed(s) && Enabled(s, RebuildOne) && IsTopological(DynamicGraph(s.t.segments), order)
    ensures Potential(Apply(s, RebuildOne), order) < Potential(s, order)
  {
    var todo, s' := s.rebuild.todo, Apply(s, RebuildOne);
    StartEffect(s, RebuildOne);
    StartedBegins(s, s', todo[0], ByRebuild);
    StartCost(s, s', order, todo[0], ByRebuild);
    DistinctTail(todo);
    CostOfOne(s.t.segments, order, Elements(todo), todo[0]);
  }

  lemma HandleOneLowers(s: System, order: seq<SegmentId>, child: SegmentId)
    requires WellFormed(s) && Enabled(s, HandleOne(child)) && IsTopological(DynamicGraph(s.t.segments), order)
    ensures Potential(Apply(s, HandleOne(child)), order) < Potential(s, order)
  {
    StartEffect(s, HandleOne(child));
    StartedBegins(s, Apply(s, HandleOne(child)), child, ByHandler);
    StartCost(s, Apply(s, HandleOne(child)), order, child, ByHandler);
    CostOfOne(s.t.segments, order, NotBegun(s.handler, s.passes), child);
  }

  /** Writing the edges does not fail, so each step of an evaluation leaves one fewer. */
  lemma FurtherGoesOn(s: System, id: SegmentId)
    requires WellFormed(s) && Enabled(s, Advance(id))
    ensures Further(s, id).passes == s.passes[id := s.passes[id].(stage := NextStage(s, id, s.passes[id].stage))]
  {
    assert PassWellFormed(s, id);
  }

  lemma AdvancePaysOff(s: System, order: seq<SegmentId>, id: SegmentId)
    requires WellFormed(s) && Enabled(s, Advance(id)) && IsTopological(DynamicGraph(s.t.segments), order)
    ensures PassesCost(s.t.segments, Further(s, id).passes, order, 0) + 1 == PassesCost(s.t.segments, s.passes, order, 0)
  {
    FurtherGoesOn(s, id);
    assert PassWellFormed(s, id);
    OnePassChanges(s.t.segments, s.passes, Further(s, id).passes, order, id);
  }

  lemma AdvanceBeginsNothing(s: System, id: SegmentId)
    requires WellFormed(s) && Enabled(s, Advance(id))
    ensures NotBegun(s.handler, Further(s, id).passes) == NotBegun(s.handler, s.passes)
  {
    FurtherGoesOn(s, id);
  }

  lemma AdvanceLowers(s: System, order: seq<SegmentId>, id: SegmentId)
    requires WellFormed(s) && Enabled(s, Advance(id)) && IsTopological(DynamicGraph(s.t.segments), order)
    ensures Potential(Apply(s, Advance(id)), order) < Potential(s, order)
  {
    AdvanceEffect(s, id);
    ScheduleCostsTheSame(s, Apply(s, Advance(id)), order);
    AdvancePaysOff(s, order, id);
    AdvanceBeginsNothing(s, id);
    OutboxUnchanged(s, Apply(s, Advance(id)), order, |s.t.outbox|);
  }

  /** A commit costs at most the one event it may leave in the outbox. */
  lemma CommitCost(s: System, order: seq<SegmentId>, id: SegmentId)
    requires WellFormed(s) && Enabled(s, Commit(id))
    ensures OutboxCost(Finish(s, id), order, |Finish(s, id).t.outbox|)
         <= OutboxCost(s, order, |s.t.outbox|) + 4 + Cost(s.t.segments, order, Children(s.t.segments, id), 0)
  {
    assert PassWellFormed(s, id);
    var s' := Finish(s, id);
    OutboxUnchanged(s, s', order, |s.t.outbox|);
    assert |s'.t.outbox| == |s.t.outbox| || |s'.t.outbox| == |s.t.outbox| + 1;
  }

  lemma CommitPaysOff(s: System, order: seq<SegmentId>, id: SegmentId)
    requires WellFormed(s) && Enabled(s, Commit(id)) && IsTopological(DynamicGraph(s.t.segments), order)
    ensures var s' := Finish(s, id);
            PassesCost(s'.t.segments, s'.passes, order, 0) + 5 + Cost(s.t.segments, order, Children(s.t.segments, id), 0)
            == PassesCost(s.t.segments, s.passes, order, 0)
  {
    assert PassWellFormed(s, id);
    OnePassChanges(s.t.segments, s.passes, s.passes - {id}, order, id);
  }

  lemma CommitBeginsNothing(s: System, id: SegmentId)
    requires WellFormed(s) && Enabled(s, Commit(id))
    ensures var s' := Finish(s, id);
            && NotBegun(s'.handler, s'.passes) == NotBegun(s.handler, s.passes)
            && s'.handler.Waiting? == s.handler.Waiting?
  {
    assert PassWellFormed(s, id);
  }

  lemma ScheduleCostsTheSame(s: System, s': System, order: seq<SegmentId>)
    requires s'.t.segments == s.t.segments && s'.owed == s.owed && s'.buffer == s.buffer && s'.rebuild == s.rebuild
    ensures BufferCost(s', order) == BufferCost(s, order) && RebuildCost(s', order) == RebuildCost(s, order)
  {
  }

  lemma CommitLowers(s: System, order: seq<SegmentId>, id: SegmentId)
    requires WellFormed(s) && Enabled(s, Commit(id)) && IsTopological(DynamicGraph(s.t.segments), order)
    ensures Potential(Apply(s, Commit(id)), order) < Potential(s, order)
  {
    ScheduleCostsTheSame(s, Finish(s, id), order);
    CommitCost(s, order, id);
    CommitPaysOff(s, order, id);
    CommitBeginsNothing(s, id);
  }

  lemma PublishLowers(s: System, order: seq<SegmentId>, row: nat)
    requires WellFormed(s) && Enabled(s, Publish(row))
    ensures Potential(Apply(s, Publish(row)), order) < Potential(s, order)
  {
    OutboxOneRow(s, Apply(s, Publish(row)), order, row, |s.t.outbox|);
  }

  lemma MarkPublishedLowers(s: System, order: seq<SegmentId>)
    requires WellFormed(s) && Enabled(s, MarkPublished)
    ensures Potential(Apply(s, MarkPublished), order) < Potential(s, order)
  {
    OutboxOneRow(s, Apply(s, MarkPublished), order, s.inFlight.value, |s.t.outbox|);
  }

  lemma MarkLowers(s: System, order: seq<SegmentId>, k: nat)
    requires WellFormed(s) && Enabled(s, Mark(k))
    ensures Potential(Apply(s, Mark(k)), order) < Potential(s, order)
  {
    OutboxUnchanged(s, Apply(s, Mark(k)), order, |s.t.outbox|);
  }

  lemma RebuildStepLowers(s: System, order: seq<SegmentId>, a: Action)
    requires WellFormed(s) && Enabled(s, a) && (a.Flush? || a.StartRebuild? || a.EndRebuild?)
    ensures Potential(Apply(s, a), order) < Potential(s, order)
  {
    OutboxUnchanged(s, Apply(s, a), order, |s.t.outbox|);
    if a.StartRebuild? {
      StartRebuildOrder(s, a.rows);
    }
  }

  lemma AckLowers(s: System, order: seq<SegmentId>)
    requires Invariant(s) && Enabled(s, Ack)
    ensures Potential(Apply(s, Ack), order) < Potential(s, order)
  {
    OutboxUnchanged(s, Apply(s, Ack), order, |s.t.outbox|);
  }

  /** A refresh may cost at most the one evaluation it starts. */
  lemma RefreshCost(s: System, order: seq<SegmentId>, id: SegmentId)
    requires WellFormed(s) && Enabled(s, Refresh(id)) && IsTopological(DynamicGraph(s.t.segments), order)
    ensures Potential(Apply(s, Refresh(id)), order) < Potential(s, order) + MostForOne(s.t.segments, order)
  {
    StartEffect(s, Refresh(id));
    StartedBegins(s, Apply(s, Refresh(id)), id, ByRequest);
    StartCost(s, Apply(s, Refresh(id)), order, id, ByRequest);
    CostAtMostAll(s.t.segments, order, Children(s.t.segments, id));
  }

  /** A delivery hands over the children of the event's segment, and others only along stale edges. */
  lemma DeliveredAlongEdges(s: System, p: SegmentId)
    requires WellFormed(s)
    ensures Dependents(s.t.dependencies, p) <= DynamicIds(s.t.segments)
    ensures Dependents(s.t.dependencies, p) - Children(s.t.segments, p) <= Stale(s)
  {
    forall id | id in Dependents(s.t.dependencies, p)
      ensures IsDynamic(s.t.segments, id) && (id in Children(s.t.segments, p) || id in Stale(s))
    {
      assert Edge(p, id) in s.t.dependencies;
      assert p in Incoming(s.t.dependencies, id);
    }
  }

  lemma DeliverCost(s: System, order: seq<SegmentId>, k: nat)
    requires Invariant(s) && Enabled(s, Deliver(k))
    ensures var segments, p := s.t.segments, s.queue[k];
            Potential(Apply(s, Deliver(k)), order) + 1 + Cost(segments, order, Children(segments, p), 0)
            == Potential(s, order) + Cost(segments, order, Dependents(s.t.dependencies, p), 0)
  {
    NoHandlerPass(s);
    assert NotBegun(Apply(s, Deliver(k)).handler, s.passes) == Dependents(s.t.dependencies, s.queue[k]);
    OutboxUnchanged(s, Apply(s, Deliver(k)), order, |s.t.outbox|);
    QueueWithout(s.t.segments, order, s.queue, k);
  }

  lemma SmallerSet<T>(a: set<T>, b: set<T>)
    requires a <= b
    ensures |a| + |b - a| == |b|
  {
    assert b == a + (b - a);
  }

  lemma TimesSpent(n: nat, before: set<SegmentId>, after: set<SegmentId>, spent: set<SegmentId>, x: nat)
    requires spent <= before && after <= before - spent
    ensures Times(n + |after|, x) + Times(|spent|, x) <= Times(n + |before|, x)
  {
    SmallerSet(spent, before);
    SmallerSet(after, before - spent);
    TimesAdds(n + |after|, |spent|, x);
    TimesMonotone(n + |after| + |spent|, n + |before|, x);
  }

  /** With the `spent` taken out of the misled, each at its most, the reserve still pays for the rest. */
  lemma Spends(segments: map<SegmentId, Segment>, order: seq<SegmentId>, refreshing: set<SegmentId>,
               before: set<SegmentId>, after: set<SegmentId>, spent: set<SegmentId>)
    requires spent <= before && after <= before - spent
    ensures Reserve(segments, order, refreshing, after) + Times(|spent|, MostForOne(segments, order))
         <= Reserve(segments, order, refreshing, before)
  {
    TimesSpent(|refreshing|, before, after, spent, MostForOne(segments, order));
  }

  /** A delivery takes the children along stale edges out of the misled. */
  lemma DeliverMisleads(s: System, k: nat)
    requires WellFormed(s) && Enabled(s, Deliver(k))
    ensures var wrong := Dependents(s.t.dependencies, s.queue[k]) - Children(s.t.segments, s.queue[k]);
            wrong <= Misled(s) && Misled(Apply(s, Deliver(k))) <= Misled(s) - wrong
  {
    NoHandlerPass(s);
    DeliveredAlongEdges(s, s.queue[k]);
  }

  lemma DeliverLowers(s: System, order: seq<SegmentId>, k: nat)
    requires Invariant(s) && Enabled(s, Deliver(k)) && IsTopological(DynamicGraph(s.t.segments), order)
    ensures Weight(Apply(s, Deliver(k)), order) < Weight(s, order)
  {
    var p := s.queue[k];
    DeliverCost(s, order, k);
    DeliveredAlongEdges(s, p);
    CostOutside(s.t.segments, order, Dependents(s.t.dependencies, p), Children(s.t.segments, p));
    DeliverMisleads(s, k);
    Spends(s.t.segments, order, s.refreshing, Misled(s), Misled(Apply(s, Deliver(k))),
           Dependents(s.t.dependencies, p) - Children(s.t.segments, p));
  }

  /** Starting an evaluation misleads nobody new: it has loaded the stored rule. */
  lemma StartMisleadsNobody(s: System, s': System, id: SegmentId, owner: Owner)
    requires HasStarted(s, s', id, owner)
    ensures Misled(s') <= Misled(s)
  {
    forall other | other in Stale(s') ensures other in Stale(s) && (WillRelink(s, other) ==> WillRelink(s', other)) {
    }
  }

  /** Writing the edges frees the segment of stale ones, unless it was about to write them. */
  lemma AdvanceMisleadsNobody(s: System, id: SegmentId)
    requires WellFormed(s) && Enabled(s, Advance(id))
    ensures Misled(Apply(s, Advance(id))) <= Misled(s)
  {
    var s' := Apply(s, Advance(id));
    AdvanceEffect(s, id);
    FurtherGoesOn(s, id);
    assert PassWellFormed(s, id);
    forall other | other in Misled(s') ensures other in Misled(s) {
      if other != id {
        assert Incoming(s'.t.dependencies, other) == Incoming(s.t.dependencies, other);
      }
    }
  }

  lemma CommitMisleadsNobody(s: System, id: SegmentId)
    requires WellFormed(s) && Enabled(s, Commit(id))
    ensures Misled(Apply(s, Commit(id))) <= Misled(s)
  {
    var s' := Finish(s, id);
    forall other | other in Stale(s') ensures other in Stale(s) && (WillRelink(s, other) ==> WillRelink(s', other)) {
    }
  }

  lemma StepMisleadsNobody(s: System, a: Action)
    requires WellFormed(s) && Enabled(s, a) && Internal(a) && !a.Deliver?
    ensures Misled(Apply(s, a)) <= Misled(s)
  {
    if Starts(a) {
      StartEffect(s, a);
      StartMisleadsNobody(s, Apply(s, a), Started(s, a), OwnerOf(a));
    } else if a.Advance? {
      AdvanceMisleadsNobody(s, a.id);
    } else if a.Commit? {
      CommitMisleadsNobody(s, a.id);
    } else {
      TablesFrame(s, a);
    }
  }

  lemma PotentialStepLowers(s: System, order: seq<SegmentId>, a: Action)
    requires Invariant(s) && Enabled(s, a) && Internal(a) && IsTopological(DynamicGraph(s.t.segments), order)
    requires !a.Deliver? && !a.Refresh?
    ensures Potential(Apply(s, a), order) < Potential(s, order)
  {
    if a.RebuildOne? {
      RebuildOneLowers(s, order);
    } else if a.HandleOne? {
      HandleOneLowers(s, order, a.child);
    } else if a.Advance? {
      AdvanceLowers(s, order, a.id);
    } else if a.Commit? {
      CommitLowers(s, order, a.id);
    } else if a.Publish? {
      PublishLowers(s, order, a.row);
    } else if a.MarkPublished? {
      MarkPublishedLowers(s, order);
    } else if a.Ack? {
      AckLowers(s, order);
    } else if a.Mark? {
      MarkLowers(s, order, a.k);
    } else {
      RebuildStepLowers(s, order, a);
    }
  }

  lemma InternalKeepsSegments(s: System, a: Action)
    requires WellFormed(s) && Enabled(s, a) && Internal(a)
    ensures Apply(s, a).t.segments == s.t.segments
  {
    FrozenStepKeeps(s, a);
  }

  lemma OnlyRefreshesRefresh(s: System, a: Action)
    requires ForeignKeys(s.t) && Enabled(s, a) && Internal(a) && !a.Refresh?
    ensures Apply(s, a).refreshing == s.refreshing
  {
  }

  lemma ReserveRefreshed(segments: map<SegmentId, Segment>, order: seq<SegmentId>, refreshing: set<SegmentId>,
                         misled: set<SegmentId>, id: SegmentId)
    requires id in refreshing
    ensures Reserve(segments, order, refreshing - {id}, misled) + MostForOne(segments, order)
         == Reserve(segments, order, refreshing, misled)
  {
    assert |refreshing - {id}| == |refreshing| - 1;
  }

  /** A refresh takes its own evaluation from the reserve. */
  lemma RefreshLowers(s: System, order: seq<SegmentId>, id: SegmentId)
    requires Invariant(s) && Enabled(s, Refresh(id)) && IsTopological(DynamicGraph(s.t.segments), order)
    ensures Weight(Apply(s, Refresh(id)), order) < Weight(s, order)
  {
    var s' := Apply(s, Refresh(id));
    RefreshCost(s, order, id);
    InternalKeepsSegments(s, Refresh(id));
    StepMisleadsNobody(s, Refresh(id));
    Spends(s.t.segments, order, s.refreshing, Misled(s), Misled(s'), {});
    ReserveRefreshed(s.t.segments, order, s.refreshing, Misled(s'), id);
  }

  lemma QuietStepLowers(s: System, order: seq<SegmentId>, a: Action)
    requires Invariant(s) && Enabled(s, a) && Internal(a) && IsTopological(DynamicGraph(s.t.segments), order)
    requires !a.Deliver? && !a.Refresh?
    ensures Weight(Apply(s, a), order) < Weight(s, order)
  {
    PotentialStepLowers(s, order, a);
    InternalKeepsSegments(s, a);
    OnlyRefreshesRefresh(s, a);
    StepMisleadsNobody(s, a);
    Spends(s.t.segments, order, s.refreshing, Misled(s), Misled(Apply(s, a)), {});
  }

  /** From any reachable state, every step that the system takes by itself lowers the weight. */
  lemma StepLowers(s: System, order: seq<SegmentId>, a: Action)
    requires Invariant(s) && Enabled(s, a) && Internal(a) && IsTopological(DynamicGraph(s.t.segments), order)
    ensures Weight(Apply(s, a), order) < Weight(s, order)
    ensures Invariant(Apply(s, a)) && Apply(s, a).t.segments == s.t.segments
  {
    StepKeepsInvariant(s, a);
    InternalKeepsSegments(s, a);
    if a.Deliver? {
      DeliverLowers(s, order, a.k);
    } else if a.Refresh? {
      RefreshLowers(s, order, a.id);
    } else {
      QuietStepLowers(s, order, a);
    }
  }

  /** A step writes at most one event. */
  lemma StepAddsOneEvent(s: System, a: Action)
    requires ForeignKeys(s.t) && Enabled(s, a)
    ensures |Apply(s, a).t.outbox| <= |s.t.outbox| + 1
  {
  }

  /**
   Termination: no fault-free run of the system by itself is longer than the weight it starts with,
   nor writes more events.
   */
  lemma {:induction false} RunsAreBounded(s: System, order: seq<SegmentId>, actions: seq<Action>)
    requires Invariant(s) && Runs(s, actions) && forall i | 0 <= i < |actions| :: Internal(actions[i])
    requires IsTopological(DynamicGraph(s.t.segments), order)
    ensures |actions| + Weight(Run(s, actions), order) <= Weight(s, order)
    ensures Invariant(Run(s, actions))
    ensures |Run(s, actions).t.outbox| <= |s.t.outbox| + |actions| <= |s.t.outbox| + Weight(s, order)
    decreases |actions|
  {
    if actions != [] {
      StepAddsOneEvent(s, actions[0]);
      StepLowers(s, order, actions[0]);
      RunsAreBounded(Apply(s, actions[0]), order, actions[1..]);
    }
  }

  lemma OpenPassGoesOn(s: System, id: SegmentId)
    requires WellFormed(s) && id in s.passes
    ensures exists a :: Internal(a) && Enabled(s, a)
  {
    assert PassWellFormed(s, id);
    var a := if s.passes[id].stage.Compared? then Commit(id) else Advance(id);
    assert Internal(a) && Enabled(s, a);
  }

  lemma RebuildGoesOn(s: System)
    requires WellFormed(s) && s.passes == map[] && !s.rebuild.Idle?
    ensures exists a :: Internal(a) && Enabled(s, a)
  {
    if s.rebuild.Swapped? {
      var rows := Listing(DynamicIds(s.t.segments));
      assert Internal(StartRebuild(rows)) && Enabled(s, StartRebuild(rows));
    } else {
      var a := if s.rebuild.todo == [] then EndRebuild else RebuildOne;
      assert Internal(a) && Enabled(s, a);
    }
  }

  lemma HandlerGoesOn(s: System)
    requires WellFormed(s) && s.passes == map[] && s.handler.Handling?
    ensures exists a :: Internal(a) && Enabled(s, a)
  {
    if child :| child in s.handler.todo {
      assert Internal(HandleOne(child)) && Enabled(s, HandleOne(child));
    } else {
      assert Internal(Ack) && Enabled(s, Ack);
    }
  }

  /** Progress: a reachable state is at rest or has a step to take by itself. */
  lemma NeverStuck(s: System)
    requires Invariant(s)
    ensures Quiescent(s) || exists a :: Internal(a) && Enabled(s, a)
  {
    if s.owed != [] {
      assert Internal(Mark(0)) && Enabled(s, Mark(0));
    } else if id :| id in s.passes {
      OpenPassGoesOn(s, id);
    } else if id :| id in s.refreshing {
      assert Internal(Refresh(id)) && Enabled(s, Refresh(id));
    } else if !s.rebuild.Idle? {
      RebuildGoesOn(s);
    } else if s.buffer != {} {
      assert Internal(Flush) && Enabled(s, Flush);
    } else if s.inFlight.Some? {
      assert Internal(MarkPublished) && Enabled(s, MarkPublished);
    } else if row :| 0 <= row < |s.t.outbox| && !s.t.outbox[row].status.PUBLISHED? {
      assert Internal(Publish(row)) && Enabled(s, Publish(row));
    } else if s.handler.Handling? {
      HandlerGoesOn(s);
    } else if s.queue != [] {
      assert Internal(Deliver(0)) && Enabled(s, Deliver(0));
    }
  }

  /** The system has no step to take by itself. */
  ghost predicate NothingToDo(s: System) {
    forall a :: Internal(a) ==> !Enabled(s, a)
  }

  lemma StuckIsQuiescent(s: System)
    requires Invariant(s) && NothingToDo(s)
    ensures Quiescent(s)
  {
    NeverStuck(s);
  }

  /** A run of the system by itself drops nothing. */
  lemma OwnRunDropsNothing(s: System, actions: seq<Action>)
    requires ForeignKeys(s.t) && Runs(s, actions) && forall i | 0 <= i < |actions| :: Internal(actions[i])
    ensures Run(s, actions).dropped <= s.dropped
  {
    RunDropsNothing(s, actions);
  }

  /** It leaves data and rules alone. */
  lemma OwnRunKeeps(s: System, actions: seq<Action>)
    requires Invariant(s) && Runs(s, actions) && forall i | 0 <= i < |actions| :: Internal(actions[i])
    ensures Run(s, actions).t.segments == s.t.segments && Run(s, actions).metrics == s.metrics
    ensures SameStatics(s.t.segments, s.t.members, Run(s, actions).t.members)
  {
    FrozenRunKeeps(s, actions);
  }

  lemma RestSettles(end: System, dropped: set<SegmentId>)
    requires Invariant(end) && Quiescent(end) && end.dropped <= dropped
    ensures forall id | IsDynamic(end.t.segments, id) && id !in dropped ::
              Consistent(end.t.segments, end.metrics, end.t.members, id)
    ensures dropped == {} ==> IsAnswer(end.t.segments, end.metrics, end.t.members)
  {
    InvariantAtRest(end);
  }

  /**
   Eventual correctness: left to itself, a system in any reachable state, right after a restart
   or with saved rules still to evaluate, cannot run longer than its weight, and a run that
   cannot be continued has ended with every segment agreeing with its rule but those dropped
   before. With none dropped before, it has ended in the answer.
   */
  lemma MaximalRunsEndInTheAnswer(s: System, order: seq<SegmentId>, actions: seq<Action>)
    requires Invariant(s) && Runs(s, actions) && forall i | 0 <= i < |actions| :: Internal(actions[i])
    requires IsTopological(DynamicGraph(s.t.segments), order)
    requires NothingToDo(Run(s, actions))
    ensures |actions| <= Weight(s, order)
    ensures var end := Run(s, actions);
            && end.t.segments == s.t.segments && end.metrics == s.metrics
            && SameStatics(s.t.segments, s.t.members, end.t.members)
            && (forall id | IsDynamic(s.t.segments, id) && id !in s.dropped ::
                  Consistent(s.t.segments, s.metrics, end.t.members, id))
            && (s.dropped == {} ==> IsAnswer(s.t.segments, s.metrics, end.t.members))
  {
    RunsAreBounded(s, order, actions);
    StuckIsQuiescent(Run(s, actions));
    OwnRunDropsNothing(s, actions);
    OwnRunKeeps(s, actions);
    RestSettles(Run(s, actions), s.dropped);
  }

  /**
   The same from the bootstrap: after any run whatever without dropped evaluations, with its data
   changes, rule updates, duplicates and crashes, the system left to itself stops, in the answer.
   */
  lemma EveryRunSettles(boot: System, before: TableState, rows: seq<SegmentId>, past: seq<Action>,
                        s: System, actions: seq<Action>)
    returns (order: seq<SegmentId>)
    requires Bootstrapped(boot, before, rows) && Runs(boot, past) && s == Run(boot, past)
    requires forall i | 0 <= i < |past| :: !Drops(past[i])
    requires Runs(s, actions) && forall i | 0 <= i < |actions| :: Internal(actions[i])
    requires NothingToDo(Run(s, actions))
    ensures IsTopological(DynamicGraph(s.t.segments), order) && |actions| <= Weight(s, order)
    ensures SameStatics(s.t.segments, s.t.members, Run(s, actions).t.members)
    ensures IsAnswer(s.t.segments, s.metrics, Run(s, actions).t.members)
  {
    BootstrapEstablishesInvariant(boot, before, rows);
    RunKeepsInvariant(boot, past);
    RunDropsNothing(boot, past);
    order := AcyclicHasOrder(s.t.segments);
    MaximalRunsEndInTheAnswer(s, order, actions);
  }
}
