/** One event fans out to its direct dependents (apps/api/src/messaging/cascade-consumer.service.ts). */
module CascadeConsumer {
  import opened Wrappers
  import opened SegmentRules
  import opened Metrics
  import opened Tables
  import opened Dependency
  import opened Graph
  import opened SegmentEvaluation
  import opened Denotation

  datatype Envelope = Envelope(eventType: string, payload: Payload)

  const SEGMENT_DELTA := "segment.delta"

  /** The lookup in the edge table: who depends on the changed segment. */
  function Dependents(edges: set<Edge>, parent: SegmentId): set<SegmentId> {
    set e | e in edges && e.parentId == parent :: e.childId
  }

  class CascadeConsumerService {
    const db: Database
    const evaluation: SegmentEvaluationService
    /** The queue drift.cascade, oldest message first. */
    var queue: seq<Envelope>

    constructor (db: Database, evaluation: SegmentEvaluationService)
      ensures this.db == db && this.evaluation == evaluation && queue == []
    {
      this.db, this.evaluation, queue := db, evaluation, [];
    }

    /** The rows of the lookup, in an unspecified order. */
    method ListDependents(parent: SegmentId) returns (order: seq<SegmentId>)
      ensures Distinct(order) && Elements(order) == Dependents(db.dependencies, parent)
    {
      order := [];
      var rest := Dependents(db.dependencies, parent);
      while rest != {}
        invariant Elements(order) !! rest && Distinct(order)
        invariant Elements(order) + rest == Dependents(db.dependencies, parent)
        decreases rest
      {
        var child :| child in rest;
        assert forall x | x in order :: x in Elements(order);
        order, rest := order + [child], rest - {child};
      }
    }

    /** Re-evaluates the dependents one after the other, in some order, up to the first throw. */
    method Handle(msg: Envelope, now: int) returns (order: seq<SegmentId>, failure: Option<EvaluationError>)
      requires evaluation.db == db && evaluation.dependency.db == db && ForeignKeys(db.State())
      modifies db`members, db`dependencies, db`deltas, db`outbox, db`batches
      ensures var before, metrics := old(db.State()), MetricsAt(db.customers, db.transactions, now);
              && Distinct(order)
              && Elements(order) ==
                   (if msg.eventType == "segment.delta" then Dependents(before.dependencies, msg.payload.segmentId) else {})
              && db.State() == AfterEvaluateAll(before, metrics, order)
              && failure == EvaluateAllFailure(before, metrics, order)
    {
      if msg.eventType != SEGMENT_DELTA {
        return [], None;
      }
      order := ListDependents(msg.payload.segmentId);
      failure := evaluation.EvaluateInOrder(order, now);
    }

    /** Takes the oldest message: acknowledged when the handler returns, put back when it throws. */
    method Process(now: int) returns (order: seq<SegmentId>, failure: Option<EvaluationError>)
      requires evaluation.db == db && evaluation.dependency.db == db && ForeignKeys(db.State())
      requires queue != []
      modifies this`queue, db`members, db`dependencies, db`deltas, db`outbox, db`batches
      ensures var before, metrics := old(db.State()), MetricsAt(db.customers, db.transactions, now);
              && Distinct(order)
              && (old(queue[0].eventType) == "segment.delta" ==>
                    Elements(order) == Dependents(before.dependencies, old(queue[0].payload.segmentId)))
              && (old(queue[0].eventType) != "segment.delta" ==> order == [])
              && db.State() == AfterEvaluateAll(before, metrics, order)
              && failure == EvaluateAllFailure(before, metrics, order)
      ensures queue == if failure.None? then old(queue)[1..] else old(queue)
    {
      var msg := queue[0];
      queue := queue[1..];
      order, failure := Handle(msg, now);
      assert order != [] ==> order[0] in Elements(order);
      if failure.Some? {
        queue := [msg] + queue;
      }
    }
  }

  /** The tables after a series of handled events, each given by the order its dependents were evaluated in. */
  function AfterHandling(t: TableState, metrics: MetricsTable, orders: seq<seq<SegmentId>>): TableState
    requires ForeignKeys(t)
    decreases |orders|
  {
    if orders == [] then t
    else AfterHandling(AfterEvaluateAll(t, metrics, orders[0]), metrics, orders[1..])
  }

  lemma {:induction false} HandlingQuiet(t: TableState, metrics: MetricsTable, orders: seq<seq<SegmentId>>)
    requires ForeignKeys(t) && forall id | IsDynamic(t.segments, id) :: UpToDate(t, metrics, id)
    ensures Quiet(t, AfterHandling(t, metrics, orders))
    decreases |orders|
  {
    if orders != [] {
      var t' := AfterEvaluateAll(t, metrics, orders[0]);
      EvaluationsQuiet(t, metrics, orders[0]);
      forall id | IsDynamic(t.segments, id) ensures UpToDate(t', metrics, id) {
        assert UpToDate(t, metrics, id);
      }
      HandlingQuiet(t', metrics, orders[1..]);
    }
  }

  /**
   Quiet cascade: handling the events of a rebuild, in any order, any number of times and
   with any order of dependents, produces no further event and changes no member.
   */
  lemma RebuildCascadesQuietly(t: TableState, metrics: MetricsTable, rows: seq<SegmentId>, orders: seq<seq<SegmentId>>)
    requires ForeignKeys(t) && References(t.segments) && ListsDynamic(t.segments, rows)
    requires Acyclic(DynamicGraph(t.segments))
    ensures Quiet(AfterRebuild(t, metrics, rows), AfterHandling(AfterRebuild(t, metrics, rows), metrics, orders))
  {
    RebuildCorrect(t, metrics, rows);
    HandlingQuiet(AfterRebuild(t, metrics, rows), metrics, orders);
  }

  /** Evaluating existing segments throws exactly when one of them is STATIC. */
  lemma {:induction false} EvaluationsSucceedIff(t: TableState, metrics: MetricsTable, ids: seq<SegmentId>)
    requires ForeignKeys(t) && References(t.segments) && Acyclic(DynamicGraph(t.segments))
    requires forall i | 0 <= i < |ids| :: ids[i] in t.segments
    ensures EvaluateAllFailure(t, metrics, ids).None? <==> forall i | 0 <= i < |ids| :: IsDynamic(t.segments, ids[i])
    ensures EvaluateAllFailure(t, metrics, ids).Some? ==> EvaluateAllFailure(t, metrics, ids) == Some(StaticNeedsForce)
    decreases |ids|
  {
    if ids != [] && IsDynamic(t.segments, ids[0]) {
      EvaluationSucceeds(t, ids[0]);
      EvaluationsSucceedIff(AfterEvaluate(t, metrics, ids[0], false), metrics, ids[1..]);
      assert forall i | 0 <= i < |ids| :: i > 0 ==> ids[i] == ids[1..][i - 1];
    }
  }

  /**
   When a forced refresh of a STATIC segment poisons the events of `p`: in a database in which only
   DYNAMIC segments had edge rows, exactly when the segment's rule refers to `p`. The refresh writes
   the edge, and the handling of the next event of `p` throws on the STATIC dependent.
   */
  lemma ForcedRefreshPoisonsIff(t: TableState, metrics: MetricsTable, s: SegmentId, p: SegmentId,
                                later: MetricsTable, order: seq<SegmentId>)
    requires ForeignKeys(t) && References(t.segments) && Acyclic(DynamicGraph(t.segments))
    requires forall e | e in t.dependencies :: IsDynamic(t.segments, e.childId)
    requires s in t.segments && t.segments[s].kind.STATIC? && EvaluationFailure(t, s, true).None?
    requires Elements(order) == Dependents(AfterEvaluate(t, metrics, s, true).dependencies, p)
    ensures EvaluateAllFailure(AfterEvaluate(t, metrics, s, true), later, order).Some? <==> p in Refs(t.segments[s].rule)
  {
    var t' := AfterEvaluate(t, metrics, s, true);
    forall id | id in order ensures id in t.segments && (id != s ==> IsDynamic(t.segments, id)) {
      assert id in Elements(order);
      assert Edge(p, id) in t'.dependencies;
    }
    assert s in order <==> p in Refs(t.segments[s].rule) by {
      assert s in order <==> s in Elements(order);
      assert s in Elements(order) <==> Edge(p, s) in t'.dependencies;
      assert p in Incoming(t'.dependencies, s) <==> Edge(p, s) in t'.dependencies;
    }
    EvaluationsSucceedIff(t', later, order);
  }

  /** One delivery of a message: the metrics it finds, and the dependents as its lookup lists them. */
  datatype Delivery = Delivery(metrics: MetricsTable, order: seq<SegmentId>)

  /** Each delivery lists the dependents of `p` in the tables that the one before it left. */
  ghost predicate Listed(t: TableState, p: SegmentId, deliveries: seq<Delivery>)
    requires ForeignKeys(t)
    decreases |deliveries|
  {
    deliveries == [] ||
    (var first := deliveries[0];
     Elements(first.order) == Dependents(t.dependencies, p)
     && Listed(AfterEvaluateAll(t, first.metrics, first.order), p, deliveries[1..]))
  }

  ghost predicate EachThrows(t: TableState, deliveries: seq<Delivery>)
    requires ForeignKeys(t)
    decreases |deliveries|
  {
    deliveries == [] ||
    (var first := deliveries[0];
     EvaluateAllFailure(t, first.metrics, first.order) == Some(StaticNeedsForce)
     && EachThrows(AfterEvaluateAll(t, first.metrics, first.order), deliveries[1..]))
  }

  lemma {:induction false} EvaluationsKeepStaticEdges(t: TableState, metrics: MetricsTable, ids: seq<SegmentId>, e: Edge)
    requires ForeignKeys(t) && e in t.dependencies && !IsDynamic(t.segments, e.childId)
    ensures e in AfterEvaluateAll(t, metrics, ids).dependencies
    decreases |ids|
  {
    if ids != [] && EvaluationFailure(t, ids[0], false).None? {
      EvaluationsKeepStaticEdges(AfterEvaluate(t, metrics, ids[0], false), metrics, ids[1..], e);
    }
  }

  /**
   A poisoned message: with a STATIC dependent of `p`, every delivery of an event of `p` throws,
   however often it is redelivered and whatever the data have become, so it never leaves the queue.
   */
  lemma {:induction false} PoisonedForever(t: TableState, p: SegmentId, s: SegmentId, deliveries: seq<Delivery>)
    requires ForeignKeys(t) && References(t.segments) && Acyclic(DynamicGraph(t.segments))
    requires Edge(p, s) in t.dependencies && t.segments[s].kind.STATIC?
    requires Listed(t, p, deliveries)
    ensures EachThrows(t, deliveries)
    decreases |deliveries|
  {
    if deliveries != [] {
      var first := deliveries[0];
      assert Edge(p, s).childId in Dependents(t.dependencies, p);
      forall id | id in first.order ensures id in t.segments {
        assert id in Elements(first.order);
        assert Edge(p, id) in t.dependencies;
      }
      assert s in Elements(first.order) && s in first.order;
      EvaluationsSucceedIff(t, first.metrics, first.order);
      EvaluationsKeepStaticEdges(t, first.metrics, first.order, Edge(p, s));
      PoisonedForever(AfterEvaluateAll(t, first.metrics, first.order), p, s, deliveries[1..]);
    }
  }

  /** Such a database: one forced refresh of a STATIC segment that refers to `p`, and the events of `p` throw from then on. */
  lemma ForcedRefreshPoisons(p: SegmentId, s: SegmentId, metrics: MetricsTable, deliveries: seq<Delivery>)
    requires p != s
    ensures var segments := map[p := Segment("p", DYNAMIC, Compare(TxCountTotal, Gt, Finite(0.0))),
                                s := Segment("s", STATIC, InSegment(p))];
            var t := TableState(segments, map[p := {}, s := {}], {}, {}, [], 0);
            && ForeignKeys(t) && EvaluationFailure(t, s, true).None?
            && Dependents(AfterEvaluate(t, metrics, s, true).dependencies, p) == {s}
            && (Listed(AfterEvaluate(t, metrics, s, true), p, deliveries) ==>
                  EachThrows(AfterEvaluate(t, metrics, s, true), deliveries))
  {
    var segments := map[p := Segment("p", DYNAMIC, Compare(TxCountTotal, Gt, Finite(0.0))),
                        s := Segment("s", STATIC, InSegment(p))];
    var t := TableState(segments, map[p := {}, s := {}], {}, {}, [], 0);
    var t' := AfterEvaluate(t, metrics, s, true);
    assert p in Incoming(t'.dependencies, s);
    assert t'.dependencies == {Edge(p, s)};
    assert Edge(p, s).childId in Dependents(t'.dependencies, p);
    assert Acyclic(DynamicGraph(segments)) by {
      var g := DynamicGraph(segments);
      forall c ensures !IsCycle(g, c) {
        assert |c| > 1 && c[0] in g ==> c[1] !in g[c[0]];
      }
    }
    if Listed(t', p, deliveries) {
      PoisonedForever(t', p, s, deliveries);
    }
  }
}
