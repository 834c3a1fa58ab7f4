/** The orchestrator of evaluation passes (apps/api/src/segments/segment-evaluation.service.ts). */
module SegmentEvaluation {
  import opened Wrappers
  import opened SegmentRules
  import opened Evaluator
  import opened Metrics
  import opened Tables
  import opened Dependency
  import opened Graph
  import opened SegmentOrder

  datatype EvaluationError =
    | SegmentNotFound
    | StaticNeedsForce
    | DependencyRejected(reason: DependencyError)
    | Cycle(stuck: set<SegmentId>)

  datatype EvaluationResult = EvaluationResult(payload: Payload, totalMembers: nat)

  /** Why an evaluation of `id` throws, if it does. */
  function EvaluationFailure(t: TableState, id: SegmentId, force: bool): Option<EvaluationError> {
    if id !in t.segments then Some(SegmentNotFound)
    else if t.segments[id].kind.STATIC? && !force then Some(StaticNeedsForce)
    else
      var rejected := DependencyFailure(t.segments, id, t.segments[id].rule);
      if rejected.Some? then Some(DependencyRejected(rejected.value)) else None
  }

  /** The change an evaluation finds: who the rule asks for against who is stored. */
  function Diff(t: TableState, metrics: MetricsTable, id: SegmentId): Payload
    requires id in t.segments && id in t.members
  {
    var asked := NewMembers(t.segments[id].rule, metrics, t.members);
    Payload(id, t.segments[id].name, t.batches, asked - t.members[id], t.members[id] - asked)
  }

  predicate IsEmpty(p: Payload) {
    p.added == {} && p.removed == {}
  }

  function DeltaRows(p: Payload): set<DeltaRow> {
    (set c | c in p.added :: DeltaRow(p.segmentId, c, ADD, p.batchId))
    + set c | c in p.removed :: DeltaRow(p.segmentId, c, REMOVE, p.batchId)
  }

  lemma DeltaRowsIff(p: Payload, d: DeltaRow)
    ensures d in DeltaRows(p)
      <==> && d.segmentId == p.segmentId && d.batchId == p.batchId
           && match d.change
              case ADD => d.customerId in p.added
              case REMOVE => d.customerId in p.removed
  {
    assert d == DeltaRow(d.segmentId, d.customerId, d.change, d.batchId);
  }

  /**
   The tables after a successful evaluation: the segment has the members its rule asks
   for and the edges its rule refers to, and a change left one batch of delta rows and
   one pending event.
   */
  function Evaluated(t: TableState, metrics: MetricsTable, id: SegmentId): TableState
    requires id in t.segments && id in t.members
  {
    var rule, diff := t.segments[id].rule, Diff(t, metrics, id);
    TableState(
      t.segments,
      t.members[id := NewMembers(rule, metrics, t.members)],
      WithIncoming(t.dependencies, id, Refs(rule)),
      t.deltas + DeltaRows(diff),
      t.outbox + if IsEmpty(diff) then [] else [OutboxRow(diff, PENDING)],
      t.batches + 1)
  }

  /** The first half of an evaluation: its edges are written, and the diff is computed from what it reads. */
  function Begun(t: TableState, id: SegmentId): TableState
    requires id in t.segments
  {
    t.(dependencies := WithIncoming(t.dependencies, id, Refs(t.segments[id].rule)), batches := t.batches + 1)
  }

  /** The second half: the database transaction that writes members, delta rows and the event. */
  function Committed(t: TableState, diff: Payload): TableState
    requires diff.segmentId in t.members
  {
    t.(members := t.members[diff.segmentId := t.members[diff.segmentId] + diff.added - diff.removed],
       deltas := t.deltas + DeltaRows(diff),
       outbox := t.outbox + if IsEmpty(diff) then [] else [OutboxRow(diff, PENDING)])
  }

  /** With nothing in between, the two halves are an evaluation. */
  lemma EvaluatedInTwoSteps(t: TableState, metrics: MetricsTable, id: SegmentId)
    requires ForeignKeys(t) && id in t.segments
    ensures Evaluated(t, metrics, id) == Committed(Begun(t, id), Diff(t, metrics, id))
  {
    var diff := Diff(t, metrics, id);
    assert t.members[id] + diff.added - diff.removed == NewMembers(t.segments[id].rule, metrics, t.members);
  }

  /** The tables after `evaluateSegment`: unchanged when it throws. */
  function AfterEvaluate(t: TableState, metrics: MetricsTable, id: SegmentId, force: bool): (t': TableState)
    requires ForeignKeys(t)
    ensures ForeignKeys(t') && t'.segments == t.segments
  {
    if EvaluationFailure(t, id, force).Some? then t
    else
      var t' := Evaluated(t, metrics, id);
      assert forall e: Edge | e in t'.dependencies && e.childId == id ::
          e.parentId in Incoming(t'.dependencies, id);
      t'
  }

  /** When an evaluation throws, with what, and that it then leaves the tables alone. */
  lemma EvaluationThrowsIff(t: TableState, metrics: MetricsTable, id: SegmentId, force: bool)
    requires ForeignKeys(t)
    ensures EvaluationFailure(t, id, force) == Some(SegmentNotFound) <==> id !in t.segments
    ensures EvaluationFailure(t, id, force) == Some(StaticNeedsForce)
      <==> id in t.segments && t.segments[id].kind == STATIC && !force
    ensures EvaluationFailure(t, id, force) == Some(DependencyRejected(SelfReference))
      <==> id in t.segments && (t.segments[id].kind == DYNAMIC || force) && id in Refs(t.segments[id].rule)
    ensures EvaluationFailure(t, id, force).None?
      <==> && id in t.segments && (t.segments[id].kind == DYNAMIC || force)
           && id !in Refs(t.segments[id].rule) && forall p | p in Refs(t.segments[id].rule) :: p in t.segments
    ensures EvaluationFailure(t, id, force).Some? ==> AfterEvaluate(t, metrics, id, force) == t
  {
  }

  /** Who is in a segment after its evaluation: those for whom the evaluator answers true. */
  lemma EvaluationDecidesMembers(t: TableState, metrics: MetricsTable, id: SegmentId, force: bool, c: CustomerId)
    requires ForeignKeys(t) && EvaluationFailure(t, id, force).None?
    ensures c in AfterEvaluate(t, metrics, id, force).members[id]
      <==> c in metrics && Evaluate(t.segments[id].rule, metrics[c], t.members, c) == Success(true)
  {
    if c in metrics {
      EvaluateMeansHolds(t.segments[id].rule, metrics[c], t.members, c);
    }
  }

  /** What it leaves alone, and the edges it leaves. */
  lemma EvaluationTouchesItsSegment(t: TableState, metrics: MetricsTable, id: SegmentId, force: bool)
    requires ForeignKeys(t) && EvaluationFailure(t, id, force).None?
    ensures var t' := AfterEvaluate(t, metrics, id, force);
            && t'.segments == t.segments && t'.members.Keys == t.members.Keys
            && (forall other | other in t.members && other != id :: t'.members[other] == t.members[other])
            && (forall p :: Edge(p, id) in t'.dependencies <==> p in Refs(t.segments[id].rule))
            && (forall p, other | other != id :: Edge(p, other) in t'.dependencies <==> Edge(p, other) in t.dependencies)
            && t'.batches == t.batches + 1
  {
    var t' := AfterEvaluate(t, metrics, id, force);
    forall p ensures Edge(p, id) in t'.dependencies <==> p in Incoming(t'.dependencies, id) {
      assert Edge(p, id) in t'.dependencies ==> Edge(p, id).parentId in Incoming(t'.dependencies, id);
      assert forall e | e in t'.dependencies && e.childId == id && e.parentId == p :: e == Edge(p, id);
    }
  }

  /**
   The delta rows of an evaluation whose batch id is new: an ADD for everyone who is a member after and
   was not before, a REMOVE for everyone who was and is not, under the new batch id, and no other.
   */
  lemma EvaluationRecordsChanges(t: TableState, metrics: MetricsTable, id: SegmentId, force: bool, d: DeltaRow)
    requires ForeignKeys(t) && EvaluationFailure(t, id, force).None?
    requires forall old' | old' in t.deltas :: old'.batchId != t.batches
    ensures var before, t' := t.members[id], AfterEvaluate(t, metrics, id, force);
            d in t'.deltas
            <==> || d in t.deltas
                 || (d.segmentId == id && d.batchId == t.batches && d.change == ADD
                     && d.customerId in t'.members[id] && d.customerId !in before)
                 || (d.segmentId == id && d.batchId == t.batches && d.change == REMOVE
                     && d.customerId in before && d.customerId !in t'.members[id])
  {
    var p := Diff(t, metrics, id);
    assert d == DeltaRow(d.segmentId, d.customerId, d.change, d.batchId);
  }

  /** The event of an evaluation: one, pending, with exactly the change, or none if nothing changed. */
  lemma EvaluationAnnouncesChanges(t: TableState, metrics: MetricsTable, id: SegmentId, force: bool)
    requires ForeignKeys(t) && EvaluationFailure(t, id, force).None?
    ensures var before, t' := t.members[id], AfterEvaluate(t, metrics, id, force);
            var after := t'.members[id];
            && Diff(t, metrics, id) == Payload(id, t.segments[id].name, t.batches, after - before, before - after)
            && t'.outbox == t.outbox
                 + if after == before then []
                   else [OutboxRow(Payload(id, t.segments[id].name, t.batches, after - before, before - after), PENDING)]
  {
    var before, after := t.members[id], AfterEvaluate(t, metrics, id, force).members[id];
    assert after == before <==> after - before == {} && before - after == {} by {
      if after - before == {} && before - after == {} {
        forall c ensures c in after <==> c in before {
          assert c !in after - before && c !in before - after;
        }
      }
    }
  }

  /** Evaluates in the given order, up to the first throw. */
  function AfterEvaluateAll(t: TableState, metrics: MetricsTable, ids: seq<SegmentId>): (t': TableState)
    requires ForeignKeys(t)
    ensures ForeignKeys(t') && t'.segments == t.segments
    decreases |ids|
  {
    if ids == [] || EvaluationFailure(t, ids[0], false).Some? then t
    else AfterEvaluateAll(AfterEvaluate(t, metrics, ids[0], false), metrics, ids[1..])
  }

  function EvaluateAllFailure(t: TableState, metrics: MetricsTable, ids: seq<SegmentId>): Option<EvaluationError>
    requires ForeignKeys(t)
    decreases |ids|
  {
    if ids == [] then None
    else
      var first := EvaluationFailure(t, ids[0], false);
      if first.Some? then first
      else EvaluateAllFailure(AfterEvaluate(t, metrics, ids[0], false), metrics, ids[1..])
  }

  /** The k-th evaluation of the loop, and what remains after it. */
  lemma EvaluateAllStep(t: TableState, metrics: MetricsTable, ids: seq<SegmentId>, k: nat)
    requires ForeignKeys(t) && k < |ids|
    ensures var failure := EvaluationFailure(t, ids[k], false);
            if failure.Some? then
              AfterEvaluateAll(t, metrics, ids[k..]) == t && EvaluateAllFailure(t, metrics, ids[k..]) == failure
            else
              var t' := AfterEvaluate(t, metrics, ids[k], false);
              && AfterEvaluateAll(t, metrics, ids[k..]) == AfterEvaluateAll(t', metrics, ids[k + 1..])
              && EvaluateAllFailure(t, metrics, ids[k..]) == EvaluateAllFailure(t', metrics, ids[k + 1..])
  {
    assert ids[k..][1..] == ids[k + 1..];
  }

  /** With `t` before its k-th evaluation, the loop will end as it ends from `before`. */
  ghost predicate OnTrack(before: TableState, t: TableState, metrics: MetricsTable, ids: seq<SegmentId>, k: nat) {
    && k <= |ids| && ForeignKeys(before) && ForeignKeys(t)
    && AfterEvaluateAll(t, metrics, ids[k..]) == AfterEvaluateAll(before, metrics, ids)
    && EvaluateAllFailure(t, metrics, ids[k..]) == EvaluateAllFailure(before, metrics, ids)
  }

  lemma OnTrackStep(before: TableState, t: TableState, metrics: MetricsTable, ids: seq<SegmentId>, k: nat)
    requires OnTrack(before, t, metrics, ids, k) && k < |ids|
    ensures var failure, t' := EvaluationFailure(t, ids[k], false), AfterEvaluate(t, metrics, ids[k], false);
            if failure.Some? then
              t' == AfterEvaluateAll(before, metrics, ids) && failure == EvaluateAllFailure(before, metrics, ids)
            else
              OnTrack(before, t', metrics, ids, k + 1)
  {
    EvaluateAllStep(t, metrics, ids, k);
  }

  /** `rows` is what the query for the DYNAMIC segments returns: each of them once, in an unspecified order. */
  ghost predicate ListsDynamic(segments: map<SegmentId, Segment>, rows: seq<SegmentId>) {
    Distinct(rows) && Elements(rows) == DynamicIds(segments)
  }

  function AfterRebuild(t: TableState, metrics: MetricsTable, rows: seq<SegmentId>): (t': TableState)
    requires ForeignKeys(t) && ListsDynamic(t.segments, rows)
    ensures ForeignKeys(t') && t'.segments == t.segments
  {
    assert forall id | id in rows :: id in Elements(rows);
    var order := Sorted(rows, t.segments);
    if order.Failure? then t else AfterEvaluateAll(t, metrics, order.value)
  }

  function RebuildFailure(t: TableState, metrics: MetricsTable, rows: seq<SegmentId>): Option<EvaluationError>
    requires ForeignKeys(t) && ListsDynamic(t.segments, rows)
  {
    assert forall id | id in rows :: id in Elements(rows);
    var order := Sorted(rows, t.segments);
    if order.Failure? then Some(Cycle(order.error)) else EvaluateAllFailure(t, metrics, order.value)
  }

  class SegmentEvaluationService {
    const db: Database
    const dependency: DependencyService

    constructor (db: Database)
      ensures this.db == db && dependency.db == db
    {
      this.db := db;
      dependency := new DependencyService(db);
    }

    method LoadParentMemberships(parentIds: set<SegmentId>) returns (loaded: Membership)
      ensures loaded.Keys == parentIds
      ensures forall id | id in parentIds :: loaded[id] == MembersOf(db.members, id)
    {
      loaded := map[];
      var rest := parentIds;
      while rest != {}
        invariant rest <= parentIds && loaded.Keys == parentIds - rest
        invariant forall id | id in loaded :: loaded[id] == MembersOf(db.members, id)
        decreases rest
      {
        var id :| id in rest;
        loaded := loaded[id := if id in db.members then db.members[id] else {}];
        rest := rest - {id};
      }
    }

    /** Runs the evaluator over every customer. No membership is missing, so it never throws. */
    method MatchingCustomers(rule: SegmentRule, metrics: MetricsTable, parents: Membership)
      returns (matching: set<CustomerId>)
      requires Refs(rule) <= parents.Keys
      ensures matching == NewMembers(rule, metrics, parents)
    {
      matching := {};
      var rest := metrics.Keys;
      while rest != {}
        invariant rest <= metrics.Keys
        invariant matching == set c | c in metrics && c !in rest && Holds(rule, metrics[c], parents, c)
        decreases rest
      {
        var c :| c in rest;
        EvaluateMeansHolds(rule, metrics[c], parents, c);
        if Evaluate(rule, metrics[c], parents, c) == Success(true) {
          matching := matching + {c};
        }
        rest := rest - {c};
      }
    }

    /** Metrics for everyone, the parents' members, and the rule evaluated per customer. */
    method Recompute(rule: SegmentRule, now: int) returns (newMembers: set<CustomerId>)
      ensures newMembers == NewMembers(rule, MetricsAt(db.customers, db.transactions, now), db.members)
    {
      var allMetrics := ComputeAll(db.customers, db.transactions, now);
      var acc := new IdSet();
      CollectParentIds(rule, acc);
      var parents := LoadParentMemberships(acc.ids);
      newMembers := MatchingCustomers(rule, allMetrics, parents);
      NewMembersFootprint(rule, allMetrics, parents, db.members);
    }

    /** The database transaction of a pass: member rows, delta rows and the event, together. */
    method Persist(p: Payload)
      requires p.segmentId in db.members
      modifies db`members, db`deltas, db`outbox
      ensures db.members == old(db.members)[p.segmentId := old(db.members)[p.segmentId] + p.added - p.removed]
      ensures db.deltas == old(db.deltas) + DeltaRows(p)
      ensures forall d :: d in db.deltas
                <==> || d in old(db.deltas)
                     || (d.segmentId == p.segmentId && d.batchId == p.batchId && d.change == ADD && d.customerId in p.added)
                     || (d.segmentId == p.segmentId && d.batchId == p.batchId && d.change == REMOVE && d.customerId in p.removed)
      ensures db.outbox == old(db.outbox) + if p.added == {} && p.removed == {} then [] else [OutboxRow(p, PENDING)]
    {
      forall d {
        DeltaRowsIff(p, d);
      }
      if p.added != {} {
        db.members := db.members[p.segmentId := db.members[p.segmentId] + p.added];
      }
      if p.removed != {} {
        db.members := db.members[p.segmentId := db.members[p.segmentId] - p.removed];
      }
      assert db.members[p.segmentId] == old(db.members)[p.segmentId] + p.added - p.removed;
      if p.added != {} || p.removed != {} {
        db.deltas := db.deltas + DeltaRows(p);
        db.outbox := db.outbox + [OutboxRow(p, PENDING)];
      }
    }

    /** Diffs against the stored members and persists the change under a new batch id. */
    method ReplaceMembers(segmentId: SegmentId, name: string, newMembers: set<CustomerId>) returns (payload: Payload)
      requires segmentId in db.members
      modifies db`members, db`deltas, db`outbox, db`batches
      ensures payload == Payload(segmentId, name, old(db.batches),
                                 newMembers - old(db.members[segmentId]), old(db.members[segmentId]) - newMembers)
      ensures db.members == old(db.members)[segmentId := newMembers]
      ensures db.deltas == old(db.deltas) + DeltaRows(payload)
      ensures db.outbox == old(db.outbox) + if IsEmpty(payload) then [] else [OutboxRow(payload, PENDING)]
      ensures db.batches == old(db.batches) + 1
    {
      var current := db.members[segmentId];
      payload := Payload(segmentId, name, db.batches, newMembers - current, current - newMembers);
      db.batches := db.batches + 1;
      Persist(payload);
      assert current + payload.added - payload.removed == newMembers;
    }

    method EvaluateSegment(segmentId: SegmentId, force: bool, now: int)
      returns (answer: Result<EvaluationResult, EvaluationError>)
      requires ForeignKeys(db.State()) && dependency.db == db
      modifies db`members, db`dependencies, db`deltas, db`outbox, db`batches
      ensures var before, metrics := old(db.State()), MetricsAt(db.customers, db.transactions, now);
              && db.State() == AfterEvaluate(before, metrics, segmentId, force)
              && match EvaluationFailure(before, segmentId, force)
                 case Some(error) => answer == Failure(error)
                 case None => answer == Success(EvaluationResult(
                     Diff(before, metrics, segmentId), |db.members[segmentId]|))
    {
      if segmentId !in db.segments {
        return Failure(SegmentNotFound);
      }
      var segment := db.segments[segmentId];
      if segment.kind.STATIC? && !force {
        return Failure(StaticNeedsForce);
      }
      var rejected := dependency.ReplaceDependencies(segmentId, segment.rule);
      if rejected.Some? {
        return Failure(DependencyRejected(rejected.value));
      }
      ReplacedUnique(old(db.dependencies), db.dependencies, segmentId, Refs(segment.rule));

      var newMembers := Recompute(segment.rule, now);
      var payload := ReplaceMembers(segmentId, segment.name, newMembers);
      answer := Success(EvaluationResult(payload, |newMembers|));
    }

    /** The loop of a rebuild and of the cascade consumer: one evaluation after the other, up to the first throw. */
    method EvaluateInOrder(order: seq<SegmentId>, now: int) returns (failure: Option<EvaluationError>)
      requires ForeignKeys(db.State()) && dependency.db == db
      modifies db`members, db`dependencies, db`deltas, db`outbox, db`batches
      ensures var before, metrics := old(db.State()), MetricsAt(db.customers, db.transactions, now);
              && db.State() == AfterEvaluateAll(before, metrics, order)
              && failure == EvaluateAllFailure(before, metrics, order)
    {
      ghost var before, metrics := db.State(), MetricsAt(db.customers, db.transactions, now);
      for i := 0 to |order|
        invariant OnTrack(before, db.State(), metrics, order, i)
        invariant metrics == MetricsAt(db.customers, db.transactions, now)
      {
        OnTrackStep(before, db.State(), metrics, order, i);
        var answer := EvaluateSegment(order[i], false, now);
        if answer.Failure? {
          return Some(answer.error);
        }
      }
      failure := None;
    }

    method RebuildAllDynamic(rows: seq<SegmentId>, now: int) returns (failure: Option<EvaluationError>)
      requires ForeignKeys(db.State()) && dependency.db == db && ListsDynamic(db.segments, rows)
      modifies db`members, db`dependencies, db`deltas, db`outbox, db`batches
      ensures var before, metrics := old(db.State()), MetricsAt(db.customers, db.transactions, now);
              && db.State() == AfterRebuild(before, metrics, rows)
              && failure == RebuildFailure(before, metrics, rows)
    {
      assert forall id | id in rows :: id in Elements(rows);
      var order := TopoSort(rows, db.segments);
      if order.Failure? {
        return Some(Cycle(order.error));
      }
      failure := EvaluateInOrder(order.value, now);
    }
  }
}
