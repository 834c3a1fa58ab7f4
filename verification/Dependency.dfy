/** The materialised dependency edges (apps/api/src/segments/dependency.service.ts). */
module Dependency {
  import opened Wrappers
  import opened SegmentRules
  import opened Tables

  datatype DependencyError = SelfReference | UnknownParent

  /** The accumulator that the walk over a rule fills. */
  class IdSet {
    var ids: set<SegmentId>

    constructor ()
      ensures ids == {}
    {
      ids := {};
    }
  }

  /** Adds the segments `rule` refers to into `acc`, in place. */
  method CollectParentIds(rule: SegmentRule, acc: IdSet)
    modifies acc
    ensures acc.ids == old(acc.ids) + Refs(rule)
    decreases rule
  {
    match rule
    case Compare(_, _, _) =>
    case InSegment(s) => acc.ids := acc.ids + {s};
    case And(children) =>
      for i := 0 to |children|
        invariant forall s :: s in acc.ids <==> s in old(acc.ids) || exists child | child in children[..i] :: s in Refs(child)
      {
        CollectParentIds(children[i], acc);
        assert children[..i + 1] == children[..i] + [children[i]];
      }
      assert children[..|children|] == children;
      assert forall s :: s in Refs(rule) <==> exists child | child in children :: s in Refs(child);
  }

  function Incoming(edges: set<Edge>, child: SegmentId): set<SegmentId> {
    set e | e in edges && e.childId == child :: e.parentId
  }

  /** The DELETE statement: drops the child's edges from parents outside `parents`. */
  function DeleteStale(edges: set<Edge>, child: SegmentId, parents: set<SegmentId>): set<Edge> {
    set e | e in edges && (e.childId == child ==> e.parentId in parents)
  }

  /** The INSERT ... ON CONFLICT DO NOTHING statement. */
  function InsertMissing(edges: set<Edge>, child: SegmentId, parents: set<SegmentId>): set<Edge> {
    edges + set p | p in parents :: Edge(p, child)
  }

  /** The edge table after the child's incoming edges have become `parents`. */
  ghost predicate Replaced(before: set<Edge>, after: set<Edge>, child: SegmentId, parents: set<SegmentId>) {
    && Incoming(after, child) == parents
    && forall e: Edge | e.childId != child :: e in after <==> e in before
  }

  function WithIncoming(edges: set<Edge>, child: SegmentId, parents: set<SegmentId>): (after: set<Edge>)
    ensures Replaced(edges, after, child, parents)
  {
    var after := (set e | e in edges && e.childId != child) + set p | p in parents :: Edge(p, child);
    assert forall p | p in parents :: Edge(p, child) in after;
    after
  }

  /** The two requirements fix the edge table. */
  lemma ReplacedUnique(before: set<Edge>, after: set<Edge>, child: SegmentId, parents: set<SegmentId>)
    requires Replaced(before, after, child, parents)
    ensures after == WithIncoming(before, child, parents)
  {
    var other := WithIncoming(before, child, parents);
    forall e: Edge
      ensures e in after <==> e in other
    {
      if e.childId == child {
        assert e in after <==> e.parentId in Incoming(after, child) by { assert e == Edge(e.parentId, child); }
        assert e in other <==> e.parentId in Incoming(other, child) by { assert e == Edge(e.parentId, child); }
      }
    }
  }

  /** The guard and the foreign key that `replaceDependencies` can fail on. */
  function DependencyFailure(segments: map<SegmentId, Segment>, child: SegmentId, rule: SegmentRule)
    : Option<DependencyError>
  {
    if child in Refs(rule) then Some(SelfReference)
    else if !(Refs(rule) <= segments.Keys) then Some(UnknownParent)
    else None
  }

  class DependencyService {
    const db: Database

    constructor (db: Database)
      ensures this.db == db
    {
      this.db := db;
    }

    method ReplaceDependencies(segmentId: SegmentId, rule: SegmentRule) returns (failure: Option<DependencyError>)
      modifies db`dependencies
      ensures failure == DependencyFailure(db.segments, segmentId, rule)
      ensures failure.None? ==> Replaced(old(db.dependencies), db.dependencies, segmentId, Refs(rule))
      ensures failure.Some? ==> db.dependencies == old(db.dependencies)
    {
      var acc := new IdSet();
      CollectParentIds(rule, acc);
      var parentIds := acc.ids;
      if segmentId in parentIds {
        return Some(SelfReference);
      }
      if parentIds == {} {
        db.dependencies := DeleteStale(db.dependencies, segmentId, {});
      } else {
        var kept := DeleteStale(db.dependencies, segmentId, parentIds);
        if !(parentIds <= db.segments.Keys) {
          return Some(UnknownParent);
        }
        db.dependencies := InsertMissing(kept, segmentId, parentIds);
      }
      assert forall p | p in parentIds :: Edge(p, segmentId) in db.dependencies;
      failure := None;
    }
  }
}

/**
 Several `replaceDependencies` calls for the same child and the same rule, their DELETE
 and INSERT statements interleaved in any way (apps/api/src/segments/dependency.service.ts:61-87).
 */
module DependencyRace {
  import opened SegmentRules
  import opened Tables
  import opened Dependency

  datatype Phase = Begun | Deleted | Finished

  datatype Race = Race(edges: set<Edge>, calls: seq<Phase>)

  /** The next statement of call `i`. With no parents to insert, the DELETE is the only one. */
  function Statement(r: Race, child: SegmentId, parents: set<SegmentId>, i: nat): Race
    requires i < |r.calls|
  {
    match r.calls[i]
    case Begun => Race(DeleteStale(r.edges, child, parents), r.calls[i := if parents == {} then Finished else Deleted])
    case Deleted => Race(InsertMissing(r.edges, child, parents), r.calls[i := Finished])
    case Finished => r
  }

  function Interleave(r: Race, child: SegmentId, parents: set<SegmentId>, schedule: seq<nat>): (r': Race)
    requires forall k | 0 <= k < |schedule| :: schedule[k] < |r.calls|
    ensures |r'.calls| == |r.calls|
    decreases |schedule|
  {
    if schedule == [] then r
    else Interleave(Statement(r, child, parents, schedule[0]), child, parents, schedule[1..])
  }

  /** Other children are untouched; one DELETE done means no stale edge; one INSERT done means no missing edge. */
  ghost predicate Invariant(before: set<Edge>, r: Race, child: SegmentId, parents: set<SegmentId>) {
    && (forall e: Edge | e.childId != child :: e in r.edges <==> e in before)
    && ((exists i | 0 <= i < |r.calls| :: !r.calls[i].Begun?) ==> Incoming(r.edges, child) <= parents)
    && ((exists i | 0 <= i < |r.calls| :: r.calls[i].Finished?) ==> forall p | p in parents :: Edge(p, child) in r.edges)
  }

  lemma StatementKeepsInvariant(before: set<Edge>, r: Race, child: SegmentId, parents: set<SegmentId>, i: nat)
    requires i < |r.calls| && Invariant(before, r, child, parents)
    ensures Invariant(before, Statement(r, child, parents, i), child, parents)
  {
    var r' := Statement(r, child, parents, i);
    if r.calls[i].Deleted? {
      assert !r.calls[i].Begun?;
    }
  }

  lemma {:induction false} InterleaveKeepsInvariant(before: set<Edge>, r: Race, child: SegmentId, parents: set<SegmentId>,
                                                    schedule: seq<nat>)
    requires forall k | 0 <= k < |schedule| :: schedule[k] < |r.calls|
    requires Invariant(before, r, child, parents)
    ensures Invariant(before, Interleave(r, child, parents, schedule), child, parents)
    decreases |schedule|
  {
    if schedule != [] {
      StatementKeepsInvariant(before, r, child, parents, schedule[0]);
      InterleaveKeepsInvariant(before, Statement(r, child, parents, schedule[0]), child, parents, schedule[1..]);
    }
  }

  /**
   Edge replacement under races: from any edge table, any number of racing calls and any
   interleaving that lets them all finish leave what one call alone would have left.
   */
  lemma RacingCallsAgree(before: set<Edge>, calls: nat, child: SegmentId, parents: set<SegmentId>, schedule: seq<nat>)
    requires calls > 0 && forall k | 0 <= k < |schedule| :: schedule[k] < calls
    requires var start := Race(before, seq(calls, _ => Begun));
             forall call | call in Interleave(start, child, parents, schedule).calls :: call.Finished?
    ensures Interleave(Race(before, seq(calls, _ => Begun)), child, parents, schedule).edges
         == WithIncoming(before, child, parents)
  {
    var start := Race(before, seq(calls, _ => Begun));
    InterleaveKeepsInvariant(before, start, child, parents, schedule);
    var end := Interleave(start, child, parents, schedule);
    assert end.calls[0] in end.calls;
    assert end.calls[0].Finished? && !end.calls[0].Begun?;
    assert Incoming(end.edges, child) == parents by {
      forall p | p in parents ensures p in Incoming(end.edges, child) { assert Edge(p, child) in end.edges; }
    }
    ReplacedUnique(before, end.edges, child, parents);
  }
}
