/**
 What the member table should be. A table is an answer when every DYNAMIC segment has
 exactly the members its rule asks for, given everyone else's. On an acyclic graph there
 is one answer for each choice of STATIC memberships, and a rebuild computes it.
 */
module Denotation {
  import opened SegmentRules
  import opened Evaluator
  import opened Tables
  import opened Dependency
  import opened Graph
  import opened SegmentOrder
  import opened SegmentEvaluation

  ghost predicate Consistent(segments: map<SegmentId, Segment>, metrics: MetricsTable, members: Membership, id: SegmentId)
    requires id in segments
  {
    MembersOf(members, id) == NewMembers(segments[id].rule, metrics, members)
  }

  ghost predicate IsAnswer(segments: map<SegmentId, Segment>, metrics: MetricsTable, members: Membership) {
    && members.Keys == segments.Keys
    && forall id | IsDynamic(segments, id) :: Consistent(segments, metrics, members, id)
  }

  ghost predicate SameStatics(segments: map<SegmentId, Segment>, m: Membership, m': Membership) {
    forall id | id in segments && !IsDynamic(segments, id) :: MembersOf(m, id) == MembersOf(m', id)
  }

  /** References among the DYNAMIC segments; STATIC ones never change by themselves. */
  function DynamicGraph(segments: map<SegmentId, Segment>): Graph {
    map id | id in DynamicIds(segments) :: Refs(segments[id].rule) * DynamicIds(segments)
  }

  /** Every segment that a DYNAMIC rule refers to exists. */
  ghost predicate References(segments: map<SegmentId, Segment>) {
    forall id | IsDynamic(segments, id) :: Refs(segments[id].rule) <= segments.Keys
  }

  lemma BatchIsDynamicGraph(segments: map<SegmentId, Segment>, rows: seq<SegmentId>)
    requires ListsDynamic(segments, rows)
    ensures forall id | id in rows :: id in segments
    ensures ParentsOf(rows, segments) == DynamicGraph(segments)
  {
    assert forall id | id in rows :: id in Elements(rows);
    assert forall id | id in DynamicIds(segments) :: id in Elements(rows) && id in rows;
  }

  lemma {:induction false} Listing(s: set<SegmentId>) returns (rows: seq<SegmentId>)
    ensures Distinct(rows) && Elements(rows) == s
  {
    if s == {} {
      rows := [];
    } else {
      var id :| id in s;
      var rest := Listing(s - {id});
      assert forall x | x in rest :: x in Elements(rest);
      rows := rest + [id];
      assert Elements(rows) == Elements(rest) + {id};
    }
  }

  lemma AcyclicHasOrder(segments: map<SegmentId, Segment>) returns (order: seq<SegmentId>)
    requires Acyclic(DynamicGraph(segments))
    ensures IsTopological(DynamicGraph(segments), order)
  {
    var rows := Listing(DynamicIds(segments));
    BatchIsDynamicGraph(segments, rows);
    SortedIff(rows, segments);
    order := Sorted(rows, segments).value;
  }

  /** A parent of a DYNAMIC segment comes earlier in the order or is STATIC (or absent). */
  lemma ParentsEarlier(segments: map<SegmentId, Segment>, order: seq<SegmentId>, i: nat, s: SegmentId)
    requires IsTopological(DynamicGraph(segments), order) && i < |order|
    ensures IsDynamic(segments, order[i])
    ensures s in Refs(segments[order[i]].rule) && IsDynamic(segments, s) ==> s in Elements(order[..i])
  {
    assert ParentsDone(DynamicGraph(segments), order, i);
  }

  lemma {:induction false} AnswersAgreeUpTo(segments: map<SegmentId, Segment>, metrics: MetricsTable, order: seq<SegmentId>,
                                            m: Membership, m': Membership, k: nat)
    requires IsTopological(DynamicGraph(segments), order) && k <= |order|
    requires IsAnswer(segments, metrics, m) && IsAnswer(segments, metrics, m') && SameStatics(segments, m, m')
    ensures forall id | id in order[..k] :: MembersOf(m, id) == MembersOf(m', id)
  {
    if k > 0 {
      AnswersAgreeUpTo(segments, metrics, order, m, m', k - 1);
      var id := order[k - 1];
      ParentsEarlier(segments, order, k - 1, id);
      forall s | s in Refs(segments[id].rule) ensures MembersOf(m, s) == MembersOf(m', s) {
        ParentsEarlier(segments, order, k - 1, s);
      }
      NewMembersFootprint(segments[id].rule, metrics, m, m');
      assert order[..k] == order[..k - 1] + [id];
    }
  }

  /** Uniqueness: on an acyclic graph, two answers with the same STATIC memberships are the same table. */
  lemma AnswerUnique(segments: map<SegmentId, Segment>, metrics: MetricsTable, m: Membership, m': Membership)
    requires Acyclic(DynamicGraph(segments))
    requires IsAnswer(segments, metrics, m) && IsAnswer(segments, metrics, m') && SameStatics(segments, m, m')
    ensures m == m'
  {
    var order := AcyclicHasOrder(segments);
    AnswersAgreeUpTo(segments, metrics, order, m, m', |order|);
    forall id | id in segments ensures m[id] == m'[id] {
      assert MembersOf(m, id) == m[id] && MembersOf(m', id) == m'[id];
      if IsDynamic(segments, id) {
        assert id in Elements(order) && id in order[..|order|];
      }
    }
  }

  lemma {:induction false} AnswersGrowUpTo(segments: map<SegmentId, Segment>, metrics: MetricsTable, order: seq<SegmentId>,
                                           m: Membership, m': Membership, k: nat)
    requires IsTopological(DynamicGraph(segments), order) && k <= |order|
    requires IsAnswer(segments, metrics, m) && IsAnswer(segments, metrics, m')
    requires forall id | id in segments && !IsDynamic(segments, id) :: MembersOf(m, id) <= MembersOf(m', id)
    ensures forall id | id in order[..k] :: MembersOf(m, id) <= MembersOf(m', id)
  {
    if k > 0 {
      AnswersGrowUpTo(segments, metrics, order, m, m', k - 1);
      var id := order[k - 1];
      ParentsEarlier(segments, order, k - 1, id);
      forall s | s in Refs(segments[id].rule) ensures MembersOf(m, s) <= MembersOf(m', s) {
        ParentsEarlier(segments, order, k - 1, s);
      }
      NewMembersMonotone(segments[id].rule, metrics, m, m');
      assert order[..k] == order[..k - 1] + [id];
    }
  }

  /** Monotonicity of the whole graph: larger STATIC memberships give larger answers, however deep the references. */
  lemma AnswersMonotone(segments: map<SegmentId, Segment>, metrics: MetricsTable, m: Membership, m': Membership)
    requires Acyclic(DynamicGraph(segments))
    requires IsAnswer(segments, metrics, m) && IsAnswer(segments, metrics, m')
    requires forall id | id in segments && !IsDynamic(segments, id) :: MembersOf(m, id) <= MembersOf(m', id)
    ensures forall id | id in segments :: MembersOf(m, id) <= MembersOf(m', id)
  {
    var order := AcyclicHasOrder(segments);
    AnswersGrowUpTo(segments, metrics, order, m, m', |order|);
    forall id | IsDynamic(segments, id) ensures MembersOf(m, id) <= MembersOf(m', id) {
      assert id in Elements(order) && id in order[..|order|];
    }
  }

  /** An acyclic graph has no self-reference. */
  lemma NoSelfReference(segments: map<SegmentId, Segment>, id: SegmentId)
    requires Acyclic(DynamicGraph(segments)) && IsDynamic(segments, id)
    ensures id !in Refs(segments[id].rule)
  {
    if id in Refs(segments[id].rule) {
      assert IsCycle(DynamicGraph(segments), [id, id]);
    }
  }

  /** With existing, acyclic references an evaluation of a DYNAMIC segment never throws. */
  lemma EvaluationSucceeds(t: TableState, id: SegmentId)
    requires References(t.segments) && Acyclic(DynamicGraph(t.segments)) && IsDynamic(t.segments, id)
    ensures EvaluationFailure(t, id, false).None?
  {
    NoSelfReference(t.segments, id);
  }

  /** Consistency of one segment depends on its own members and on those it refers to. */
  lemma ConsistencyFootprint(segments: map<SegmentId, Segment>, metrics: MetricsTable,
                             m: Membership, m': Membership, id: SegmentId)
    requires id in segments
    requires MembersOf(m, id) == MembersOf(m', id)
    requires forall s | s in Refs(segments[id].rule) :: MembersOf(m, s) == MembersOf(m', s)
    ensures Consistent(segments, metrics, m, id) <==> Consistent(segments, metrics, m', id)
  {
    NewMembersFootprint(segments[id].rule, metrics, m, m');
  }

  /** An evaluation makes its segment consistent, and disturbs only those that refer to it, if its members changed. */
  lemma EvaluationEffect(t: TableState, metrics: MetricsTable, id: SegmentId, force: bool)
    requires ForeignKeys(t) && EvaluationFailure(t, id, force).None?
    ensures var t' := AfterEvaluate(t, metrics, id, force);
            && Consistent(t.segments, metrics, t'.members, id)
            && (forall s | s != id :: MembersOf(t'.members, s) == MembersOf(t.members, s))
            && (forall s | s in t.segments && s != id && id !in Refs(t.segments[s].rule) ::
                  Consistent(t.segments, metrics, t'.members, s) <==> Consistent(t.segments, metrics, t.members, s))
            && Replaced(t.dependencies, t'.dependencies, id, Refs(t.segments[id].rule))
  {
    var t' := AfterEvaluate(t, metrics, id, force);
    NewMembersFootprint(t.segments[id].rule, metrics, t.members, t'.members);
    forall s | s in t.segments && s != id && id !in Refs(t.segments[s].rule)
      ensures Consistent(t.segments, metrics, t'.members, s) <==> Consistent(t.segments, metrics, t.members, s)
    {
      ConsistencyFootprint(t.segments, metrics, t.members, t'.members, s);
    }
  }

  /** The first `k` segments of the order are up to date, in members and in edges. */
  ghost predicate DoneUpTo(t: TableState, metrics: MetricsTable, order: seq<SegmentId>, k: nat)
    requires k <= |order|
  {
    forall j | 0 <= j < k :: UpToDate(t, metrics, order[j])
  }

  ghost predicate UpToDate(t: TableState, metrics: MetricsTable, id: SegmentId) {
    && id in t.segments
    && Consistent(t.segments, metrics, t.members, id)
    && Incoming(t.dependencies, id) == Refs(t.segments[id].rule)
  }

  lemma EvaluateNext(t: TableState, metrics: MetricsTable, order: seq<SegmentId>, k: nat)
    requires ForeignKeys(t) && References(t.segments)
    requires IsTopological(DynamicGraph(t.segments), order) && k < |order| && DoneUpTo(t, metrics, order, k)
    ensures EvaluationFailure(t, order[k], false).None?
    ensures DoneUpTo(AfterEvaluate(t, metrics, order[k], false), metrics, order, k + 1)
    ensures SameStatics(t.segments, t.members, AfterEvaluate(t, metrics, order[k], false).members)
  {
    TopologicalIsAcyclic(DynamicGraph(t.segments), order);
    ParentsEarlier(t.segments, order, k, order[k]);
    EvaluationSucceeds(t, order[k]);
    EvaluationEffect(t, metrics, order[k], false);
    var t' := AfterEvaluate(t, metrics, order[k], false);
    forall j | 0 <= j < k ensures UpToDate(t', metrics, order[j]) {
      assert UpToDate(t, metrics, order[j]) && order[j] != order[k];
      ParentsEarlier(t.segments, order, j, order[k]);
      assert Incoming(t'.dependencies, order[j]) == Incoming(t.dependencies, order[j]);
    }
  }

  lemma {:induction false} EvaluateAllCorrect(t: TableState, metrics: MetricsTable, order: seq<SegmentId>, k: nat)
    requires ForeignKeys(t) && References(t.segments)
    requires IsTopological(DynamicGraph(t.segments), order) && k <= |order| && DoneUpTo(t, metrics, order, k)
    ensures EvaluateAllFailure(t, metrics, order[k..]).None?
    ensures DoneUpTo(AfterEvaluateAll(t, metrics, order[k..]), metrics, order, |order|)
    ensures SameStatics(t.segments, t.members, AfterEvaluateAll(t, metrics, order[k..]).members)
    decreases |order| - k
  {
    if k < |order| {
      EvaluateNext(t, metrics, order, k);
      assert order[k..][1..] == order[k + 1..];
      EvaluateAllCorrect(AfterEvaluate(t, metrics, order[k], false), metrics, order, k + 1);
    }
  }

  /**
   Rebuild correctness: with existing references and no cycle, a rebuild does not throw,
   and leaves the answer for the STATIC memberships, which it does not touch, together
   with the edges of every DYNAMIC rule.
   */
  lemma RebuildCorrect(t: TableState, metrics: MetricsTable, rows: seq<SegmentId>)
    requires ForeignKeys(t) && References(t.segments) && ListsDynamic(t.segments, rows)
    requires Acyclic(DynamicGraph(t.segments))
    ensures RebuildFailure(t, metrics, rows).None?
    ensures IsAnswer(t.segments, metrics, AfterRebuild(t, metrics, rows).members)
    ensures SameStatics(t.segments, t.members, AfterRebuild(t, metrics, rows).members)
    ensures forall id | IsDynamic(t.segments, id) ::
              Incoming(AfterRebuild(t, metrics, rows).dependencies, id) == Refs(t.segments[id].rule)
  {
    BatchIsDynamicGraph(t.segments, rows);
    SortedIff(rows, t.segments);
    var order := Sorted(rows, t.segments).value;
    EvaluateAllCorrect(t, metrics, order, 0);
    assert order[0..] == order;
    forall id | IsDynamic(t.segments, id) ensures UpToDate(AfterRebuild(t, metrics, rows), metrics, id) {
      assert id in Elements(order);
      var j :| 0 <= j < |order| && order[j] == id;
    }
  }

  /** A rebuild throws before changing anything exactly when the DYNAMIC references have a cycle. */
  lemma RebuildRefusesCycles(t: TableState, metrics: MetricsTable, rows: seq<SegmentId>)
    requires ForeignKeys(t) && References(t.segments) && ListsDynamic(t.segments, rows)
    ensures RebuildFailure(t, metrics, rows).Some? <==> !Acyclic(DynamicGraph(t.segments))
    ensures RebuildFailure(t, metrics, rows).Some? ==> RebuildFailure(t, metrics, rows).value.Cycle?
    ensures RebuildFailure(t, metrics, rows).Some? ==> AfterRebuild(t, metrics, rows) == t
  {
    BatchIsDynamicGraph(t.segments, rows);
    SortedIff(rows, t.segments);
    if Acyclic(DynamicGraph(t.segments)) {
      RebuildCorrect(t, metrics, rows);
    }
  }

  /** Existence and uniqueness: exactly one table answers the rules for the given STATIC memberships. */
  lemma ExactlyOneAnswer(t: TableState, metrics: MetricsTable)
    requires ForeignKeys(t) && References(t.segments) && Acyclic(DynamicGraph(t.segments))
    ensures exists m :: IsAnswer(t.segments, metrics, m) && SameStatics(t.segments, t.members, m)
    ensures forall m, m' ::
              && IsAnswer(t.segments, metrics, m) && SameStatics(t.segments, t.members, m)
              && IsAnswer(t.segments, metrics, m') && SameStatics(t.segments, t.members, m')
              ==> m == m'
  {
    var rows := Listing(DynamicIds(t.segments));
    RebuildCorrect(t, metrics, rows);
    forall m, m' |
      && IsAnswer(t.segments, metrics, m) && SameStatics(t.segments, t.members, m)
      && IsAnswer(t.segments, metrics, m') && SameStatics(t.segments, t.members, m')
      ensures m == m'
    {
      AnswerUnique(t.segments, metrics, m, m');
    }
  }

  /** Enlarging STATIC memberships before a rebuild can only enlarge every membership after it. */
  lemma RebuildMonotone(t: TableState, t': TableState, metrics: MetricsTable, rows: seq<SegmentId>, rows': seq<SegmentId>)
    requires ForeignKeys(t) && ForeignKeys(t') && t.segments == t'.segments && References(t.segments)
    requires ListsDynamic(t.segments, rows) && ListsDynamic(t.segments, rows') && Acyclic(DynamicGraph(t.segments))
    requires forall id | id in t.segments && !IsDynamic(t.segments, id) ::
               MembersOf(t.members, id) <= MembersOf(t'.members, id)
    ensures forall id | id in t.segments ::
              MembersOf(AfterRebuild(t, metrics, rows).members, id) <= MembersOf(AfterRebuild(t', metrics, rows').members, id)
  {
    RebuildCorrect(t, metrics, rows);
    RebuildCorrect(t', metrics, rows');
    AnswersMonotone(t.segments, metrics, AfterRebuild(t, metrics, rows).members, AfterRebuild(t', metrics, rows').members);
  }

  /** Two tables that differ at most in how many batch ids were drawn. */
  ghost predicate Quiet(t: TableState, t': TableState) {
    t' == t.(batches := t'.batches)
  }

  lemma EvaluationQuiet(t: TableState, metrics: MetricsTable, id: SegmentId, force: bool)
    requires ForeignKeys(t) && (IsDynamic(t.segments, id) ==> UpToDate(t, metrics, id))
    requires id in t.segments && !IsDynamic(t.segments, id) ==> !force
    ensures Quiet(t, AfterEvaluate(t, metrics, id, force))
  {
    if EvaluationFailure(t, id, force).None? {
      var t' := AfterEvaluate(t, metrics, id, force);
      assert t.members == t.members[id := t.members[id]];
      var diff := Diff(t, metrics, id);
      assert IsEmpty(diff) && DeltaRows(diff) == {};
      ReplacedUnique(t.dependencies, t.dependencies, id, Refs(t.segments[id].rule));
    }
  }

  /** Once everything is up to date, evaluating any segments in any order writes no member, delta, edge or event. */
  lemma {:induction false} EvaluationsQuiet(t: TableState, metrics: MetricsTable, ids: seq<SegmentId>)
    requires ForeignKeys(t) && forall id | IsDynamic(t.segments, id) :: UpToDate(t, metrics, id)
    ensures Quiet(t, AfterEvaluateAll(t, metrics, ids))
    decreases |ids|
  {
    if ids != [] && EvaluationFailure(t, ids[0], false).None? {
      EvaluationQuiet(t, metrics, ids[0], false);
      var t' := AfterEvaluate(t, metrics, ids[0], false);
      forall id | IsDynamic(t.segments, id) ensures UpToDate(t', metrics, id) {
        assert UpToDate(t, metrics, id);
      }
      EvaluationsQuiet(t', metrics, ids[1..]);
    }
  }

  /** A second rebuild, in whatever order its query lists the segments, writes nothing. */
  lemma SecondRebuildQuiet(t: TableState, metrics: MetricsTable, rows: seq<SegmentId>, rows': seq<SegmentId>)
    requires ForeignKeys(t) && References(t.segments) && Acyclic(DynamicGraph(t.segments))
    requires ListsDynamic(t.segments, rows) && ListsDynamic(t.segments, rows')
    ensures Quiet(AfterRebuild(t, metrics, rows), AfterRebuild(AfterRebuild(t, metrics, rows), metrics, rows'))
  {
    RebuildCorrect(t, metrics, rows);
    var t' := AfterRebuild(t, metrics, rows);
    BatchIsDynamicGraph(t.segments, rows');
    SortedIff(rows', t.segments);
    EvaluationsQuiet(t', metrics, Sorted(rows', t.segments).value);
  }

  lemma NewNodeKeepsTopological(g: Graph, g': Graph, order: seq<SegmentId>, id: SegmentId)
    requires IsTopological(g, order) && id !in g && g'.Keys == g.Keys + {id} && g'[id] <= g.Keys
    requires forall n | n in g :: g'[n] == g[n]
    ensures IsTopological(g', order + [id])
  {
    var longer := order + [id];
    assert forall x | x in order :: x in Elements(order);
    assert Elements(longer) == Elements(order) + {id};
    forall i | 0 <= i < |longer| ensures ParentsDone(g', longer, i) {
      if i < |order| {
        assert ParentsDone(g, order, i);
        assert longer[..i] == order[..i];
      } else {
        assert longer[..i] == order;
      }
    }
  }

  /** A new segment that refers only to existing ones cannot close a cycle. */
  lemma NewSegmentKeepsAcyclic(segments: map<SegmentId, Segment>, id: SegmentId, segment: Segment)
    requires Acyclic(DynamicGraph(segments)) && References(segments)
    requires id !in segments && Refs(segment.rule) <= segments.Keys
    ensures Acyclic(DynamicGraph(segments[id := segment])) && References(segments[id := segment])
  {
    var g, g' := DynamicGraph(segments), DynamicGraph(segments[id := segment]);
    forall n | IsDynamic(segments, n) ensures n in g' && g'[n] == g[n] {
      assert id !in Refs(segments[n].rule);
    }
    if segment.kind.STATIC? {
      assert g' == g;
    } else {
      var order := AcyclicHasOrder(segments);
      NewNodeKeepsTopological(g, g', order, id);
      TopologicalIsAcyclic(g', order + [id]);
    }
  }
}
