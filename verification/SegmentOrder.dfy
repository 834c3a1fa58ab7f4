/**
 The order in which a rebuild evaluates segments (`topoSort` in
 apps/api/src/segments/segment-evaluation.service.ts).
 */
module SegmentOrder {
  import opened Wrappers
  import opened SegmentRules
  import opened Tables
  import opened Dependency
  import opened Graph

  /** The references of the segments in a batch, restricted to the batch. */
  function ParentsOf(rows: seq<SegmentId>, segments: map<SegmentId, Segment>): (g: Graph)
    requires forall id | id in rows :: id in segments
  {
    map id | id in rows :: Refs(segments[id].rule) * Elements(rows)
  }

  /** `segments.find`: the first row not done yet whose parents are all done. */
  function FirstReady(rows: seq<SegmentId>, g: Graph, done: set<SegmentId>): (next: Option<SegmentId>)
    requires forall id | id in rows :: id in g
    ensures next.Some? ==> next.value in rows && next.value !in done && g[next.value] <= done
    ensures next.None? ==> forall id | id in rows && id !in done :: !(g[id] <= done)
  {
    if rows == [] then None
    else if rows[0] !in done && g[rows[0]] <= done then Some(rows[0])
    else
      var next := FirstReady(rows[1..], g, done);
      assert rows == [rows[0]] + rows[1..];
      next
  }

  /** The order, or the rows that no order can place. */
  function SortFrom(rows: seq<SegmentId>, g: Graph, result: seq<SegmentId>): Result<seq<SegmentId>, set<SegmentId>>
    requires forall id | id in rows :: id in g
    decreases |rows| - |result|
  {
    if |result| >= |rows| then Success(result)
    else
      var next := FirstReady(rows, g, Elements(result));
      if next.None? then Failure(Elements(rows) - Elements(result))
      else SortFrom(rows, g, result + [next.value])
  }

  function Sorted(rows: seq<SegmentId>, segments: map<SegmentId, Segment>): Result<seq<SegmentId>, set<SegmentId>>
    requires forall id | id in rows :: id in segments
  {
    SortFrom(rows, ParentsOf(rows, segments), [])
  }

  method BatchParents(rows: seq<SegmentId>, segments: map<SegmentId, Segment>) returns (parentsOf: Graph)
    requires forall id | id in rows :: id in segments
    ensures parentsOf == ParentsOf(rows, segments)
  {
    parentsOf := map[];
    for i := 0 to |rows|
      invariant parentsOf.Keys == Elements(rows[..i])
      invariant forall id | id in parentsOf :: id in segments && parentsOf[id] == Refs(segments[id].rule) * Elements(rows)
    {
      var acc := new IdSet();
      CollectParentIds(segments[rows[i]].rule, acc);
      parentsOf := parentsOf[rows[i] := acc.ids * Elements(rows)];
      assert rows[..i + 1] == rows[..i] + [rows[i]];
    }
    assert rows[..|rows|] == rows;
  }

  method FindReady(rows: seq<SegmentId>, g: Graph, done: set<SegmentId>) returns (next: Option<SegmentId>)
    requires forall id | id in rows :: id in g
    ensures next == FirstReady(rows, g, done)
  {
    for i := 0 to |rows|
      invariant FirstReady(rows[i..], g, done) == FirstReady(rows, g, done)
    {
      if rows[i] !in done && g[rows[i]] <= done {
        return Some(rows[i]);
      }
      assert rows[i..][1..] == rows[i + 1..];
    }
    next := None;
  }

  method TopoSort(rows: seq<SegmentId>, segments: map<SegmentId, Segment>)
    returns (answer: Result<seq<SegmentId>, set<SegmentId>>)
    requires forall id | id in rows :: id in segments
    ensures answer == Sorted(rows, segments)
  {
    var parentsOf := BatchParents(rows, segments);
    var result: seq<SegmentId> := [];
    var done: set<SegmentId> := {};
    while |result| < |rows|
      invariant done == Elements(result)
      invariant SortFrom(rows, parentsOf, result) == Sorted(rows, segments)
      decreases |rows| - |result|
    {
      var next := FindReady(rows, parentsOf, done);
      if next.None? {
        return Failure(Elements(rows) - done);
      }
      result := result + [next.value];
      done := done + {next.value};
    }
    answer := Success(result);
  }

  /** The rows placed so far are distinct and each came after its parents. */
  ghost predicate Placed(rows: seq<SegmentId>, g: Graph, result: seq<SegmentId>) {
    && Distinct(result)
    && Elements(result) <= Elements(rows)
    && forall i | 0 <= i < |result| :: ParentsDone(g, result, i)
  }

  lemma {:induction false} DistinctCount<T>(s: seq<T>)
    requires Distinct(s)
    ensures |Elements(s)| == |s|
  {
    if s != [] {
      var last := |s| - 1;
      DistinctCount(s[..last]);
      assert Elements(s) == Elements(s[..last]) + {s[last]};
    }
  }

  lemma SubsetOfSameSize<T>(a: set<T>, b: set<T>)
    requires a <= b && |a| >= |b|
    ensures a == b
  {
    if a != b {
      var x :| x in b && x !in a;
      assert a <= b - {x} && |b - {x}| == |b| - 1;
      SubsetSize(a, b - {x});
    }
  }

  lemma {:induction false} SubsetSize<T>(a: set<T>, b: set<T>)
    requires a <= b
    ensures |a| <= |b|
  {
    if x :| x in a {
      SubsetSize(a - {x}, b - {x});
    }
  }

  lemma PlaceNext(rows: seq<SegmentId>, g: Graph, result: seq<SegmentId>, next: SegmentId)
    requires Placed(rows, g, result)
    requires next in g && next in rows && next !in Elements(result) && g[next] <= Elements(result)
    ensures Placed(rows, g, result + [next])
  {
    var longer := result + [next];
    forall i | 0 <= i < |longer| ensures ParentsDone(g, longer, i) {
      if i < |result| {
        assert ParentsDone(g, result, i);
        assert longer[..i] == result[..i];
      } else {
        assert longer[..i] == result;
      }
    }
    forall i | 0 <= i < |result| ensures longer[i] != next { assert result[i] in Elements(result); }
  }

  lemma PlacedSize(rows: seq<SegmentId>, g: Graph, result: seq<SegmentId>)
    requires Distinct(rows) && Elements(rows) == g.Keys && Placed(rows, g, result) && |result| <= |rows|
    ensures |result| == |rows| ==> IsTopological(g, result)
    ensures |result| < |rows| ==> Elements(rows) - Elements(result) != {}
  {
    DistinctCount(rows);
    DistinctCount(result);
    if |result| == |rows| {
      SubsetOfSameSize(Elements(result), Elements(rows));
    } else if Elements(rows) - Elements(result) == {} {
      forall x | x in Elements(rows) ensures x in Elements(result) {
        assert x !in Elements(rows) - Elements(result);
      }
      SubsetSize(Elements(rows), Elements(result));
    }
  }

  lemma {:induction false} SortFromSoundAndComplete(rows: seq<SegmentId>, g: Graph, result: seq<SegmentId>)
    requires Distinct(rows) && Elements(rows) == g.Keys && Closed(g) && Placed(rows, g, result)
    requires |result| <= |rows|
    ensures match SortFrom(rows, g, result)
            case Success(order) => IsTopological(g, order)
            case Failure(stuck) => stuck != {} && stuck <= g.Keys && forall n | n in stuck :: g[n] * stuck != {}
    decreases |rows| - |result|
  {
    assert forall id | id in rows :: id in Elements(rows);
    PlacedSize(rows, g, result);
    if |result| < |rows| {
      var next := FirstReady(rows, g, Elements(result));
      if next.Some? {
        PlaceNext(rows, g, result, next.value);
        SortFromSoundAndComplete(rows, g, result + [next.value]);
      } else {
        var stuck := Elements(rows) - Elements(result);
        forall n | n in stuck ensures g[n] * stuck != {} {
          var p :| p in g[n] && p !in Elements(result);
          assert p in g[n] * stuck;
        }
      }
    }
  }

  /**
   The sort is sound and complete: it answers with a permutation of the rows that puts
   every in-batch parent before its child, or it throws, and it throws exactly when the
   in-batch references have a cycle.
   */
  lemma SortedIff(rows: seq<SegmentId>, segments: map<SegmentId, Segment>)
    requires Distinct(rows) && forall id | id in rows :: id in segments
    ensures Sorted(rows, segments).Failure? <==> !Acyclic(ParentsOf(rows, segments))
    ensures Sorted(rows, segments).Success? ==>
              && IsTopological(ParentsOf(rows, segments), Sorted(rows, segments).value)
              && multiset(Sorted(rows, segments).value) == multiset(rows)
  {
    var g := ParentsOf(rows, segments);
    assert Elements(rows) == g.Keys;
    SortFromSoundAndComplete(rows, g, []);
    match Sorted(rows, segments)
    case Success(order) =>
      TopologicalIsAcyclic(g, order);
      SameElementsPermute(order, rows);
    case Failure(stuck) =>
      StuckHasCycle(g, stuck);
  }

  lemma {:induction false} DistinctMultiset<T>(s: seq<T>)
    requires Distinct(s)
    ensures multiset(s) == multiset(Elements(s))
  {
    if s != [] {
      var last := |s| - 1;
      DistinctMultiset(s[..last]);
      assert s == s[..last] + [s[last]];
      assert Elements(s) == Elements(s[..last]) + {s[last]};
    }
  }

  lemma SameElementsPermute<T>(a: seq<T>, b: seq<T>)
    requires Distinct(a) && Distinct(b) && Elements(a) == Elements(b)
    ensures multiset(a) == multiset(b)
  {
    DistinctMultiset(a);
    DistinctMultiset(b);
  }
}
