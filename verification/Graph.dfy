/** Reference graphs: each node with the nodes it refers to, its parents. */
module Graph {
  import opened SegmentRules

  type Graph = map<SegmentId, set<SegmentId>>

  ghost predicate IsWalk(g: Graph, w: seq<SegmentId>) {
    && (forall i | 0 <= i < |w| :: w[i] in g)
    && (forall i | 0 < i < |w| :: w[i] in g[w[i - 1]])
  }

  /** A walk from child to parent that ends where it began. */
  ghost predicate IsCycle(g: Graph, c: seq<SegmentId>) {
    |c| > 1 && IsWalk(g, c) && c[0] == c[|c| - 1]
  }

  ghost predicate Acyclic(g: Graph) {
    forall c :: !IsCycle(g, c)
  }

  predicate Closed(g: Graph) {
    forall n | n in g :: g[n] <= g.Keys
  }

  function Elements<T>(s: seq<T>): set<T> {
    set x | x in s
  }

  predicate Distinct<T(==)>(s: seq<T>) {
    forall i, j | 0 <= i < j < |s| :: s[i] != s[j]
  }

  /** A listing of all nodes, each once, parents first. */
  ghost predicate IsTopological(g: Graph, order: seq<SegmentId>) {
    && Distinct(order)
    && Elements(order) == g.Keys
    && forall i | 0 <= i < |order| :: ParentsDone(g, order, i)
  }

  ghost predicate ParentsDone(g: Graph, order: seq<SegmentId>, i: nat)
    requires i < |order|
  {
    order[i] in g && g[order[i]] <= Elements(order[..i])
  }

  /** Along a walk, positions in a topological order strictly decrease. */
  lemma {:induction false} WalkGoesBack(g: Graph, order: seq<SegmentId>, w: seq<SegmentId>, from: nat) returns (to: nat)
    requires IsTopological(g, order) && IsWalk(g, w) && w != []
    requires from < |order| && order[from] == w[0]
    ensures to < |order| && order[to] == w[|w| - 1] && to <= from && (|w| > 1 ==> to < from)
    decreases |w|
  {
    if |w| == 1 {
      to := from;
    } else {
      assert ParentsDone(g, order, from);
      assert w[1] in g[w[0]];
      var next :| 0 <= next < from && order[next] == w[1];
      var rest := w[1..];
      assert forall i | 0 < i < |rest| :: rest[i] == w[i + 1] && rest[i - 1] == w[i];
      to := WalkGoesBack(g, order, rest, next);
    }
  }

  lemma TopologicalIsAcyclic(g: Graph, order: seq<SegmentId>)
    requires IsTopological(g, order)
    ensures Acyclic(g)
  {
    forall c | IsCycle(g, c)
      ensures false
    {
      assert c[0] in Elements(order);
      var from :| 0 <= from < |order| && order[from] == c[0];
      var to := WalkGoesBack(g, order, c, from);
    }
  }

  lemma {:induction false} Pigeonhole<T>(w: seq<T>, s: set<T>) returns (i: nat, j: nat)
    requires Elements(w) <= s && |w| > |s|
    ensures i < j < |w| && w[i] == w[j]
    decreases |w|
  {
    var last := |w| - 1;
    if k :| 0 <= k < last && w[k] == w[last] {
      i, j := k, last;
    } else {
      assert w[last] in Elements(w);
      forall x | x in Elements(w[..last]) ensures x in s - {w[last]} {
        assert x in Elements(w);
      }
      i, j := Pigeonhole(w[..last], s - {w[last]});
    }
  }

  lemma {:induction false} LongWalk(g: Graph, stuck: set<SegmentId>, length: nat) returns (w: seq<SegmentId>)
    requires stuck != {} && stuck <= g.Keys && length > 0
    requires forall n | n in stuck :: g[n] * stuck != {}
    ensures IsWalk(g, w) && Elements(w) <= stuck && |w| == length
  {
    if length == 1 {
      var n :| n in stuck;
      w := [n];
    } else {
      var shorter := LongWalk(g, stuck, length - 1);
      var last := shorter[|shorter| - 1];
      assert last in Elements(shorter);
      var p :| p in g[last] * stuck;
      w := shorter + [p];
    }
  }

  /** If each node of a non-empty set has a parent in the set, the graph has a cycle. */
  lemma StuckHasCycle(g: Graph, stuck: set<SegmentId>)
    requires stuck != {} && stuck <= g.Keys
    requires forall n | n in stuck :: g[n] * stuck != {}
    ensures !Acyclic(g)
  {
    var w := LongWalk(g, stuck, |stuck| + 1);
    var i, j := Pigeonhole(w, stuck);
    var c := w[i..j + 1];
    forall k | 0 < k < |c| ensures c[k] in g[c[k - 1]] {
      assert w[i + k] in g[w[i + k - 1]];
    }
    assert IsCycle(g, c);
  }

  /** Following references from `a` one can get to `b`. */
  ghost predicate Reaches(g: Graph, a: SegmentId, b: SegmentId) {
    exists w :: IsWalk(g, w) && w != [] && w[0] == a && w[|w| - 1] == b
  }

  lemma FirstAt(w: seq<SegmentId>, n: SegmentId) returns (i: nat)
    requires n in w
    ensures i < |w| && w[i] == n && n !in w[..i]
  {
    i := 0;
    while w[i] != n
      invariant i < |w| && n !in w[..i] && n in w[i..]
      decreases |w| - i
    {
      i := i + 1;
    }
  }

  /** A walk that leaves `n` nowhere is a walk of any graph that differs only in what `n` refers to. */
  lemma WalkElsewhere(g: Graph, g': Graph, w: seq<SegmentId>, n: SegmentId)
    requires IsWalk(g, w) && w != [] && n !in w[..|w| - 1]
    requires g'.Keys == g.Keys && forall m | m in g && m != n :: g'[m] == g[m]
    ensures IsWalk(g', w)
  {
    forall i | 0 < i < |w| ensures w[i] in g'[w[i - 1]] {
      assert w[i - 1] in w[..|w| - 1];
    }
  }

  lemma ReachingParentClosesCycle(g: Graph, n: SegmentId, parents: set<SegmentId>, p: SegmentId)
    requires n in g && p in parents && Reaches(g, p, n)
    ensures !Acyclic(g[n := parents])
  {
    var w :| IsWalk(g, w) && w != [] && w[0] == p && w[|w| - 1] == n;
    var i := FirstAt(w, n);
    var u := w[..i + 1];
    assert u[..|u| - 1] == w[..i];
    WalkElsewhere(g, g[n := parents], u, n);
    assert IsCycle(g[n := parents], [n] + u);
  }

  /** The same cycle, begun at its i-th node. */
  lemma Rotate(g: Graph, c: seq<SegmentId>, i: nat) returns (d: seq<SegmentId>)
    requires IsCycle(g, c) && i < |c|
    ensures IsCycle(g, d) && d[0] == c[i]
  {
    d := c[i..] + c[1..i + 1];
    var m := |c| - i;
    forall j | 0 < j < |d| ensures d[j] in g[d[j - 1]] {
      if j < m {
        assert c[i + j] in g[c[i + j - 1]];
      } else {
        assert d[j] == c[j - m + 1] && d[j - 1] == c[j - m];
      }
    }
  }

  lemma CycleNeedsReachingParent(g: Graph, n: SegmentId, parents: set<SegmentId>)
    requires Acyclic(g) && n in g && !Acyclic(g[n := parents])
    ensures exists p :: p in parents && Reaches(g, p, n)
  {
    var g' := g[n := parents];
    var c :| IsCycle(g', c);
    assert !IsCycle(g, c);
    if n !in c {
      WalkElsewhere(g', g, c, n);
      assert false;
    } else {
      var i :| 0 <= i < |c| && c[i] == n;
      var d := Rotate(g', c, i);
      var rest := d[1..];
      assert rest[|rest| - 1] == n;
      forall j | 0 < j < |rest| ensures rest[j] in g'[rest[j - 1]] { assert d[j + 1] in g'[d[j]]; }
      var j := FirstAt(rest, n);
      var u := rest[..j + 1];
      assert u[..|u| - 1] == rest[..j];
      WalkElsewhere(g', g, u, n);
      assert u[0] == d[1] && d[1] in g'[d[0]];
      assert Reaches(g, u[0], n);
    }
  }

  /** Redirecting one node of an acyclic graph leaves it acyclic exactly when none of its new parents reaches it. */
  lemma RedirectKeepsAcyclicIff(g: Graph, n: SegmentId, parents: set<SegmentId>)
    requires Acyclic(g) && n in g
    ensures Acyclic(g[n := parents]) <==> forall p | p in parents :: !Reaches(g, p, n)
  {
    if p :| p in parents && Reaches(g, p, n) {
      ReachingParentClosesCycle(g, n, parents, p);
    }
    if !Acyclic(g[n := parents]) {
      CycleNeedsReachingParent(g, n, parents);
    }
  }
}
