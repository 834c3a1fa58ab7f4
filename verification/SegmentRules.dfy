/**
 The rule language shared by the API and the UI (packages/shared/src/segment-rules.ts),
 together with the numbers its comparisons work on.
 */
module SegmentRules {
  import opened Wrappers

  type SegmentId = string
  type CustomerId = string

  /** Who is in which segment. A segment without an entry has no member rows. */
  type Membership = map<SegmentId, set<CustomerId>>

  /** A JavaScript number, without its rounding. */
  datatype Number = Finite(value: real) | PosInfinity | NegInfinity | NaN

  datatype CustomerMetric = TxCount30d | TxCountTotal | SumAmount60d | LastTxAgeDays

  datatype ComparisonOp = Gt | Ge | Lt | Le | Eq | Ne

  datatype SegmentRule =
    | Compare(metric: CustomerMetric, op: ComparisonOp, value: Number)
    | InSegment(segmentId: SegmentId)
    | And(children: seq<SegmentRule>)

  /** One customer's aggregates. The age is PosInfinity for a customer without transactions. */
  datatype CustomerMetrics = CustomerMetrics(
    txCount30d: nat,
    txCountTotal: nat,
    sumAmount60d: real,
    lastTxAgeDays: Number)
  {
    function Get(metric: CustomerMetric): Number {
      match metric
      case TxCount30d => Finite(txCount30d as real)
      case TxCountTotal => Finite(txCountTotal as real)
      case SumAmount60d => Finite(sumAmount60d)
      case LastTxAgeDays => lastTxAgeDays
    }
  }

  type MetricsTable = map<CustomerId, CustomerMetrics>

  /** The segments a rule refers to, anywhere in its tree. */
  function Refs(rule: SegmentRule): set<SegmentId> {
    match rule
    case Compare(_, _, _) => {}
    case InSegment(s) => {s}
    case And(children) => set child, s | child in children && s in Refs(child) :: s
  }

  /** The node that the child indices in `path` lead to. */
  function NodeAt(rule: SegmentRule, path: seq<nat>): Option<SegmentRule>
    decreases |path|
  {
    if path == [] then Some(rule)
    else if rule.And? && path[0] < |rule.children| then NodeAt(rule.children[path[0]], path[1..])
    else None
  }

  lemma {:induction false} NamedIsReferredTo(rule: SegmentRule, path: seq<nat>, s: SegmentId)
    requires NodeAt(rule, path) == Some(InSegment(s))
    ensures s in Refs(rule)
    decreases |path|
  {
    if path != [] {
      NamedIsReferredTo(rule.children[path[0]], path[1..], s);
      assert rule.children[path[0]] in rule.children;
    }
  }

  lemma {:induction false} ReferredToIsNamed(rule: SegmentRule, s: SegmentId) returns (path: seq<nat>)
    requires s in Refs(rule)
    ensures NodeAt(rule, path) == Some(InSegment(s))
    decreases rule
  {
    path := [];
    if rule.And? {
      var child :| child in rule.children && s in Refs(child);
      var i: nat :| i < |rule.children| && rule.children[i] == child;
      var below := ReferredToIsNamed(child, s);
      path := [i] + below;
      assert path[1..] == below;
    }
  }

  /** A rule refers to exactly the segments that its `in_segment` nodes name, at any depth. */
  lemma RefsAreNamed(rule: SegmentRule, s: SegmentId)
    ensures s in Refs(rule) <==> exists path :: NodeAt(rule, path) == Some(InSegment(s))
  {
    if s in Refs(rule) {
      var path := ReferredToIsNamed(rule, s);
    }
    if path :| NodeAt(rule, path) == Some(InSegment(s)) {
      NamedIsReferredTo(rule, path, s);
    }
  }
}
