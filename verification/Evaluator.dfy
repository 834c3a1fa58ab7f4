/**
 The rule evaluator (apps/api/src/segments/evaluator.service.ts) and its meaning.
 `Evaluate` follows the code: it walks `and` nodes from the left, stops at the first
 false child and throws when a referenced membership was not loaded. `Holds` is the
 meaning: a conjunction over all children, with no order and no failure.
 */
module Evaluator {
  import opened Wrappers
  import opened SegmentRules

  datatype EvaluatorError = MembershipNotLoaded(segmentId: SegmentId)

  /** The `<` of JavaScript numbers: false as soon as one side is NaN. */
  predicate Less(a: Number, b: Number) {
    match (a, b)
    case (Finite(x), Finite(y)) => x < y
    case (NegInfinity, Finite(_)) => true
    case (NegInfinity, PosInfinity) => true
    case (Finite(_), PosInfinity) => true
    case (_, _) => false
  }

  /** The `===` of JavaScript numbers: NaN differs from itself. */
  predicate Same(a: Number, b: Number) {
    a == b && !a.NaN?
  }

  predicate ApplyOp(left: Number, op: ComparisonOp, right: Number) {
    match op
    case Gt => Less(right, left)
    case Ge => Less(right, left) || Same(left, right)
    case Lt => Less(left, right)
    case Le => Less(left, right) || Same(left, right)
    case Eq => Same(left, right)
    case Ne => !Same(left, right)
  }

  /** On finite numbers the operators are the usual ones. */
  lemma OperatorsOnFinite(x: real, y: real)
    ensures ApplyOp(Finite(x), Gt, Finite(y)) <==> x > y
    ensures ApplyOp(Finite(x), Ge, Finite(y)) <==> x >= y
    ensures ApplyOp(Finite(x), Lt, Finite(y)) <==> x < y
    ensures ApplyOp(Finite(x), Le, Finite(y)) <==> x <= y
    ensures ApplyOp(Finite(x), Eq, Finite(y)) <==> x == y
    ensures ApplyOp(Finite(x), Ne, Finite(y)) <==> x != y
  {
  }

  /**
   A customer without transactions is older than any threshold: an infinite age passes exactly
   the comparisons `>`, `>=` and `!=` with a finite number. Comparisons come in complementary
   pairs except that NaN passes none but `!=`.
   */
  lemma OperatorsBeyondFinite(a: Number, b: Number, y: real, op: ComparisonOp)
    ensures ApplyOp(PosInfinity, op, Finite(y)) <==> op in {Gt, Ge, Ne}
    ensures !a.NaN? && !b.NaN? ==> (ApplyOp(a, Gt, b) <==> !ApplyOp(a, Le, b)) && (ApplyOp(a, Lt, b) <==> !ApplyOp(a, Ge, b))
    ensures a.NaN? || b.NaN? ==> (ApplyOp(a, op, b) <==> op == Ne)
  {
  }

  function Evaluate(rule: SegmentRule, metrics: CustomerMetrics, parents: Membership, customer: CustomerId)
    : Result<bool, EvaluatorError>
    decreases rule, 1
  {
    match rule
    case Compare(metric, op, value) => Success(ApplyOp(metrics.Get(metric), op, value))
    case InSegment(s) =>
      if s in parents then Success(customer in parents[s]) else Failure(MembershipNotLoaded(s))
    case And(children) => EvaluateEvery(children, metrics, parents, customer)
  }

  /** JavaScript's `every`: left to right, stopping at the first false or at a throw. */
  function EvaluateEvery(rules: seq<SegmentRule>, metrics: CustomerMetrics, parents: Membership, customer: CustomerId)
    : Result<bool, EvaluatorError>
    decreases rules, 0
  {
    if rules == [] then
      Success(true)
    else
      var first := Evaluate(rules[0], metrics, parents, customer);
      if first == Success(true) then EvaluateEvery(rules[1..], metrics, parents, customer) else first
  }

  /** A comparison reads the metric it names: the 30-day count, */
  lemma ComparesCount30d(m: CustomerMetrics, parents: Membership, c: CustomerId, y: real)
    ensures Evaluate(Compare(TxCount30d, Gt, Finite(y)), m, parents, c) == Success(m.txCount30d as real > y)
    ensures Evaluate(Compare(TxCount30d, Ge, Finite(y)), m, parents, c) == Success(m.txCount30d as real >= y)
    ensures Evaluate(Compare(TxCount30d, Lt, Finite(y)), m, parents, c) == Success(m.txCount30d as real < y)
    ensures Evaluate(Compare(TxCount30d, Le, Finite(y)), m, parents, c) == Success(m.txCount30d as real <= y)
    ensures Evaluate(Compare(TxCount30d, Eq, Finite(y)), m, parents, c) == Success(m.txCount30d as real == y)
    ensures Evaluate(Compare(TxCount30d, Ne, Finite(y)), m, parents, c) == Success(m.txCount30d as real != y)
  {
  }

  /** the count of all transactions, */
  lemma ComparesCountTotal(m: CustomerMetrics, parents: Membership, c: CustomerId, y: real)
    ensures Evaluate(Compare(TxCountTotal, Gt, Finite(y)), m, parents, c) == Success(m.txCountTotal as real > y)
    ensures Evaluate(Compare(TxCountTotal, Ge, Finite(y)), m, parents, c) == Success(m.txCountTotal as real >= y)
    ensures Evaluate(Compare(TxCountTotal, Lt, Finite(y)), m, parents, c) == Success(m.txCountTotal as real < y)
    ensures Evaluate(Compare(TxCountTotal, Le, Finite(y)), m, parents, c) == Success(m.txCountTotal as real <= y)
    ensures Evaluate(Compare(TxCountTotal, Eq, Finite(y)), m, parents, c) == Success(m.txCountTotal as real == y)
    ensures Evaluate(Compare(TxCountTotal, Ne, Finite(y)), m, parents, c) == Success(m.txCountTotal as real != y)
  {
  }

  /** the 60-day sum, */
  lemma ComparesSum60d(m: CustomerMetrics, parents: Membership, c: CustomerId, y: real)
    ensures Evaluate(Compare(SumAmount60d, Gt, Finite(y)), m, parents, c) == Success(m.sumAmount60d > y)
    ensures Evaluate(Compare(SumAmount60d, Ge, Finite(y)), m, parents, c) == Success(m.sumAmount60d >= y)
    ensures Evaluate(Compare(SumAmount60d, Lt, Finite(y)), m, parents, c) == Success(m.sumAmount60d < y)
    ensures Evaluate(Compare(SumAmount60d, Le, Finite(y)), m, parents, c) == Success(m.sumAmount60d <= y)
    ensures Evaluate(Compare(SumAmount60d, Eq, Finite(y)), m, parents, c) == Success(m.sumAmount60d == y)
    ensures Evaluate(Compare(SumAmount60d, Ne, Finite(y)), m, parents, c) == Success(m.sumAmount60d != y)
  {
  }

  /** and the age of the last transaction, infinite without one. */
  lemma ComparesAge(m: CustomerMetrics, parents: Membership, c: CustomerId, y: real)
    requires m.lastTxAgeDays.Finite?
    ensures Evaluate(Compare(LastTxAgeDays, Gt, Finite(y)), m, parents, c) == Success(m.lastTxAgeDays.value > y)
    ensures Evaluate(Compare(LastTxAgeDays, Ge, Finite(y)), m, parents, c) == Success(m.lastTxAgeDays.value >= y)
    ensures Evaluate(Compare(LastTxAgeDays, Lt, Finite(y)), m, parents, c) == Success(m.lastTxAgeDays.value < y)
    ensures Evaluate(Compare(LastTxAgeDays, Le, Finite(y)), m, parents, c) == Success(m.lastTxAgeDays.value <= y)
    ensures Evaluate(Compare(LastTxAgeDays, Eq, Finite(y)), m, parents, c) == Success(m.lastTxAgeDays.value == y)
    ensures Evaluate(Compare(LastTxAgeDays, Ne, Finite(y)), m, parents, c) == Success(m.lastTxAgeDays.value != y)
  {
  }

  lemma ComparesNoTransaction(m: CustomerMetrics, parents: Membership, c: CustomerId, y: real)
    requires m.lastTxAgeDays == PosInfinity
    ensures Evaluate(Compare(LastTxAgeDays, Gt, Finite(y)), m, parents, c) == Success(true)
    ensures Evaluate(Compare(LastTxAgeDays, Ge, Finite(y)), m, parents, c) == Success(true)
    ensures Evaluate(Compare(LastTxAgeDays, Lt, Finite(y)), m, parents, c) == Success(false)
    ensures Evaluate(Compare(LastTxAgeDays, Le, Finite(y)), m, parents, c) == Success(false)
    ensures Evaluate(Compare(LastTxAgeDays, Eq, Finite(y)), m, parents, c) == Success(false)
    ensures Evaluate(Compare(LastTxAgeDays, Ne, Finite(y)), m, parents, c) == Success(true)
  {
  }

  /** An `in_segment` node asks for membership, and throws if the segment was not loaded. */
  lemma LooksUpMembership(s: SegmentId, m: CustomerMetrics, parents: Membership, c: CustomerId)
    ensures Evaluate(InSegment(s), m, parents, c).Success? <==> s in parents
    ensures s !in parents ==> Evaluate(InSegment(s), m, parents, c) == Failure(MembershipNotLoaded(s))
    ensures s in parents ==> (Evaluate(InSegment(s), m, parents, c) == Success(true) <==> c in parents[s])
  {
  }

  /** An `and` node is true exactly when each child is, and otherwise answers as its first child that is not. */
  lemma NeedsEveryChild(children: seq<SegmentRule>, m: CustomerMetrics, parents: Membership, c: CustomerId)
    ensures Evaluate(And(children), m, parents, c) == Success(true)
      <==> forall i | 0 <= i < |children| :: Evaluate(children[i], m, parents, c) == Success(true)
    ensures forall i | 0 <= i < |children| && Evaluate(children[i], m, parents, c) != Success(true)
                       && (forall j | 0 <= j < i :: Evaluate(children[j], m, parents, c) == Success(true)) ::
              Evaluate(And(children), m, parents, c) == Evaluate(children[i], m, parents, c)
  {
    EveryStopsAtFirst(children, m, parents, c);
  }

  lemma {:induction false} EveryStopsAtFirst(rules: seq<SegmentRule>, m: CustomerMetrics, parents: Membership, c: CustomerId)
    ensures EvaluateEvery(rules, m, parents, c) == Success(true)
      <==> forall i | 0 <= i < |rules| :: Evaluate(rules[i], m, parents, c) == Success(true)
    ensures forall i | 0 <= i < |rules| && Evaluate(rules[i], m, parents, c) != Success(true)
                       && (forall j | 0 <= j < i :: Evaluate(rules[j], m, parents, c) == Success(true)) ::
              EvaluateEvery(rules, m, parents, c) == Evaluate(rules[i], m, parents, c)
    decreases |rules|
  {
    if rules != [] {
      EveryStopsAtFirst(rules[1..], m, parents, c);
      assert forall i | 0 < i < |rules| :: rules[i] == rules[1..][i - 1];
      assert forall i | 0 <= i < |rules| - 1 :: rules[1..][i] == rules[i + 1];
    }
  }

  /** What a rule means for one customer, given everyone's memberships. */
  predicate Holds(rule: SegmentRule, metrics: CustomerMetrics, members: Membership, customer: CustomerId) {
    match rule
    case Compare(metric, op, value) => ApplyOp(metrics.Get(metric), op, value)
    case InSegment(s) => s in members && customer in members[s]
    case And(children) => forall child | child in children :: Holds(child, metrics, members, customer)
  }

  /** The members a rule asks for. */
  function NewMembers(rule: SegmentRule, metrics: MetricsTable, members: Membership): set<CustomerId> {
    set c | c in metrics && Holds(rule, metrics[c], members, c)
  }

  /** Whether two memberships say the same about every segment in `ids`. */
  ghost predicate AgreeOn(ids: set<SegmentId>, m: Membership, m': Membership) {
    forall s | s in ids :: (s in m <==> s in m') && (s in m ==> m[s] == m'[s])
  }

  /**
   Footprint: the evaluator's answer, thrown errors included, depends on a
   membership map only through the segments the rule refers to.
   */
  lemma {:induction false} EvaluateFootprint(rule: SegmentRule, metrics: CustomerMetrics,
                                             m: Membership, m': Membership, customer: CustomerId)
    requires AgreeOn(Refs(rule), m, m')
    ensures Evaluate(rule, metrics, m, customer) == Evaluate(rule, metrics, m', customer)
    decreases rule, 1
  {
    if rule.And? {
      EvaluateEveryFootprint(rule, rule.children, metrics, m, m', customer);
    }
  }

  lemma {:induction false} EvaluateEveryFootprint(rule: SegmentRule, rules: seq<SegmentRule>, metrics: CustomerMetrics,
                                                  m: Membership, m': Membership, customer: CustomerId)
    requires rule.And? && forall r | r in rules :: r in rule.children
    requires AgreeOn(Refs(rule), m, m')
    ensures EvaluateEvery(rules, metrics, m, customer) == EvaluateEvery(rules, metrics, m', customer)
    decreases rule, 0, |rules|
  {
    if rules != [] {
      assert rules[0] in rule.children;
      assert Refs(rules[0]) <= Refs(rule);
      EvaluateFootprint(rules[0], metrics, m, m', customer);
      EvaluateEveryFootprint(rule, rules[1..], metrics, m, m', customer);
    }
  }

  /**
   Adequacy: once every referenced segment is loaded, the evaluator never reaches its
   "no membership was loaded" throw, and its short-circuiting answer is the meaning.
   */
  lemma {:induction false} EvaluateMeansHolds(rule: SegmentRule, metrics: CustomerMetrics,
                                              parents: Membership, customer: CustomerId)
    requires Refs(rule) <= parents.Keys
    ensures Evaluate(rule, metrics, parents, customer) == Success(Holds(rule, metrics, parents, customer))
    decreases rule, 1
  {
    if rule.And? {
      EvaluateEveryMeansHolds(rule, rule.children, metrics, parents, customer);
    }
  }

  lemma {:induction false} EvaluateEveryMeansHolds(rule: SegmentRule, rules: seq<SegmentRule>, metrics: CustomerMetrics,
                                                   parents: Membership, customer: CustomerId)
    requires rule.And? && forall r | r in rules :: r in rule.children
    requires Refs(rule) <= parents.Keys
    ensures EvaluateEvery(rules, metrics, parents, customer)
         == Success(forall r | r in rules :: Holds(r, metrics, parents, customer))
    decreases rule, 0, |rules|
  {
    if rules != [] {
      assert rules[0] in rule.children;
      assert Refs(rules[0]) <= Refs(rule);
      EvaluateMeansHolds(rules[0], metrics, parents, customer);
      EvaluateEveryMeansHolds(rule, rules[1..], metrics, parents, customer);
      assert rules == [rules[0]] + rules[1..];
    }
  }

  /** The meaning has the same footprint; a segment without an entry counts as empty. */
  lemma {:induction false} HoldsFootprint(rule: SegmentRule, metrics: CustomerMetrics,
                                          m: Membership, m': Membership, customer: CustomerId)
    requires forall s | s in Refs(rule) :: MembersOf(m, s) == MembersOf(m', s)
    ensures Holds(rule, metrics, m, customer) == Holds(rule, metrics, m', customer)
  {
    match rule
    case Compare(_, _, _) =>
    case InSegment(s) => assert MembersOf(m, s) == MembersOf(m', s);
    case And(children) =>
      forall child | child in children
        ensures Holds(child, metrics, m, customer) == Holds(child, metrics, m', customer)
      {
        assert Refs(child) <= Refs(rule);
        HoldsFootprint(child, metrics, m, m', customer);
      }
  }

  function MembersOf(m: Membership, s: SegmentId): set<CustomerId> {
    if s in m then m[s] else {}
  }

  lemma NewMembersFootprint(rule: SegmentRule, metrics: MetricsTable, m: Membership, m': Membership)
    requires forall s | s in Refs(rule) :: MembersOf(m, s) == MembersOf(m', s)
    ensures NewMembers(rule, metrics, m) == NewMembers(rule, metrics, m')
  {
    forall c | c in metrics
      ensures Holds(rule, metrics[c], m, c) == Holds(rule, metrics[c], m', c)
    {
      HoldsFootprint(rule, metrics[c], m, m', c);
    }
  }

  /** Rules have no negation over membership: more parents' members, more members. */
  lemma {:induction false} HoldsMonotone(rule: SegmentRule, metrics: CustomerMetrics,
                                         m: Membership, m': Membership, customer: CustomerId)
    requires forall s | s in Refs(rule) :: MembersOf(m, s) <= MembersOf(m', s)
    requires Holds(rule, metrics, m, customer)
    ensures Holds(rule, metrics, m', customer)
  {
    match rule
    case Compare(_, _, _) =>
    case InSegment(s) => assert MembersOf(m, s) <= MembersOf(m', s);
    case And(children) =>
      forall child | child in children
        ensures Holds(child, metrics, m', customer)
      {
        assert Refs(child) <= Refs(rule);
        HoldsMonotone(child, metrics, m, m', customer);
      }
  }

  lemma NewMembersMonotone(rule: SegmentRule, metrics: MetricsTable, m: Membership, m': Membership)
    requires forall s | s in Refs(rule) :: MembersOf(m, s) <= MembersOf(m', s)
    ensures NewMembers(rule, metrics, m) <= NewMembers(rule, metrics, m')
  {
    forall c | c in NewMembers(rule, metrics, m)
      ensures c in NewMembers(rule, metrics, m')
    {
      HoldsMonotone(rule, metrics[c], m, m', c);
    }
  }
}
