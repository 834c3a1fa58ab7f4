/**
 Admission of rules arriving as JSON (`validateRule` in
 apps/api/src/segments/segments.controller.ts).
 */
module RuleValidator {
  import opened Wrappers
  import opened SegmentRules

  datatype Json =
    | JNull
    | JBool(b: bool)
    | JNumber(n: Number)
    | JString(s: string)
    | JArray(elements: seq<Json>)
    | JObject(fields: map<string, Json>)

  datatype Problem =
    | TooDeep | NotAnObject | BadKind
    | BadMetric | BadOp | BadValue
    | BadSegmentId | BadChildren

  /** The 400 answer. The path holds the child indices that lead from the root to the blamed node. */
  datatype BadRequest = BadRequest(path: seq<nat>, problem: Problem)

  const MAX_DEPTH: nat := 32

  /** The value of a property; arrays and primitives have none of the properties read here. */
  function Field(node: Json, name: string): Option<Json> {
    if node.JObject? && name in node.fields then Some(node.fields[name]) else None
  }

  function MetricName(metric: CustomerMetric): string {
    match metric
    case TxCount30d => "tx_count_30d"
    case TxCountTotal => "tx_count_total"
    case SumAmount60d => "sum_amount_60d"
    case LastTxAgeDays => "last_tx_age_days"
  }

  function ParseMetric(field: Option<Json>): Option<CustomerMetric> {
    if field == Some(JString("tx_count_30d")) then Some(TxCount30d)
    else if field == Some(JString("tx_count_total")) then Some(TxCountTotal)
    else if field == Some(JString("sum_amount_60d")) then Some(SumAmount60d)
    else if field == Some(JString("last_tx_age_days")) then Some(LastTxAgeDays)
    else None
  }

  function OpName(op: ComparisonOp): string {
    match op
    case Gt => ">"
    case Ge => ">="
    case Lt => "<"
    case Le => "<="
    case Eq => "=="
    case Ne => "!="
  }

  function ParseOp(field: Option<Json>): Option<ComparisonOp> {
    if field == Some(JString(">")) then Some(Gt)
    else if field == Some(JString(">=")) then Some(Ge)
    else if field == Some(JString("<")) then Some(Lt)
    else if field == Some(JString("<=")) then Some(Le)
    else if field == Some(JString("==")) then Some(Eq)
    else if field == Some(JString("!=")) then Some(Ne)
    else None
  }

  function Left(depth: nat): nat {
    if depth > MAX_DEPTH then 0 else MAX_DEPTH + 1 - depth
  }

  function Validate(input: Json, path: seq<nat>, depth: nat): Result<SegmentRule, BadRequest>
    decreases Left(depth), 1, 0
  {
    if depth > MAX_DEPTH then
      Failure(BadRequest(path, TooDeep))
    else if !input.JArray? && !input.JObject? then
      Failure(BadRequest(path, NotAnObject))
    else
      var kind := Field(input, "kind");
      if kind == Some(JString("compare")) then
        var metric, op, value := ParseMetric(Field(input, "metric")), ParseOp(Field(input, "op")), Field(input, "value");
        if metric.None? then
          Failure(BadRequest(path, BadMetric))
        else if op.None? then
          Failure(BadRequest(path, BadOp))
        else if value.None? || !value.value.JNumber? || !value.value.n.Finite? then
          Failure(BadRequest(path, BadValue))
        else
          Success(Compare(metric.value, op.value, value.value.n))
      else if kind == Some(JString("in_segment")) then
        var id := Field(input, "segmentId");
        if id.None? || !id.value.JString? || id.value.s == "" then
          Failure(BadRequest(path, BadSegmentId))
        else
          Success(InSegment(id.value.s))
      else if kind == Some(JString("and")) then
        var list := Field(input, "children");
        if list.None? || !list.value.JArray? || list.value.elements == [] then
          Failure(BadRequest(path, BadChildren))
        else
          var children := ValidateFrom(list.value.elements, 0, path, depth);
          if children.Failure? then Failure(children.error) else Success(And(children.value))
      else
        Failure(BadRequest(path, BadKind))
  }

  /** The `map` over the children: the first failing child decides. */
  function ValidateFrom(elements: seq<Json>, i: nat, path: seq<nat>, depth: nat): Result<seq<SegmentRule>, BadRequest>
    requires i <= |elements| && depth <= MAX_DEPTH
    decreases Left(depth), 0, |elements| - i
  {
    if i == |elements| then
      Success([])
    else
      var first := Validate(elements[i], path + [i], depth + 1);
      if first.Failure? then Failure(first.error)
      else
        var rest := ValidateFrom(elements, i + 1, path, depth);
        if rest.Failure? then Failure(rest.error) else Success([first.value] + rest.value)
  }

  /** What the validator promises about the rules it lets through. */
  predicate WellFormed(rule: SegmentRule, depth: nat) {
    depth <= MAX_DEPTH &&
    match rule
    case Compare(_, _, value) => value.Finite?
    case InSegment(s) => s != ""
    case And(children) => children != [] && forall child | child in children :: WellFormed(child, depth + 1)
  }

  /** `input` spells `rule`: it has the properties the rule needs, and perhaps others. */
  ghost predicate Denotes(input: Json, rule: SegmentRule)
    decreases rule
  {
    match rule
    case Compare(metric, op, value) =>
      && Field(input, "kind") == Some(JString("compare"))
      && Field(input, "metric") == Some(JString(MetricName(metric)))
      && Field(input, "op") == Some(JString(OpName(op)))
      && Field(input, "value") == Some(JNumber(value))
    case InSegment(s) =>
      && Field(input, "kind") == Some(JString("in_segment"))
      && Field(input, "segmentId") == Some(JString(s))
    case And(children) =>
      && Field(input, "kind") == Some(JString("and"))
      && exists elements: seq<Json> ::
           && Field(input, "children") == Some(JArray(elements))
           && |elements| == |children|
           && forall i | 0 <= i < |children| :: Denotes(elements[i], children[i])
  }

  /** The JSON that the API itself stores for a rule. */
  function ToJson(rule: SegmentRule): Json {
    match rule
    case Compare(metric, op, value) =>
      JObject(map["kind" := JString("compare"), "metric" := JString(MetricName(metric)),
                  "op" := JString(OpName(op)), "value" := JNumber(value)])
    case InSegment(s) =>
      JObject(map["kind" := JString("in_segment"), "segmentId" := JString(s)])
    case And(children) =>
      JObject(map["kind" := JString("and"),
                  "children" := JArray(seq(|children|, i requires 0 <= i < |children| => ToJson(children[i])))])
  }

  lemma NamesParse(metric: CustomerMetric, op: ComparisonOp, field: Option<Json>)
    ensures ParseMetric(field) == Some(metric) <==> field == Some(JString(MetricName(metric)))
    ensures ParseOp(field) == Some(op) <==> field == Some(JString(OpName(op)))
  {
    var a, b, c, d := "tx_count_30d", "tx_count_total", "sum_amount_60d", "last_tx_age_days";
    assert |a| == 12 && |b| == 14 && |c| == 14 && |d| == 16 && b[0] != c[0];
    var gt, ge, lt, le, eq, ne := ">", ">=", "<", "<=", "==", "!=";
    assert |gt| == |lt| == 1 && |ge| == |le| == |eq| == |ne| == 2;
    assert gt[0] != lt[0] && ge[0] != le[0] && eq[0] != ge[0] && eq[0] != le[0];
    assert ne[0] != ge[0] && ne[0] != le[0] && ne[0] != eq[0];
  }

  lemma KindsDiffer()
    ensures "compare" != "in_segment" && "compare" != "and" && "in_segment" != "and"
  {
    assert |"compare"| == 7 && |"in_segment"| == 10 && |"and"| == 3;
  }

  lemma CompareIff(input: Json, path: seq<nat>, depth: nat, rule: SegmentRule)
    requires rule.Compare?
    ensures Validate(input, path, depth) == Success(rule) <==> Denotes(input, rule) && WellFormed(rule, depth)
  {
    KindsDiffer();
    NamesParse(rule.metric, rule.op, Field(input, "metric"));
    NamesParse(rule.metric, rule.op, Field(input, "op"));
  }

  lemma InSegmentIff(input: Json, path: seq<nat>, depth: nat, rule: SegmentRule)
    requires rule.InSegment?
    ensures Validate(input, path, depth) == Success(rule) <==> Denotes(input, rule) && WellFormed(rule, depth)
  {
    KindsDiffer();
  }

  /** The children of an `and` node that gets as far as having its children validated. */
  ghost predicate AndNode(input: Json, elements: seq<Json>, depth: nat) {
    && depth <= MAX_DEPTH && elements != []
    && Field(input, "kind") == Some(JString("and")) && Field(input, "children") == Some(JArray(elements))
  }

  lemma AndIff(input: Json, path: seq<nat>, depth: nat, children: seq<SegmentRule>)
    ensures Validate(input, path, depth) == Success(And(children))
      <==> exists elements :: AndNode(input, elements, depth) && ValidateFrom(elements, 0, path, depth) == Success(children)
    ensures Denotes(input, And(children)) && WellFormed(And(children), depth)
      <==> exists elements :: AndNode(input, elements, depth) && Spell(elements, 0, children, depth + 1)
  {
    KindsDiffer();
    assert forall i | 0 <= i < |children| :: children[i] in children;
    forall elements ensures Validate(input, path, depth) == Success(And(children)) && AndNode(input, elements, depth)
      ==> ValidateFrom(elements, 0, path, depth) == Success(children)
    {
    }
    if Validate(input, path, depth) == Success(And(children)) {
      assert AndNode(input, Field(input, "children").value.elements, depth);
    }
    forall elements | AndNode(input, elements, depth)
      ensures Denotes(input, And(children)) && WellFormed(And(children), depth) <==> Spell(elements, 0, children, depth + 1)
    {
      if |elements| == |children| {
        assert forall k | 0 <= k < |children| ::
          SpellAt(elements, 0, children, depth + 1, k) <==> Denotes(elements[k], children[k]) && WellFormed(children[k], depth + 1);
      }
    }
    if Denotes(input, And(children)) && WellFormed(And(children), depth) {
      assert AndNode(input, Field(input, "children").value.elements, depth);
    }
  }

  /**
   Admission, both ways: `rule` is the validator's answer exactly when the input
   spells that rule and the rule is well formed at this depth.
   */
  lemma {:induction false} ValidateIff(input: Json, path: seq<nat>, depth: nat, rule: SegmentRule)
    ensures Validate(input, path, depth) == Success(rule) <==> Denotes(input, rule) && WellFormed(rule, depth)
    decreases rule, 1, 0
  {
    match rule
    case Compare(_, _, _) => CompareIff(input, path, depth, rule);
    case InSegment(_) => InSegmentIff(input, path, depth, rule);
    case And(children) =>
      AndIff(input, path, depth, children);
      forall elements | AndNode(input, elements, depth)
        ensures ValidateFrom(elements, 0, path, depth) == Success(children) <==> Spell(elements, 0, children, depth + 1)
      {
        ValidateFromIff(rule, elements, 0, path, depth, children);
      }
  }

  /** The elements from `i` on spell `rules`, which are well formed. */
  ghost predicate Spell(elements: seq<Json>, i: nat, rules: seq<SegmentRule>, depth: nat) {
    && i + |rules| == |elements|
    && forall k | 0 <= k < |rules| :: SpellAt(elements, i, rules, depth, k)
  }

  ghost predicate SpellAt(elements: seq<Json>, i: nat, rules: seq<SegmentRule>, depth: nat, k: nat)
    requires i + |rules| == |elements| && k < |rules|
  {
    Denotes(elements[i + k], rules[k]) && WellFormed(rules[k], depth)
  }

  lemma SpellStep(elements: seq<Json>, i: nat, rules: seq<SegmentRule>, depth: nat)
    requires i < |elements|
    ensures Spell(elements, i, rules, depth)
      <==> && rules != []
           && Denotes(elements[i], rules[0]) && WellFormed(rules[0], depth)
           && Spell(elements, i + 1, rules[1..], depth)
  {
    if i + |rules| == |elements| {
      var rest, next := rules[1..], i + 1;
      assert SpellAt(elements, i, rules, depth, 0) <==> Denotes(elements[i], rules[0]) && WellFormed(rules[0], depth);
      forall k | 0 < k < |rules|
        ensures SpellAt(elements, i, rules, depth, k) <==> SpellAt(elements, next, rest, depth, k - 1)
      {
        assert rest[k - 1] == rules[k] && elements[next + (k - 1)] == elements[i + k];
      }
      if Spell(elements, i, rules, depth) {
        forall k | 0 <= k < |rest| ensures SpellAt(elements, next, rest, depth, k) {
          assert SpellAt(elements, i, rules, depth, k + 1);
        }
      }
      if Spell(elements, next, rest, depth) && SpellAt(elements, i, rules, depth, 0) {
        forall k | 0 <= k < |rules| ensures SpellAt(elements, i, rules, depth, k) {
          if k > 0 {
            assert SpellAt(elements, next, rest, depth, k - 1);
          }
        }
      }
    }
  }

  lemma ValidateFromStep(elements: seq<Json>, i: nat, path: seq<nat>, depth: nat, rules: seq<SegmentRule>)
    requires i < |elements| && depth <= MAX_DEPTH
    ensures ValidateFrom(elements, i, path, depth) == Success(rules)
      <==> && rules != []
           && Validate(elements[i], path + [i], depth + 1) == Success(rules[0])
           && ValidateFrom(elements, i + 1, path, depth) == Success(rules[1..])
  {
    var found := ValidateFrom(elements, i, path, depth);
    if found.Success? {
      assert found.value[1..] == ValidateFrom(elements, i + 1, path, depth).value;
    }
    if rules != [] {
      assert rules == [rules[0]] + rules[1..];
    }
  }

  lemma {:induction false} ValidateFromIff(context: SegmentRule, elements: seq<Json>, i: nat, path: seq<nat>, depth: nat,
                                           rules: seq<SegmentRule>)
    requires i <= |elements| && depth <= MAX_DEPTH
    requires forall r | r in rules :: r < context
    ensures ValidateFrom(elements, i, path, depth) == Success(rules) <==> Spell(elements, i, rules, depth + 1)
    decreases context, 0, |elements| - i
  {
    if i < |elements| {
      SpellStep(elements, i, rules, depth + 1);
      ValidateFromStep(elements, i, path, depth, rules);
      if rules != [] {
        assert rules[0] in rules && forall r | r in rules[1..] :: r in rules;
        ValidateIff(elements[i], path + [i], depth + 1, rules[0]);
        ValidateFromIff(context, elements, i + 1, path, depth, rules[1..]);
      }
    }
  }

  lemma {:induction false} ToJsonDenotes(rule: SegmentRule)
    ensures Denotes(ToJson(rule), rule)
  {
    match rule
    case Compare(_, _, _) => KeysDiffer();
    case InSegment(s) => KeysDiffer();
    case And(children) =>
      KeysDiffer();
      var elements := seq(|children|, i requires 0 <= i < |children| => ToJson(children[i]));
      forall i | 0 <= i < |children| ensures Denotes(elements[i], children[i]) { ToJsonDenotes(children[i]); }
      assert Field(ToJson(rule), "children") == Some(JArray(elements));
  }

  lemma KeysDiffer()
    ensures |{"kind", "metric", "op", "value", "segmentId", "children"}| == 6
    ensures "kind" != "metric" && "kind" != "op" && "kind" != "value" && "kind" != "segmentId" && "kind" != "children"
    ensures "metric" != "op" && "metric" != "value" && "op" != "value"
  {
    assert "kind"[0] == 'k' && "metric"[0] == 'm' && "op"[0] == 'o' && "value"[0] == 'v'
        && "segmentId"[0] == 's' && "children"[0] == 'c';
  }

  lemma {:induction false} DenotesUnique(input: Json, rule: SegmentRule, rule': SegmentRule)
    requires Denotes(input, rule) && Denotes(input, rule')
    ensures rule == rule'
  {
    KindsDiffer();
    match rule
    case Compare(metric, op, _) =>
      NamesParse(metric, op, Field(input, "metric"));
      NamesParse(metric, op, Field(input, "op"));
      NamesParse(rule'.metric, rule'.op, Field(input, "metric"));
      NamesParse(rule'.metric, rule'.op, Field(input, "op"));
    case InSegment(s) =>
    case And(children) =>
      var elements := Field(input, "children").value.elements;
      forall i | 0 <= i < |children| ensures children[i] == rule'.children[i] {
        DenotesUnique(elements[i], children[i], rule'.children[i]);
      }
  }

  /** Round trip: the JSON of a rule is accepted exactly when the rule is well formed, and comes back unchanged. */
  lemma ValidateRoundTrip(rule: SegmentRule)
    ensures Validate(ToJson(rule), [], 0).Success? <==> WellFormed(rule, 0)
    ensures WellFormed(rule, 0) ==> Validate(ToJson(rule), [], 0) == Success(rule)
  {
    ToJsonDenotes(rule);
    ValidateIff(ToJson(rule), [], 0, rule);
    var answer := Validate(ToJson(rule), [], 0);
    if answer.Success? {
      ValidateIff(ToJson(rule), [], 0, answer.value);
      DenotesUnique(ToJson(rule), rule, answer.value);
    }
  }

  /** Validating what was accepted once more is the identity. */
  lemma RevalidateIsIdentity(input: Json)
    requires Validate(input, [], 0).Success?
    ensures Validate(ToJson(Validate(input, [], 0).value), [], 0) == Validate(input, [], 0)
  {
    var rule := Validate(input, [], 0).value;
    ValidateIff(input, [], 0, rule);
    ValidateRoundTrip(rule);
  }

  /** What is wrong with a node itself, its children left aside. */
  ghost function OwnProblem(input: Json, depth: nat): Option<Problem> {
    var kind := Field(input, "kind");
    if depth > MAX_DEPTH then Some(TooDeep)
    else if !input.JArray? && !input.JObject? then Some(NotAnObject)
    else if kind == Some(JString("compare")) then
      if ParseMetric(Field(input, "metric")).None? then Some(BadMetric)
      else if ParseOp(Field(input, "op")).None? then Some(BadOp)
      else if forall x: real :: Field(input, "value") != Some(JNumber(Finite(x))) then Some(BadValue)
      else None
    else if kind == Some(JString("in_segment")) then
      if Field(input, "segmentId") == Some(JString("")) then Some(BadSegmentId)
      else if forall s: string :: Field(input, "segmentId") != Some(JString(s)) then Some(BadSegmentId)
      else None
    else if kind == Some(JString("and")) then
      if Children(input) == [] then Some(BadChildren) else None
    else Some(BadKind)
  }

  /** The children the validator visits below a node. */
  function Children(input: Json): seq<Json> {
    var list := Field(input, "children");
    if Field(input, "kind") == Some(JString("and")) && list.Some? && list.value.JArray? then list.value.elements else []
  }

  /** What is wrong with the node at `path`, if the validator gets to look at it. */
  ghost function ProblemAt(input: Json, path: seq<nat>, depth: nat): Option<Problem> {
    if path == [] then OwnProblem(input, depth)
    else if OwnProblem(input, depth).None? && path[0] < |Children(input)| then
      ProblemAt(Children(input)[path[0]], path[1..], depth + 1)
    else None
  }

  /** Depth-first order of nodes: parents before children, earlier siblings first. */
  predicate Before(p: seq<nat>, q: seq<nat>) {
    q != [] && (p == [] || p[0] < q[0] || (p[0] == q[0] && Before(p[1..], q[1..])))
  }

  /** `answer` blames the first bad node of `input`, or there is none. */
  ghost predicate BlamesFirst<T>(answer: Result<T, BadRequest>, input: Json, path: seq<nat>, depth: nat) {
    match answer
    case Success(_) => forall q :: ProblemAt(input, q, depth).None?
    case Failure(e) =>
      && path <= e.path
      && ProblemAt(input, e.path[|path|..], depth) == Some(e.problem)
      && forall q | Before(q, e.path[|path|..]) :: ProblemAt(input, q, depth).None?
  }

  /** Diagnosis: a rejection points at the first bad node in depth-first order; an accepted input has no bad node. */
  lemma {:induction false} BlameIsFirst(input: Json, path: seq<nat>, depth: nat)
    ensures BlamesFirst(Validate(input, path, depth), input, path, depth)
    decreases Left(depth), 1, 0
  {
    KindsDiffer();
    if OwnProblem(input, depth).Some? {
      assert ProblemAt(input, [], depth) == OwnProblem(input, depth);
    } else if Children(input) != [] {
      BlameFromIsFirst(input, 0, path, depth);
    }
  }

  lemma {:induction false} BlameFromIsFirst(input: Json, i: nat, path: seq<nat>, depth: nat)
    requires OwnProblem(input, depth).None? && depth <= MAX_DEPTH && i <= |Children(input)|
    requires forall q | q != [] && q[0] < i :: ProblemAt(input, q, depth).None?
    ensures BlamesFirst(ValidateFrom(Children(input), i, path, depth), input, path, depth)
    decreases Left(depth), 0, |Children(input)| - i
  {
    var children := Children(input);
    if i < |children| {
      BlameIsFirst(children[i], path + [i], depth + 1);
      var first := Validate(children[i], path + [i], depth + 1);
      if first.Success? {
        BlameFromIsFirst(input, i + 1, path, depth);
      } else {
        var q := first.error.path[|path|..];
        assert q[1..] == first.error.path[|path + [i]|..] && q[0] == i;
      }
    }
  }

  /** A comparison as clients write it. */
  lemma ComparisonsAsWritten(metricText: string, metric: CustomerMetric, opText: string, op: ComparisonOp, x: real)
    requires (metricText, metric) in {("tx_count_30d", TxCount30d), ("tx_count_total", TxCountTotal),
                                      ("sum_amount_60d", SumAmount60d), ("last_tx_age_days", LastTxAgeDays)}
    requires (opText, op) in {(">", Gt), (">=", Ge), ("<", Lt), ("<=", Le), ("==", Eq), ("!=", Ne)}
    ensures Validate(JObject(map["kind" := JString("compare"), "metric" := JString(metricText),
                                 "op" := JString(opText), "value" := JNumber(Finite(x))]), [], 0)
         == Success(Compare(metric, op, Finite(x)))
  {
    KindsDiffer();
    KeysDiffer();
    NamesDiffer();
  }

  /** No other metric and no other operator is accepted. */
  lemma OtherNamesAreRefused(metricText: string, opText: string, value: Json)
    ensures var answer := Validate(JObject(map["kind" := JString("compare"), "metric" := JString(metricText),
                                               "op" := JString(opText), "value" := value]), [], 0);
            && (metricText !in {"tx_count_30d", "tx_count_total", "sum_amount_60d", "last_tx_age_days"} ==>
                  answer == Failure(BadRequest([], BadMetric)))
            && (metricText in {"tx_count_30d", "tx_count_total", "sum_amount_60d", "last_tx_age_days"}
                && opText !in {">", ">=", "<", "<=", "==", "!="} ==>
                  answer == Failure(BadRequest([], BadOp)))
  {
    KindsDiffer();
    KeysDiffer();
    NamesDiffer();
  }

  lemma NamesDiffer()
    ensures "tx_count_30d" != "tx_count_total" && "tx_count_30d" != "sum_amount_60d" && "tx_count_30d" != "last_tx_age_days"
    ensures "tx_count_total" != "sum_amount_60d" && "tx_count_total" != "last_tx_age_days"
    ensures "sum_amount_60d" != "last_tx_age_days"
    ensures ">" != ">=" && ">" != "<" && ">" != "<=" && ">" != "==" && ">" != "!="
    ensures ">=" != "<" && ">=" != "<=" && ">=" != "==" && ">=" != "!="
    ensures "<" != "<=" && "<" != "==" && "<" != "!=" && "<=" != "==" && "<=" != "!=" && "==" != "!="
  {
    assert |"tx_count_30d"| == 12 && |"tx_count_total"| == |"sum_amount_60d"| == 14 && |"last_tx_age_days"| == 16;
    assert "tx_count_total"[0] == 't' && "sum_amount_60d"[0] == 's';
    assert |">"| == 1 && |"<"| == 1 && |">="| == 2 && |"<="| == 2 && |"=="| == 2 && |"!="| == 2;
    assert ">"[0] == '>' && "<"[0] == '<' && ">="[0] == '>' && "<="[0] == '<' && "=="[0] == '=' && "!="[0] == '!';
  }

  /** A reference as clients write it. */
  lemma ReferencesAsWritten(s: string)
    ensures Validate(JObject(map["kind" := JString("in_segment"), "segmentId" := JString(s)]), [], 0)
         == if s == "" then Failure(BadRequest([], BadSegmentId)) else Success(InSegment(s))
  {
    KindsDiffer();
    KeysDiffer();
  }

  /** Nesting is refused beyond 32 levels, whatever lies there, and not at 32. */
  lemma NestingAsWritten(input: Json, path: seq<nat>, depth: nat, s: string)
    ensures depth > 32 ==> Validate(input, path, depth) == Failure(BadRequest(path, TooDeep))
    ensures depth <= 32 && s != "" ==>
              Validate(JObject(map["kind" := JString("in_segment"), "segmentId" := JString(s)]), path, depth)
              == Success(InSegment(s))
  {
    KindsDiffer();
    KeysDiffer();
  }

  /** An `and` as clients write it: each child one level deeper, all of them kept in order. */
  lemma ConjunctionsAsWritten(elements: seq<Json>, path: seq<nat>, depth: nat, rules: seq<SegmentRule>)
    requires depth <= 32 && |rules| == |elements| > 0
    requires forall i | 0 <= i < |elements| :: Validate(elements[i], path + [i], depth + 1) == Success(rules[i])
    ensures Validate(JObject(map["kind" := JString("and"), "children" := JArray(elements)]), path, depth) == Success(And(rules))
  {
    KindsDiffer();
    KeysDiffer();
    AllChildrenKept(elements, 0, path, depth, rules);
  }

  lemma {:induction false} AllChildrenKept(elements: seq<Json>, i: nat, path: seq<nat>, depth: nat, rules: seq<SegmentRule>)
    requires depth <= 32 && i <= |elements| == |rules|
    requires forall k | i <= k < |elements| :: Validate(elements[k], path + [k], depth + 1) == Success(rules[k])
    ensures ValidateFrom(elements, i, path, depth) == Success(rules[i..])
    decreases |elements| - i
  {
    if i < |elements| {
      AllChildrenKept(elements, i + 1, path, depth, rules);
      assert rules[i..] == [rules[i]] + rules[i + 1..];
    }
  }
}
