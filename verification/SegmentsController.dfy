/** Creating, changing and deleting segments (apps/api/src/segments/segments.controller.ts). */
module SegmentsController {
  import opened Wrappers
  import opened SegmentRules
  import opened RuleValidator
  import opened Metrics
  import opened Tables
  import opened Dependency
  import opened SegmentEvaluation

  datatype RequestError =
    | BadName
    | NameTaken
    | InvalidRule(blame: BadRequest)
    | RuleReferencesItself
    | UnknownReferences
    | NotFound
    | HasDependents
    | UnknownCustomer

  /** The bodies of POST and PATCH. An absent value is a property the client left out. */
  datatype CreateBody = CreateBody(name: string, kind: SegmentType, rule: Json, initialMemberIds: set<CustomerId>)
  datatype UpdateBody = UpdateBody(name: Option<string>, rule: Option<Json>)

  predicate HasName(segments: map<SegmentId, Segment>, name: string) {
    exists id | id in segments :: segments[id].name == name
  }

  /** `validateRule`, then `assertRuleReferences`. */
  function Admit(segments: map<SegmentId, Segment>, input: Json, self: Option<SegmentId>): Result<SegmentRule, RequestError> {
    match Validate(input, [], 0)
    case Failure(reason) => Failure(InvalidRule(reason))
    case Success(rule) =>
      if self.Some? && self.value in Refs(rule) then Failure(RuleReferencesItself)
      else if !(Refs(rule) <= segments.Keys) then Failure(UnknownReferences)
      else Success(rule)
  }

  function CreateRefusal(t: TableState, body: CreateBody): Option<RequestError> {
    if body.name == "" then Some(BadName)
    else
      var rule := Admit(t.segments, body.rule, None);
      if rule.Failure? then Some(rule.error)
      else if HasName(t.segments, body.name) then Some(NameTaken)
      else None
  }

  function WithSegment(t: TableState, id: SegmentId, segment: Segment, members: set<CustomerId>): TableState {
    t.(segments := t.segments[id := segment], members := t.members[id := members])
  }

  /** The tables and the answer after a create with the new id `id`. */
  function Created(t: TableState, metrics: MetricsTable, customers: set<CustomerId>, id: SegmentId, body: CreateBody)
    : (after: (TableState, Option<RequestError>))
    requires ForeignKeys(t) && id !in t.segments
    ensures ForeignKeys(after.0)
  {
    var refusal := CreateRefusal(t, body);
    if refusal.Some? then (t, refusal)
    else
      var rule := Admit(t.segments, body.rule, None).value;
      var added := WithSegment(t, id, Segment(body.name, body.kind, rule), {});
      if body.kind.DYNAMIC? then (AfterEvaluate(added, metrics, id, false), None)
      else if !(body.initialMemberIds <= customers) then (added, Some(UnknownCustomer))
      else (WithSegment(t, id, Segment(body.name, body.kind, rule), body.initialMemberIds), None)
  }

  function UpdateRefusal(t: TableState, id: SegmentId, body: UpdateBody): Option<RequestError> {
    if id !in t.segments then Some(NotFound)
    else if body.name == Some("") then Some(BadName)
    else if body.name.Some? && body.name.value != t.segments[id].name && HasName(t.segments, body.name.value) then
      Some(NameTaken)
    else if body.rule.Some? then
      var rule := Admit(t.segments, body.rule.value, Some(id));
      if rule.Failure? then Some(rule.error) else None
    else None
  }

  function Patched(t: TableState, id: SegmentId, body: UpdateBody): TableState
    requires UpdateRefusal(t, id, body).None?
  {
    var was := t.segments[id];
    t.(segments := t.segments[id := Segment(
      if body.name.Some? then body.name.value else was.name,
      was.kind,
      if body.rule.Some? then Admit(t.segments, body.rule.value, Some(id)).value else was.rule)])
  }

  function Updated(t: TableState, metrics: MetricsTable, id: SegmentId, body: UpdateBody)
    : (after: (TableState, Option<RequestError>))
    requires ForeignKeys(t)
    ensures ForeignKeys(after.0)
  {
    var refusal := UpdateRefusal(t, id, body);
    if refusal.Some? then (t, refusal)
    else
      var patched := Patched(t, id, body);
      if body.rule.Some? && IsDynamic(patched.segments, id) then (AfterEvaluate(patched, metrics, id, false), None)
      else (patched, None)
  }

  /** Deleting a row takes its member, delta and edge rows with it. */
  function WithoutSegment(t: TableState, id: SegmentId): TableState {
    t.(segments := t.segments - {id},
       members := t.members - {id},
       dependencies := (set e | e in t.dependencies && e.parentId != id && e.childId != id),
       deltas := (set d | d in t.deltas && d.segmentId != id))
  }

  function Removed(t: TableState, id: SegmentId): (after: (TableState, Option<RequestError>))
    requires ForeignKeys(t)
    ensures ForeignKeys(after.0)
  {
    if id !in t.segments then (t, Some(NotFound))
    else if exists e | e in t.dependencies :: e.parentId == id then (t, Some(HasDependents))
    else (WithoutSegment(t, id), None)
  }

  class SegmentsController {
    const db: Database
    const evaluation: SegmentEvaluationService

    constructor (db: Database, evaluation: SegmentEvaluationService)
      ensures this.db == db && this.evaluation == evaluation
    {
      this.db, this.evaluation := db, evaluation;
    }

    method AssertRuleReferences(rule: SegmentRule, self: Option<SegmentId>) returns (error: Option<RequestError>)
      ensures error == if self.Some? && self.value in Refs(rule) then Some(RuleReferencesItself)
                       else if !(Refs(rule) <= db.segments.Keys) then Some(UnknownReferences)
                       else None
    {
      var acc := new IdSet();
      CollectParentIds(rule, acc);
      var refs := acc.ids;
      if self.Some? && self.value in refs {
        return Some(RuleReferencesItself);
      }
      var missing := refs - db.segments.Keys;
      assert missing == {} <==> refs <= db.segments.Keys by {
        if missing == {} {
          forall r | r in refs ensures r in db.segments.Keys { assert r !in missing; }
        }
      }
      if missing != {} {
        return Some(UnknownReferences);
      }
      error := None;
    }

    method Create(id: SegmentId, body: CreateBody, now: int) returns (error: Option<RequestError>)
      requires ForeignKeys(db.State()) && evaluation.db == db && evaluation.dependency.db == db
      requires id !in db.segments
      modifies db`segments, db`members, db`dependencies, db`deltas, db`outbox, db`batches
      ensures (db.State(), error)
           == Created(old(db.State()), MetricsAt(db.customers, db.transactions, now), db.customers, id, body)
    {
      if body.name == "" {
        return Some(BadName);
      }
      var rule := Validate(body.rule, [], 0);
      if rule.Failure? {
        return Some(InvalidRule(rule.error));
      }
      error := AssertRuleReferences(rule.value, None);
      if error.Some? {
        return;
      }
      if HasName(db.segments, body.name) {
        return Some(NameTaken);
      }
      db.segments := db.segments[id := Segment(body.name, body.kind, rule.value)];
      db.members := db.members[id := {}];
      ghost var added := WithSegment(old(db.State()), id, Segment(body.name, body.kind, rule.value), {});
      assert CreateRefusal(old(db.State()), body).None?;
      assert db.State() == added;
      if body.kind.DYNAMIC? {
        // The references are known to exist and cannot include the new id, so the evaluation
        // does not throw and there is nothing to roll back.
        var answer := evaluation.EvaluateSegment(id, false, now);
        assert answer.Success?;
      } else if body.initialMemberIds != {} {
        if !(body.initialMemberIds <= db.customers) {
          return Some(UnknownCustomer);
        }
        db.members := db.members[id := body.initialMemberIds];
        assert db.State() == WithSegment(old(db.State()), id, Segment(body.name, body.kind, rule.value), body.initialMemberIds);
      }
      assert error.None?;
    }

    method Update(id: SegmentId, body: UpdateBody, now: int) returns (error: Option<RequestError>)
      requires ForeignKeys(db.State()) && evaluation.db == db && evaluation.dependency.db == db
      modifies db`segments, db`members, db`dependencies, db`deltas, db`outbox, db`batches
      ensures (db.State(), error)
           == Updated(old(db.State()), MetricsAt(db.customers, db.transactions, now), id, body)
    {
      if id !in db.segments {
        return Some(NotFound);
      }
      var segment := db.segments[id];
      if body.name.Some? {
        if body.name.value == "" {
          return Some(BadName);
        }
        if body.name.value != segment.name && HasName(db.segments, body.name.value) {
          return Some(NameTaken);
        }
        segment := segment.(name := body.name.value);
      }
      if body.rule.Some? {
        var rule := Validate(body.rule.value, [], 0);
        if rule.Failure? {
          return Some(InvalidRule(rule.error));
        }
        error := AssertRuleReferences(rule.value, Some(id));
        if error.Some? {
          return;
        }
        segment := segment.(rule := rule.value);
      }
      db.segments := db.segments[id := segment];
      error := None;
      if body.rule.Some? && segment.kind.DYNAMIC? {
        var answer := evaluation.EvaluateSegment(id, false, now);
        assert answer.Success?;
      }
    }

    method Remove(id: SegmentId) returns (error: Option<RequestError>)
      requires ForeignKeys(db.State())
      modifies db`segments, db`members, db`dependencies, db`deltas
      ensures (db.State(), error) == Removed(old(db.State()), id)
    {
      if id !in db.segments {
        return Some(NotFound);
      }
      if exists e | e in db.dependencies :: e.parentId == id {
        return Some(HasDependents);
      }
      db.segments := db.segments - {id};
      db.members := db.members - {id};
      db.dependencies := set e | e in db.dependencies && e.parentId != id && e.childId != id;
      db.deltas := set d | d in db.deltas && d.segmentId != id;
      error := None;
    }
  }
}
