/** What any sequence of segment requests keeps true of the segment graph, and what a rule update can break. */
module SegmentLifecycle {
  import opened Wrappers
  import opened SegmentRules
  import opened Evaluator
  import opened RuleValidator
  import opened Tables
  import opened Dependency
  import opened Graph
  import opened SegmentEvaluation
  import opened Denotation
  import opened SegmentsController
  import opened Replay

  /** Names are unique, every DYNAMIC rule refers to existing other segments, and its edges are its references. */
  ghost predicate Sound(t: TableState) {
    && ForeignKeys(t)
    && References(t.segments)
    && UniqueNames(t.segments)
    && forall id | IsDynamic(t.segments, id) :: EdgesMatch(t, id)
  }

  ghost predicate EdgesMatch(t: TableState, id: SegmentId) {
    && id in t.segments
    && id !in Refs(t.segments[id].rule)
    && Incoming(t.dependencies, id) == Refs(t.segments[id].rule)
  }

  ghost predicate UniqueNames(segments: map<SegmentId, Segment>) {
    forall id, id' | id in segments && id' in segments && segments[id].name == segments[id'].name :: id == id'
  }

  /** A request with the metrics and customers it finds; evaluations stand for POST :id/evaluate and the cascade's. */
  datatype Request =
    | Create(metrics: MetricsTable, customers: set<CustomerId>, id: SegmentId, create: CreateBody)
    | Update(metrics: MetricsTable, id: SegmentId, update: UpdateBody)
    | Remove(id: SegmentId)
    | Evaluate(metrics: MetricsTable, id: SegmentId, force: bool)

  ghost function Served(t: TableState, r: Request): (t': TableState)
    requires ForeignKeys(t)
    ensures ForeignKeys(t')
  {
    match r
    case Create(metrics, customers, id, body) => if id in t.segments then t else Created(t, metrics, customers, id, body).0
    case Update(metrics, id, body) => Updated(t, metrics, id, body).0
    case Remove(id) => Removed(t, id).0
    case Evaluate(metrics, id, force) => AfterEvaluate(t, metrics, id, force)
  }

  ghost function ServedAll(t: TableState, requests: seq<Request>): (t': TableState)
    requires ForeignKeys(t)
    ensures ForeignKeys(t')
    decreases |requests|
  {
    if requests == [] then t else ServedAll(Served(t, requests[0]), requests[1..])
  }

  lemma EvaluateKeepsSound(t: TableState, metrics: MetricsTable, id: SegmentId, force: bool)
    requires ForeignKeys(t) && References(t.segments) && UniqueNames(t.segments)
    requires forall other | IsDynamic(t.segments, other) && other != id :: EdgesMatch(t, other)
    requires IsDynamic(t.segments, id) ==> EvaluationFailure(t, id, force).None?
    ensures Sound(AfterEvaluate(t, metrics, id, force))
  {
    var t' := AfterEvaluate(t, metrics, id, force);
    if EvaluationFailure(t, id, force).None? {
      EvaluationEffect(t, metrics, id, force);
    }
    forall other | IsDynamic(t'.segments, other) ensures EdgesMatch(t', other) {
      if other != id {
        assert EdgesMatch(t, other);
        assert Incoming(t'.dependencies, other) == Incoming(t.dependencies, other);
      }
    }
  }

  /** A new row disturbs no other segment. */
  lemma AddingKeepsOthers(t: TableState, id: SegmentId, segment: Segment)
    requires Sound(t) && id !in t.segments && Refs(segment.rule) <= t.segments.Keys && !HasName(t.segments, segment.name)
    ensures var added := WithSegment(t, id, segment, {});
            && ForeignKeys(added) && References(added.segments) && UniqueNames(added.segments)
            && forall other | IsDynamic(added.segments, other) && other != id :: EdgesMatch(added, other)
  {
    var added := WithSegment(t, id, segment, {});
    forall other | IsDynamic(added.segments, other) && other != id ensures EdgesMatch(added, other) {
      assert EdgesMatch(t, other);
    }
  }

  lemma CreateKeepsSound(t: TableState, r: Request)
    requires Sound(t) && r.Create? && r.id !in t.segments
    ensures Sound(Served(t, r))
  {
    var body := r.create;
    if CreateRefusal(t, body).None? {
      var segment := Segment(body.name, body.kind, Admit(t.segments, body.rule, None).value);
      var added := WithSegment(t, r.id, segment, {});
      AddingKeepsOthers(t, r.id, segment);
      if body.kind.DYNAMIC? {
        EvaluateKeepsSound(added, r.metrics, r.id, false);
      }
    }
  }

  lemma UpdateKeepsSound(t: TableState, r: Request)
    requires Sound(t) && r.Update?
    ensures Sound(Served(t, r))
  {
    if UpdateRefusal(t, r.id, r.update).None? {
      var patched := Patched(t, r.id, r.update);
      forall other | IsDynamic(patched.segments, other) && other != r.id ensures EdgesMatch(patched, other) {
        assert EdgesMatch(t, other);
      }
      assert References(patched.segments);
      if r.update.rule.Some? && IsDynamic(patched.segments, r.id) {
        EvaluateKeepsSound(patched, r.metrics, r.id, false);
      } else if IsDynamic(patched.segments, r.id) {
        assert EdgesMatch(t, r.id) && EdgesMatch(patched, r.id);
      }
    }
  }

  lemma RemoveKeepsSound(t: TableState, id: SegmentId)
    requires Sound(t)
    ensures Sound(Removed(t, id).0)
  {
    if Removed(t, id).1.None? {
      var t' := WithoutSegment(t, id);
      forall other | IsDynamic(t'.segments, other)
        ensures EdgesMatch(t', other) && Refs(t'.segments[other].rule) <= t'.segments.Keys
      {
        assert EdgesMatch(t, other);
        assert Incoming(t'.dependencies, other) == Incoming(t.dependencies, other);
        assert forall p | p in Incoming(t.dependencies, other) :: Edge(p, other) in t.dependencies;
      }
    }
  }

  lemma RequestKeepsSound(t: TableState, r: Request)
    requires Sound(t)
    ensures Sound(Served(t, r))
  {
    match r
    case Create(_, _, id, _) =>
      if id !in t.segments {
        CreateKeepsSound(t, r);
      }
    case Update(_, _, _) => UpdateKeepsSound(t, r);
    case Remove(id) => RemoveKeepsSound(t, id);
    case Evaluate(metrics, id, force) =>
      assert IsDynamic(t.segments, id) ==> EdgesMatch(t, id);
      EvaluateKeepsSound(t, metrics, id, force);
  }

  lemma FewerEdgesStayAcyclic(g: Graph, g': Graph)
    requires Acyclic(g) && g'.Keys <= g.Keys && forall n | n in g' :: g'[n] <= g[n]
    ensures Acyclic(g')
  {
    forall c ensures !IsCycle(g', c) {
      assert !IsCycle(g, c);
      if IsCycle(g', c) {
        assert false;
      }
    }
  }

  lemma ChangedRuleRedirects(segments: map<SegmentId, Segment>, id: SegmentId, segment: Segment)
    requires id in segments && segment.kind == segments[id].kind
    ensures DynamicIds(segments[id := segment]) == DynamicIds(segments)
    ensures IsDynamic(segments, id) ==>
              DynamicGraph(segments[id := segment]) == DynamicGraph(segments)[id := Refs(segment.rule) * DynamicIds(segments)]
    ensures !IsDynamic(segments, id) || segment.rule == segments[id].rule ==>
              DynamicGraph(segments[id := segment]) == DynamicGraph(segments)
  {
    assert DynamicIds(segments[id := segment]) == DynamicIds(segments);
  }

  lemma RemoveKeepsAcyclic(t: TableState, id: SegmentId)
    requires Sound(t) && Acyclic(DynamicGraph(t.segments))
    ensures Acyclic(DynamicGraph(Removed(t, id).0.segments))
  {
    FewerEdgesStayAcyclic(DynamicGraph(t.segments), DynamicGraph(Removed(t, id).0.segments));
  }

  lemma CreateKeepsAcyclic(t: TableState, r: Request)
    requires Sound(t) && Acyclic(DynamicGraph(t.segments)) && r.Create?
    ensures Acyclic(DynamicGraph(Served(t, r).segments))
  {
    var body := r.create;
    if r.id !in t.segments && CreateRefusal(t, body).None? {
      NewSegmentKeepsAcyclic(t.segments, r.id, Segment(body.name, body.kind, Admit(t.segments, body.rule, None).value));
    }
  }

  lemma RequestKeepsAcyclic(t: TableState, r: Request)
    requires Sound(t) && Acyclic(DynamicGraph(t.segments)) && (r.Update? ==> r.update.rule.None?)
    ensures Acyclic(DynamicGraph(Served(t, r).segments))
  {
    match r
    case Create(_, _, _, _) => CreateKeepsAcyclic(t, r);
    case Update(_, _, _) =>
      if UpdateRefusal(t, r.id, r.update).None? {
        ChangedRuleRedirects(t.segments, r.id, Patched(t, r.id, r.update).segments[r.id]);
      }
    case Remove(id) => RemoveKeepsAcyclic(t, id);
    case Evaluate(_, _, _) =>
  }

  /**
   Graph invariants: any sequence of requests, refused ones included, keeps every DYNAMIC
   segment's edges equal to its references, all of them existing; and as long as no rule is
   updated it keeps the graph acyclic, so that a rebuild does not throw.
   */
  lemma {:induction false} RequestsKeepTheGraph(t: TableState, requests: seq<Request>)
    requires Sound(t)
    ensures Sound(ServedAll(t, requests))
    ensures Acyclic(DynamicGraph(t.segments))
            && (forall i | 0 <= i < |requests| :: requests[i].Update? ==> requests[i].update.rule.None?)
            ==> var end := ServedAll(t, requests);
                && Acyclic(DynamicGraph(end.segments))
                && forall metrics, rows | ListsDynamic(end.segments, rows) :: RebuildFailure(end, metrics, rows).None?
    decreases |requests|
  {
    if requests == [] {
      forall metrics, rows | ListsDynamic(t.segments, rows) && Acyclic(DynamicGraph(t.segments))
        ensures RebuildFailure(t, metrics, rows).None?
      {
        RebuildCorrect(t, metrics, rows);
      }
    } else {
      RequestKeepsSound(t, requests[0]);
      if Acyclic(DynamicGraph(t.segments)) && (requests[0].Update? ==> requests[0].update.rule.None?) {
        RequestKeepsAcyclic(t, requests[0]);
      }
      RequestsKeepTheGraph(Served(t, requests[0]), requests[1..]);
    }
  }

  /** A bootstrap rebuild of a seeded database with existing, acyclic references and unique names is where such sequences start. */
  lemma BootstrapIsSound(t: TableState, metrics: MetricsTable, rows: seq<SegmentId>)
    requires ForeignKeys(t) && References(t.segments) && UniqueNames(t.segments)
    requires ListsDynamic(t.segments, rows) && Acyclic(DynamicGraph(t.segments))
    ensures Sound(AfterRebuild(t, metrics, rows))
  {
    RebuildCorrect(t, metrics, rows);
    forall id | IsDynamic(t.segments, id) ensures EdgesMatch(AfterRebuild(t, metrics, rows), id) {
      NoSelfReference(t.segments, id);
    }
  }

  lemma UpdateRedirects(t: TableState, r: Request)
    requires ForeignKeys(t) && r.Update? && UpdateRefusal(t, r.id, r.update).None? && r.update.rule.Some?
    requires IsDynamic(t.segments, r.id)
    ensures var parents := Refs(Admit(t.segments, r.update.rule.value, Some(r.id)).value) * DynamicIds(t.segments);
            DynamicGraph(Served(t, r).segments) == DynamicGraph(t.segments)[r.id := parents]
  {
    ChangedRuleRedirects(t.segments, r.id, Patched(t, r.id, r.update).segments[r.id]);
  }

  /**
   When an admitted rule update keeps the graph acyclic: exactly when no DYNAMIC segment that
   the new rule refers to already depends, directly or through others, on the updated one.
   The update itself checks only the direct self-reference.
   */
  lemma UpdateKeepsAcyclicIff(t: TableState, r: Request)
    requires Sound(t) && Acyclic(DynamicGraph(t.segments))
    requires r.Update? && UpdateRefusal(t, r.id, r.update).None? && r.update.rule.Some? && IsDynamic(t.segments, r.id)
    ensures var rule := Admit(t.segments, r.update.rule.value, Some(r.id)).value;
            Acyclic(DynamicGraph(Served(t, r).segments))
            <==> forall p | p in Refs(rule) && IsDynamic(t.segments, p) :: !Reaches(DynamicGraph(t.segments), p, r.id)
  {
    UpdateRedirects(t, r);
    var parents := Refs(Admit(t.segments, r.update.rule.value, Some(r.id)).value) * DynamicIds(t.segments);
    RedirectKeepsAcyclicIff(DynamicGraph(t.segments), r.id, parents);
  }

  /** What changed in one segment, as the delta rows and the event tell it. */
  ghost predicate Announced(t: TableState, t': TableState, id: SegmentId, before: set<CustomerId>)
    requires id in t'.segments && id in t'.members
  {
    var after := t'.members[id];
    && t'.outbox == t.outbox
         + (if after == before then []
            else [OutboxRow(Payload(id, t'.segments[id].name, t.batches, after - before, before - after), PENDING)])
    && forall d :: d in t'.deltas
         <==> || d in t.deltas
              || (d.segmentId == id && d.batchId == t.batches && d.change == ADD
                  && d.customerId in after && d.customerId !in before)
              || (d.segmentId == id && d.batchId == t.batches && d.change == REMOVE
                  && d.customerId in before && d.customerId !in after)
  }

  /** The rest of the database is as it was. */
  ghost predicate OthersUntouched(t: TableState, t': TableState, id: SegmentId) {
    && (forall other | other != id :: other in t'.segments <==> other in t.segments)
    && (forall other | other != id && other in t.segments :: t'.segments[other] == t.segments[other])
    && (forall other | other != id :: MembersOf(t'.members, other) == MembersOf(t.members, other))
    && (forall p, other | other != id :: Edge(p, other) in t'.dependencies <==> Edge(p, other) in t.dependencies)
  }

  /** An evaluation of a saved segment, seen from before it was saved. */
  lemma SavedAndEvaluated(t: TableState, saved: TableState, metrics: MetricsTable, id: SegmentId)
    requires ForeignKeys(saved) && EvaluationFailure(saved, id, false).None?
    requires forall d | d in t.deltas :: d.batchId != t.batches
    requires saved.deltas == t.deltas && saved.outbox == t.outbox && saved.batches == t.batches
    requires OthersUntouched(t, saved, id)
    ensures var t' := AfterEvaluate(saved, metrics, id, false);
            && t'.segments == saved.segments && OthersUntouched(t, t', id)
            && Consistent(t'.segments, metrics, t'.members, id)
            && Announced(t, t', id, saved.members[id])
            && forall p :: Edge(p, id) in t'.dependencies <==> p in Refs(t'.segments[id].rule)
  {
    var t' := AfterEvaluate(saved, metrics, id, false);
    EvaluationEffect(saved, metrics, id, false);
    EvaluationTouchesItsSegment(saved, metrics, id, false);
    EvaluationAnnouncesChanges(saved, metrics, id, false);
    forall d ensures d in t'.deltas
      <==> || d in t.deltas
           || (d.segmentId == id && d.batchId == t.batches && d.change == ADD
               && d.customerId in t'.members[id] && d.customerId !in saved.members[id])
           || (d.segmentId == id && d.batchId == t.batches && d.change == REMOVE
               && d.customerId in saved.members[id] && d.customerId !in t'.members[id])
    {
      EvaluationRecordsChanges(saved, metrics, id, false, d);
    }
  }

  /** When an update is refused and with what, in the source's order, and that it then changes nothing. */
  lemma UpdateRefusedAs(t: TableState, metrics: MetricsTable, id: SegmentId, body: UpdateBody)
    requires ForeignKeys(t)
    ensures var (t', error) := Updated(t, metrics, id, body);
            var taken := body.name.Some? && id in t.segments && body.name.value != t.segments[id].name
                         && exists other | other in t.segments :: t.segments[other].name == body.name.value;
            && (error.Some? ==> t' == t)
            && (id !in t.segments <==> error == Some(NotFound))
            && (id in t.segments && body.name == Some("") <==> error == Some(BadName))
            && (taken && body.name != Some("") <==> error == Some(NameTaken))
            && (id in t.segments && body.name != Some("") && !taken && body.rule.Some? ==>
                  var rule := Validate(body.rule.value, [], 0);
                  && (rule.Failure? ==> error == Some(InvalidRule(rule.error)))
                  && (rule.Success? && id in Refs(rule.value) ==> error == Some(RuleReferencesItself))
                  && (rule.Success? && id !in Refs(rule.value) && !(Refs(rule.value) <= t.segments.Keys) ==>
                        error == Some(UnknownReferences)))
            && (error.None? ==> body.rule.Some? ==>
                  var rule := Validate(body.rule.value, [], 0);
                  rule.Success? && id !in Refs(rule.value) && Refs(rule.value) <= t.segments.Keys)
            && (id in t.segments && body.name != Some("") && !taken
                && (body.rule.Some? ==>
                      var rule := Validate(body.rule.value, [], 0);
                      rule.Success? && id !in Refs(rule.value) && Refs(rule.value) <= t.segments.Keys)
                ==> error.None?)
  {
  }

  /**
   What an accepted update does: the segment has the given name and the validated rule and keeps the
   rest; with a new rule a DYNAMIC segment agrees with it at once, its edges are the rule's references,
   and its delta rows and one pending event tell what changed. A STATIC one, and one whose rule was not
   given, keeps its members, edges, rows and events.
   */
  lemma UpdateEffect(t: TableState, metrics: MetricsTable, id: SegmentId, body: UpdateBody)
    requires ForeignKeys(t) && Updated(t, metrics, id, body).1.None?
    requires forall d | d in t.deltas :: d.batchId != t.batches
    ensures var t' := Updated(t, metrics, id, body).0;
            && id in t.segments && id in t'.segments && id in t'.members && OthersUntouched(t, t', id)
            && t'.segments[id].kind == t.segments[id].kind
            && t'.segments[id].name == (if body.name.Some? then body.name.value else t.segments[id].name)
            && (body.rule.Some? ==> Validate(body.rule.value, [], 0) == Success(t'.segments[id].rule))
            && (body.rule.None? ==> t'.segments[id].rule == t.segments[id].rule)
            && (body.rule.Some? && t.segments[id].kind == DYNAMIC ==>
                  && Consistent(t'.segments, metrics, t'.members, id)
                  && Announced(t, t', id, t.members[id])
                  && forall p :: Edge(p, id) in t'.dependencies <==> p in Refs(t'.segments[id].rule))
            && (body.rule.None? || t.segments[id].kind == STATIC ==>
                  && t'.members == t.members && t'.deltas == t.deltas && t'.outbox == t.outbox
                  && t'.dependencies == t.dependencies && t'.batches == t.batches)
  {
    if body.rule.Some? && t.segments[id].kind == DYNAMIC {
      SavedAndEvaluated(t, Patched(t, id, body), metrics, id);
    }
  }

  /** When a create is refused and with what, in the source's order. */
  lemma CreateRefusedAs(t: TableState, metrics: MetricsTable, customers: set<CustomerId>, id: SegmentId, body: CreateBody)
    requires ForeignKeys(t) && id !in t.segments
    ensures var (t', error) := Created(t, metrics, customers, id, body);
            var rule := Validate(body.rule, [], 0);
            var admitted := body.name != "" && rule.Success? && Refs(rule.value) <= t.segments.Keys;
            var taken := exists other | other in t.segments :: t.segments[other].name == body.name;
            && (body.name == "" <==> error == Some(BadName))
            && (body.name != "" && rule.Failure? ==> error == Some(InvalidRule(rule.error)))
            && (body.name != "" && rule.Success? && !(Refs(rule.value) <= t.segments.Keys) <==> error == Some(UnknownReferences))
            && (admitted && taken <==> error == Some(NameTaken))
            && (admitted && !taken && body.kind == STATIC && !(body.initialMemberIds <= customers)
                <==> error == Some(UnknownCustomer))
            && (admitted && !taken && (body.kind == STATIC ==> body.initialMemberIds <= customers) <==> error.None?)
            && (error.Some? && error != Some(UnknownCustomer) ==> t' == t)
  {
  }

  /**
   What an accepted create of a DYNAMIC segment does: it is stored as given, with the validated rule,
   agrees with its rule at once, has its edges, and its rows and event tell who came in.
   */
  lemma CreateDynamicEffect(t: TableState, metrics: MetricsTable, customers: set<CustomerId>, id: SegmentId, body: CreateBody)
    requires ForeignKeys(t) && id !in t.segments && forall d | d in t.deltas :: d.batchId != t.batches
    requires body.kind == DYNAMIC && Created(t, metrics, customers, id, body).1.None?
    ensures var t' := Created(t, metrics, customers, id, body).0;
            && id in t'.segments && id in t'.members && OthersUntouched(t, t', id)
            && t'.segments[id].name == body.name && t'.segments[id].kind == DYNAMIC
            && Validate(body.rule, [], 0) == Success(t'.segments[id].rule)
            && Consistent(t'.segments, metrics, t'.members, id)
            && Announced(t, t', id, {})
            && forall p :: Edge(p, id) in t'.dependencies <==> p in Refs(t'.segments[id].rule)
  {
    CreatedIsEvaluated(t, metrics, customers, id, body);
    var segment := Segment(body.name, DYNAMIC, Validate(body.rule, [], 0).value);
    AddedTouchesNoOther(t, id, segment);
    SavedAndEvaluated(t, WithSegment(t, id, segment, {}), metrics, id);
  }

  lemma AddedTouchesNoOther(t: TableState, id: SegmentId, segment: Segment)
    requires ForeignKeys(t) && id !in t.segments
    ensures var added := WithSegment(t, id, segment, {});
            && ForeignKeys(added) && OthersUntouched(t, added, id) && added.members[id] == {} && added.segments[id] == segment
            && added.deltas == t.deltas && added.outbox == t.outbox && added.batches == t.batches
  {
  }

  lemma CreatedIsEvaluated(t: TableState, metrics: MetricsTable, customers: set<CustomerId>, id: SegmentId, body: CreateBody)
    requires ForeignKeys(t) && id !in t.segments && body.kind == DYNAMIC && Created(t, metrics, customers, id, body).1.None?
    ensures var rule := Validate(body.rule, [], 0);
            && rule.Success?
            && var added := WithSegment(t, id, Segment(body.name, DYNAMIC, rule.value), {});
               && ForeignKeys(added) && EvaluationFailure(added, id, false).None?
               && Created(t, metrics, customers, id, body).0 == AfterEvaluate(added, metrics, id, false)
  {
  }

  /**
   And of a STATIC one: it has exactly the initial members, without edges, rows or event; with an
   unknown customer among them the answer is an error and the segment stays behind empty.
   */
  lemma CreateStaticEffect(t: TableState, metrics: MetricsTable, customers: set<CustomerId>, id: SegmentId, body: CreateBody)
    requires ForeignKeys(t) && id !in t.segments && body.kind == STATIC
    requires var error := Created(t, metrics, customers, id, body).1; error.None? || error.value.UnknownCustomer?
    ensures var (t', error) := Created(t, metrics, customers, id, body);
            && id in t'.segments && id in t'.members && OthersUntouched(t, t', id)
            && t'.segments[id].name == body.name && t'.segments[id].kind == STATIC
            && Validate(body.rule, [], 0) == Success(t'.segments[id].rule)
            && t'.members[id] == (if error.None? then body.initialMemberIds else {})
            && t'.deltas == t.deltas && t'.outbox == t.outbox
            && t'.dependencies == t.dependencies && t'.batches == t.batches
  {
  }

  /** What a delete does: refused exactly for an unknown segment or one with an edge from it; else it and its rows go. */
  lemma RemoveEffect(t: TableState, id: SegmentId)
    requires ForeignKeys(t)
    ensures var (t', error) := Removed(t, id);
            && (error == Some(NotFound) <==> id !in t.segments)
            && (error == Some(HasDependents) <==> id in t.segments && exists child :: Edge(id, child) in t.dependencies)
            && (error.None? <==> id in t.segments && forall child :: Edge(id, child) !in t.dependencies)
            && (error.Some? ==> t' == t)
            && (error.None? ==>
                  && t'.segments.Keys == t.segments.Keys - {id} && t'.members.Keys == t.members.Keys - {id}
                  && (forall other | other in t'.segments :: t'.segments[other] == t.segments[other])
                  && (forall other | other in t'.members :: t'.members[other] == t.members[other])
                  && (forall p, child :: Edge(p, child) in t'.dependencies <==> Edge(p, child) in t.dependencies && child != id)
                  && (forall d :: d in t'.deltas <==> d in t.deltas && d.segmentId != id)
                  && t'.outbox == t.outbox && t'.batches == t.batches)
  {
    forall e | e in t.dependencies ensures e == Edge(e.parentId, e.childId) {
    }
    assert forall child | Edge(id, child) in t.dependencies :: Edge(id, child).parentId == id;
    if e :| e in t.dependencies && e.parentId == id {
      assert Edge(id, e.childId) in t.dependencies;
    }
  }

  lemma BackReferenceIsAdmitted(t: TableState, metrics: MetricsTable, a: SegmentId, b: SegmentId, input: Json)
    requires ForeignKeys(t) && a != b && a in t.segments && b in t.segments
    requires Validate(input, [], 0) == Success(InSegment(b))
    ensures var (t', error) := Updated(t, metrics, a, UpdateBody(None, Some(input)));
            error.None? && t'.segments == t.segments[a := t.segments[a].(rule := InSegment(b))]
  {
  }

  lemma BackReferenceClosesCycle(segments: map<SegmentId, Segment>, a: SegmentId, b: SegmentId)
    requires a != b && IsDynamic(segments, a) && IsDynamic(segments, b) && a in Refs(segments[b].rule)
    ensures !Acyclic(DynamicGraph(segments[a := segments[a].(rule := InSegment(b))]))
    ensures DynamicIds(segments[a := segments[a].(rule := InSegment(b))]) == DynamicIds(segments)
  {
    var segments' := segments[a := segments[a].(rule := InSegment(b))];
    assert DynamicIds(segments') == DynamicIds(segments);
    assert IsCycle(DynamicGraph(segments'), [a, b, a]);
  }

  lemma BackReferenceIsListed(segments: map<SegmentId, Segment>, a: SegmentId, b: SegmentId)
    requires References(segments) && a in segments && b in segments
    ensures References(segments[a := segments[a].(rule := InSegment(b))])
  {
  }

  /** A family of such updates: pointing a segment at one of its own dependents is accepted, and every later rebuild throws. */
  lemma UpdateAcceptsCycles(t: TableState, metrics: MetricsTable, a: SegmentId, b: SegmentId, input: Json, rows: seq<SegmentId>)
    requires Sound(t) && a != b
    requires IsDynamic(t.segments, a) && IsDynamic(t.segments, b) && a in Refs(t.segments[b].rule)
    requires Validate(input, [], 0) == Success(InSegment(b))
    requires ListsDynamic(t.segments, rows)
    ensures var (t', error) := Updated(t, metrics, a, UpdateBody(None, Some(input)));
            && error.None?
            && !Acyclic(DynamicGraph(t'.segments))
            && ListsDynamic(t'.segments, rows)
            && RebuildFailure(t', metrics, rows).Some?
  {
    BackReferenceIsAdmitted(t, metrics, a, b, input);
    BackReferenceClosesCycle(t.segments, a, b);
    BackReferenceIsListed(t.segments, a, b);
    RebuildRefusesCycles(Updated(t, metrics, a, UpdateBody(None, Some(input))).0, metrics, rows);
  }

  /**
   What the delete guard protects: after an accepted delete no DYNAMIC segment has lost a
   reference, so each can still be evaluated; a STATIC segment that refers to the deleted one
   but was never refreshed is not protected, and its refresh now throws. A segment that could be
   refreshed before still can be if and only if its rule does not refer to the deleted one.
   */
  lemma RemoveBreaksRefreshIff(t: TableState, id: SegmentId, s: SegmentId)
    requires Sound(t) && Removed(t, id).1.None? && s in t.segments && s != id
    requires EvaluationFailure(t, s, true).None?
    ensures EvaluationFailure(Removed(t, id).0, s, true).None? <==> id !in Refs(t.segments[s].rule)
    ensures IsDynamic(t.segments, s) ==> EvaluationFailure(Removed(t, id).0, s, true).None?
    ensures EvaluationFailure(Removed(t, id).0, s, true).Some? ==>
              EvaluationFailure(Removed(t, id).0, s, true) == Some(DependencyRejected(UnknownParent))
  {
    if IsDynamic(t.segments, s) {
      assert EdgesMatch(t, s);
      assert forall p | p in Incoming(t.dependencies, s) :: Edge(p, s) in t.dependencies;
    }
  }

  /** Such a segment: STATIC, stored with a rule that refers to `a`, without edge rows because it was never refreshed. */
  lemma RemoveBreaksRefresh(a: SegmentId, s: SegmentId)
    requires a != s
    ensures var segments := map[a := Segment("a", DYNAMIC, Compare(TxCountTotal, Gt, Finite(0.0))),
                                s := Segment("s", STATIC, InSegment(a))];
            var t := TableState(segments, map[a := {}, s := {}], {}, {}, [], 0);
            && Sound(t)
            && EvaluationFailure(t, s, true).None?
            && Removed(t, a).1.None?
            && EvaluationFailure(Removed(t, a).0, s, true) == Some(DependencyRejected(UnknownParent))
  {
    var segments := map[a := Segment("a", DYNAMIC, Compare(TxCountTotal, Gt, Finite(0.0))),
                        s := Segment("s", STATIC, InSegment(a))];
    var t := TableState(segments, map[a := {}, s := {}], {}, {}, [], 0);
    assert segments[a].name[0] == 'a' && segments[s].name[0] == 's';
    assert Sound(t);
    RemoveBreaksRefreshIff(t, a, s);
  }

  /**
   Where the event log is silent: after an accepted create, replaying its events over the new,
   empty segment gives the member table exactly when the segment is DYNAMIC or got no initial
   members. Initial members of a STATIC segment are stored without any event.
   */
  lemma CreateIsLoggedIff(t: TableState, r: Request)
    requires Sound(t) && r.Create? && r.id !in t.segments
    requires Created(t, r.metrics, r.customers, r.id, r.create).1.None?
    ensures |Served(t, r).outbox| >= |t.outbox|
    ensures var t' := Served(t, r);
            var fresh' := Payloads(t'.outbox[|t.outbox|..]);
            t'.members == Replayed(t.members[r.id := {}], fresh', |fresh'|)
            <==> r.create.kind.DYNAMIC? || r.create.initialMemberIds == {}
  {
    var body, t' := r.create, Served(t, r);
    var segment := Segment(body.name, body.kind, Admit(t.segments, body.rule, None).value);
    var added := WithSegment(t, r.id, segment, {});
    if body.kind.DYNAMIC? {
      EvaluateLogs(added, r.metrics, r.id);
      var diff := Diff(added, r.metrics, r.id);
      assert Payloads(t'.outbox[|t.outbox|..]) == if IsEmpty(diff) then [] else [diff];
    } else {
      assert Payloads(t'.outbox[|t.outbox|..]) == [];
      assert t'.members[r.id] == body.initialMemberIds;
    }
  }

  /** Such a create: the first segment, STATIC, with one initial member. It is accepted and no event tells of the member. */
  lemma InitialMembersAreNotLogged(id: SegmentId, c: CustomerId)
    ensures var rule := Compare(TxCountTotal, Gt, Finite(0.0));
            var t := TableState(map[], map[], {}, {}, [], 0);
            var r := Create(map[], {c}, id, CreateBody("March Campaign", STATIC, ToJson(rule), {c}));
            && Sound(t)
            && Created(t, r.metrics, r.customers, id, r.create).1.None?
            && Served(t, r).outbox == []
            && Served(t, r).members == map[id := {c}]
            && Served(t, r).members != Replayed(t.members[id := {}], Payloads([]), 0)
  {
    var rule := Compare(TxCountTotal, Gt, Finite(0.0));
    ValidateRoundTrip(rule);
    assert c in {c};
  }
}
