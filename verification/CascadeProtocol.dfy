/**
 The whole update protocol as a step system: data changes and their marks, the buffer
 swap and the rebuild it starts, rule updates, the outbox publisher, the broker queue and
 the cascade consumer, in any interleaving, with duplicates, failures, crashes and redeliveries.
 An evaluation loads its segment, writes edges, reads metrics, reads parents, reads its own
 members and commits in six separate steps. Evaluations of different segments overlap freely;
 one of a segment waits for the one before it (see "Left out").
 */
module CascadeProtocol {
  import opened Wrappers
  import opened SegmentRules
  import opened Evaluator
  import opened Tables
  import opened Dependency
  import opened Graph
  import opened SegmentOrder
  import opened SegmentEvaluation
  import opened Denotation
  import opened CascadeConsumer

  /** The buffer-driven rebuild: none, snapshot taken but query not run yet, or the segments still ahead. */
  datatype Rebuild = Idle | Swapped | Running(todo: seq<SegmentId>)

  /** The cascade consumer (prefetch 1): the children of the delivered event still to evaluate. */
  datatype Handler = Waiting | Handling(parent: SegmentId, todo: set<SegmentId>)

  datatype Owner = ByRequest | ByRebuild | ByHandler

  /** How far an evaluation has come, and what it has read so far. */
  datatype Stage =
    | Loaded(segment: Segment)
    | Linked(segment: Segment)
    | Measured(segment: Segment, metrics: MetricsTable)
    | Asked(segment: Segment, asked: set<CustomerId>)
    | Compared(diff: Payload)

  /** `mends` holds if the segment counts on this evaluation alone: should it fail, the segment is dropped. */
  datatype Pass = Pass(owner: Owner, mends: bool, stage: Stage)

  /**
   `owed` holds, per request that has changed data, the customers it still has to mark.
   `refreshing` holds the segments that a request owes an evaluation after saving a rule, or
   that the bootstrap rebuild has not reached yet; any order among them is allowed.
   `dropped` holds the segments whose evaluation was due and failed: nothing will retry it. Any
   later evaluation of such a segment takes it over.
   `passes` are the open evaluations. `inFlight` is the outbox row published but not marked.
   The queue holds parents' ids. A restart forgets everything but the database, the Redis
   buffer and the broker's messages, and its bootstrap rebuild owes every DYNAMIC segment.
   */
  datatype System = System(
    t: TableState,
    metrics: MetricsTable,
    owed: seq<set<CustomerId>>,
    buffer: set<CustomerId>,
    rebuild: Rebuild,
    refreshing: set<SegmentId>,
    dropped: set<SegmentId>,
    passes: map<SegmentId, Pass>,
    inFlight: Option<nat>,
    queue: seq<SegmentId>,
    handler: Handler)

  datatype Action =
    | ChangeData(metrics: MetricsTable, ids: set<CustomerId>)
    | Mark(k: nat)
    | MarkFails(k: nat)
    | Flush
    | StartRebuild(rows: seq<SegmentId>)
    | RebuildOne
    | EndRebuild
    | RebuildFails
    | CreateSegment(id: SegmentId, segment: Segment, initial: set<CustomerId>)
    | SaveRule(id: SegmentId, rule: SegmentRule)
    | Refresh(id: SegmentId)
    | AbandonRefresh(id: SegmentId)
    | EvaluateNow(id: SegmentId)
    | RequestFails(id: SegmentId)
    | Advance(id: SegmentId)
    | Commit(id: SegmentId)
    | Publish(row: nat)
    | MarkPublished
    | PublisherFails
    | Deliver(k: nat)
    | HandleOne(child: SegmentId)
    | Ack
    | HandlerFails
    | Restart

  /** The owner has no evaluation open: each runs its own one after the other. */
  ghost predicate NoneBy(s: System, owner: Owner) {
    forall id | id in s.passes :: s.passes[id].owner != owner
  }

  ghost predicate Enabled(s: System, a: Action) {
    match a
    case ChangeData(_, ids) => ids != {}
    case Mark(k) => k < |s.owed|
    case MarkFails(k) => k < |s.owed|
    case Flush => s.rebuild.Idle? && s.buffer != {}
    case StartRebuild(rows) => s.rebuild.Swapped? && ListsDynamic(s.t.segments, rows)
    case RebuildOne =>
      s.rebuild.Running? && s.rebuild.todo != [] && NoneBy(s, ByRebuild) && s.rebuild.todo[0] !in s.passes
    case EndRebuild => s.rebuild.Running? && s.rebuild.todo == [] && NoneBy(s, ByRebuild)
    case RebuildFails => !s.rebuild.Idle?
    case CreateSegment(id, segment, initial) =>
      && id !in s.t.segments
      && Refs(segment.rule) <= s.t.segments.Keys
      && (segment.kind.DYNAMIC? ==> initial == {})
    case SaveRule(id, rule) =>
      && id in s.t.segments
      && id !in Refs(rule) && Refs(rule) <= s.t.segments.Keys
      && Acyclic(DynamicGraph(s.t.segments[id := s.t.segments[id].(rule := rule)]))
    case Refresh(id) => id in s.refreshing && id !in s.passes
    case AbandonRefresh(id) => id in s.refreshing
    case EvaluateNow(id) => IsDynamic(s.t.segments, id) && id !in s.passes
    case RequestFails(id) => id in s.passes && s.passes[id].owner.ByRequest?
    case Advance(id) => id in s.passes && !s.passes[id].stage.Compared?
    case Commit(id) =>
      id in s.passes && s.passes[id].stage.Compared? && s.passes[id].stage.diff.segmentId in s.t.members
    case Publish(row) => s.inFlight.None? && row < |s.t.outbox| && s.t.outbox[row].status.PENDING?
    case MarkPublished => s.inFlight.Some? && s.inFlight.value < |s.t.outbox|
    case PublisherFails => s.inFlight.Some?
    case Deliver(k) => s.handler.Waiting? && k < |s.queue|
    case HandleOne(child) =>
      s.handler.Handling? && child in s.handler.todo && NoneBy(s, ByHandler) && child !in s.passes
    case Ack => s.handler.Handling? && s.handler.todo == {}
    case HandlerFails => s.handler.Handling?
    case Restart => true
  }

  /** Starts an evaluation by loading its segment. It does not throw for the segments that get here. */
  function Begin(s: System, id: SegmentId, owner: Owner): System {
    if !IsDynamic(s.t.segments, id) then s
    else s.(passes := s.passes[id := Pass(owner, !owner.ByHandler? || id in s.dropped, Loaded(s.t.segments[id]))],
            dropped := s.dropped - {id})
  }

  /** The stage after `stage`, given the tables and metrics it finds. */
  function NextStage(s: System, id: SegmentId, stage: Stage): Stage
    requires !stage.Compared?
  {
    match stage
    case Loaded(segment) => Linked(segment)
    case Linked(segment) => Measured(segment, s.metrics)
    case Measured(segment, metrics) => Asked(segment, NewMembers(segment.rule, metrics, s.t.members))
    case Asked(segment, asked) =>
      var current := MembersOf(s.t.members, id);
      Compared(Payload(id, segment.name, s.t.batches, asked - current, current - asked))
  }

  /** The one step before the commit that writes: edges, and the batch id drawn for the diff. */
  function Recorded(t: TableState, id: SegmentId, stage: Stage): TableState {
    match stage
    case Loaded(segment) => t.(dependencies := WithIncoming(t.dependencies, id, Refs(segment.rule)))
    case Asked(_, _) => t.(batches := t.batches + 1)
    case _ => t
  }

  /** The next step of an open evaluation. Writing the edges does not fail for the segments that get here. */
  function Further(s: System, id: SegmentId): System
    requires id in s.passes && !s.passes[id].stage.Compared?
  {
    var pass := s.passes[id];
    if pass.stage.Loaded? && (id !in s.t.segments || DependencyFailure(s.t.segments, id, pass.stage.segment.rule).Some?) then s
    else s.(t := Recorded(s.t, id, pass.stage), passes := s.passes[id := pass.(stage := NextStage(s, id, pass.stage))])
  }

  /** Ends it. The cascade consumer goes on to its next child. */
  function Finish(s: System, id: SegmentId): System
    requires id in s.passes && s.passes[id].stage.Compared? && s.passes[id].stage.diff.segmentId in s.t.members
  {
    s.(t := Committed(s.t, s.passes[id].stage.diff),
       passes := s.passes - {id},
       handler := if s.passes[id].owner.ByHandler? && s.handler.Handling? then Handling(s.handler.parent, s.handler.todo - {id})
                  else s.handler)
  }

  /** An owner's open evaluations die with it. */
  function Without(passes: map<SegmentId, Pass>, owner: Owner): map<SegmentId, Pass> {
    map id | id in passes && passes[id].owner != owner :: passes[id]
  }

  /** What a rebuild that fails now will not evaluate. */
  function Unrebuilt(s: System): set<SegmentId> {
    match s.rebuild
    case Idle => {}
    case Swapped => DynamicIds(s.t.segments)
    case Running(todo) => Elements(todo) + set id | id in s.passes && s.passes[id].owner.ByRebuild?
  }

  /** What a handler that fails now had taken over. */
  function Unmended(s: System): set<SegmentId> {
    set id | id in s.passes && s.passes[id].owner.ByHandler? && s.passes[id].mends
  }

  ghost function Order(s: System, rows: seq<SegmentId>): seq<SegmentId>
    requires ListsDynamic(s.t.segments, rows)
  {
    BatchIsDynamicGraph(s.t.segments, rows);
    var order := Sorted(rows, s.t.segments);
    if order.Success? then order.value else []
  }

  lemma FurtherKeepsForeignKeys(s: System, id: SegmentId)
    requires ForeignKeys(s.t) && id in s.passes && !s.passes[id].stage.Compared?
    ensures ForeignKeys(Further(s, id).t)
  {
    var t' := Further(s, id).t;
    forall e | e in t'.dependencies ensures e.parentId in t'.segments && e.childId in t'.segments {
      if e.childId == id {
        assert e.parentId in Incoming(t'.dependencies, id);
      }
    }
  }

  ghost function Apply(s: System, a: Action): (s': System)
    requires ForeignKeys(s.t) && Enabled(s, a)
    ensures ForeignKeys(s'.t)
  {
    match a
    case ChangeData(metrics, ids) => s.(metrics := metrics, owed := s.owed + [ids])
    case Mark(k) => s.(owed := s.owed[..k] + s.owed[k + 1..], buffer := s.buffer + s.owed[k])
    case MarkFails(k) =>
      s.(owed := s.owed[..k] + s.owed[k + 1..], dropped := s.dropped + DynamicIds(s.t.segments))
    case Flush => s.(buffer := {}, rebuild := Swapped)
    case StartRebuild(rows) => s.(rebuild := Running(Order(s, rows)))
    case RebuildOne =>
      Begin(s, s.rebuild.todo[0], ByRebuild).(rebuild := Running(s.rebuild.todo[1..]))
    case EndRebuild => s.(rebuild := Idle)
    case RebuildFails =>
      s.(rebuild := Idle, passes := Without(s.passes, ByRebuild), dropped := s.dropped + Unrebuilt(s))
    case CreateSegment(id, segment, initial) =>
      s.(t := s.t.(segments := s.t.segments[id := segment], members := s.t.members[id := initial]),
         refreshing := s.refreshing + if segment.kind.DYNAMIC? then {id} else {})
    case SaveRule(id, rule) =>
      s.(t := s.t.(segments := s.t.segments[id := s.t.segments[id].(rule := rule)]),
         refreshing := s.refreshing + if s.t.segments[id].kind.DYNAMIC? then {id} else {})
    case Refresh(id) => Begin(s, id, ByRequest).(refreshing := s.refreshing - {id})
    case AbandonRefresh(id) => s.(refreshing := s.refreshing - {id}, dropped := s.dropped + {id})
    case EvaluateNow(id) => Begin(s, id, ByRequest)
    case RequestFails(id) => s.(passes := s.passes - {id}, dropped := s.dropped + {id})
    case Advance(id) =>
      FurtherKeepsForeignKeys(s, id);
      Further(s, id)
    case Commit(id) => Finish(s, id)
    case Publish(row) => s.(inFlight := Some(row), queue := s.queue + [s.t.outbox[row].payload.segmentId])
    case MarkPublished =>
      var row := s.inFlight.value;
      s.(t := s.t.(outbox := s.t.outbox[row := s.t.outbox[row].(status := PUBLISHED)]), inFlight := None)
    case PublisherFails => s.(inFlight := None)
    case Deliver(k) =>
      s.(queue := s.queue[..k] + s.queue[k + 1..],
         handler := Handling(s.queue[k], Dependents(s.t.dependencies, s.queue[k])))
    case HandleOne(child) => Begin(s, child, ByHandler)
    case Ack => s.(handler := Waiting)
    case HandlerFails =>
      s.(queue := s.queue + [s.handler.parent], handler := Waiting,
         passes := Without(s.passes, ByHandler), dropped := s.dropped + Unmended(s))
    case Restart =>
      s.(owed := [], rebuild := Idle, refreshing := DynamicIds(s.t.segments), dropped := {}, inFlight := None, passes := map[],
         queue := s.queue + (if s.handler.Handling? then [s.handler.parent] else []), handler := Waiting)
  }

  ghost predicate Runs(s: System, actions: seq<Action>)
    requires ForeignKeys(s.t)
    decreases |actions|
  {
    actions == [] || (Enabled(s, actions[0]) && Runs(Apply(s, actions[0]), actions[1..]))
  }

  ghost function Run(s: System, actions: seq<Action>): (end: System)
    requires ForeignKeys(s.t) && Runs(s, actions)
    ensures ForeignKeys(end.t)
    decreases |actions|
  {
    if actions == [] then s else Run(Apply(s, actions[0]), actions[1..])
  }

  /** The outbox row counts as outstanding until it has been handed to the broker. */
  ghost predicate Outstanding(s: System, row: nat) {
    row < |s.t.outbox| && s.t.outbox[row].status.PENDING? && s.inFlight != Some(row)
  }

  /** An event of `p` is on its way to the cascade consumer. */
  ghost predicate EventAhead(s: System, p: SegmentId) {
    p in s.queue || exists row: nat :: Outstanding(s, row) && s.t.outbox[row].payload.segmentId == p
  }

  ghost predicate ParentEventAhead(s: System, id: SegmentId)
    requires id in s.t.segments
  {
    exists p :: p in Refs(s.t.segments[id].rule) && EventAhead(s, p)
  }

  /** The cascade consumer has `id` on its list because of a parent that its rule refers to. */
  ghost predicate OnTheList(s: System, id: SegmentId)
    requires id in s.t.segments
  {
    s.handler.Handling? && id in s.handler.todo && s.handler.parent in Refs(s.t.segments[id].rule)
  }

  /** A rebuild or a request will evaluate `id` again, or its evaluation has been dropped. */
  ghost predicate Due(s: System, id: SegmentId) {
    || s.owed != []
    || s.buffer != {}
    || s.rebuild.Swapped?
    || (s.rebuild.Running? && id in s.rebuild.todo)
    || id in s.refreshing
    || id in s.dropped
  }

  ghost predicate HandlerPass(s: System, id: SegmentId) {
    id in s.passes && s.passes[id].owner.ByHandler?
  }

  ghost predicate Mending(s: System, id: SegmentId) {
    id in s.passes && s.passes[id].mends
  }

  /** Besides an evaluation of `id` that is open, another will follow, or has been dropped. */
  ghost predicate CoveredNext(s: System, id: SegmentId)
    requires id in s.t.segments
  {
    Due(s, id) || (OnTheList(s, id) && !HandlerPass(s, id)) || ParentEventAhead(s, id)
  }

  /** Some work already under way will evaluate `id` again, or its evaluation has been dropped. */
  ghost predicate Covered(s: System, id: SegmentId)
    requires id in s.t.segments
  {
    Due(s, id) || Mending(s, id) || OnTheList(s, id) || ParentEventAhead(s, id)
  }

  /** Committing now would give the segment what its rule asks for now. */
  ghost predicate PassFresh(s: System, diff: Payload)
    requires diff.segmentId in s.t.segments
  {
    MembersOf(s.t.members, diff.segmentId) + diff.added - diff.removed
    == NewMembers(s.t.segments[diff.segmentId].rule, s.metrics, s.t.members)
  }

  /** What an open evaluation has read is still so, or another evaluation of its segment will follow. */
  ghost predicate PassSound(s: System, id: SegmentId)
    requires id in s.passes && id in s.t.segments
  {
    match s.passes[id].stage
    case Measured(_, metrics) => metrics == s.metrics || Due(s, id)
    case Asked(_, asked) => asked == NewMembers(s.t.segments[id].rule, s.metrics, s.t.members) || CoveredNext(s, id)
    case Compared(diff) => diff.segmentId in s.t.segments && (PassFresh(s, diff) || CoveredNext(s, id))
    case _ => true
  }

  ghost predicate PassesSound(s: System) {
    forall id | id in s.passes :: id in s.t.segments && PassSound(s, id)
  }

  ghost predicate Safe(s: System, id: SegmentId)
    requires id in s.t.segments
  {
    Consistent(s.t.segments, s.metrics, s.t.members, id) || Covered(s, id)
  }

  /** The segment that the evaluation loaded has the rule that is stored now, or is being refreshed. */
  ghost predicate LoadedWell(s: System, id: SegmentId, segment: Segment)
    requires id in s.t.segments
  {
    && id !in Refs(segment.rule) && Refs(segment.rule) <= s.t.segments.Keys
    && (segment.rule == s.t.segments[id].rule || id in s.refreshing || id in s.dropped)
  }

  ghost predicate PassWellFormed(s: System, id: SegmentId)
    requires id in s.passes
  {
    && IsDynamic(s.t.segments, id)
    && (s.passes[id].owner.ByHandler? ==> s.handler.Handling? && id in s.handler.todo)
    && (!s.passes[id].owner.ByHandler? ==> s.passes[id].mends)
    && match s.passes[id].stage
       case Compared(diff) => diff.segmentId == id
       case Asked(_, _) => true
       case stage => LoadedWell(s, id, stage.segment)
  }

  /** The segment's edges are its references. */
  ghost predicate EdgesCurrent(s: System, id: SegmentId)
    requires id in s.t.segments
  {
    Incoming(s.t.dependencies, id) == Refs(s.t.segments[id].rule)
  }

  /** An evaluation that the segment counts on has loaded it and is about to write its edges. */
  ghost predicate Relinking(s: System, id: SegmentId) {
    Mending(s, id) && s.passes[id].stage.Loaded?
  }

  /** Keys and references hold, the references have no cycle, and edges lead to DYNAMIC segments only. */
  ghost predicate GraphSound(t: TableState) {
    && ForeignKeys(t)
    && References(t.segments)
    && Acyclic(DynamicGraph(t.segments))
    && (forall e | e in t.dependencies :: IsDynamic(t.segments, e.childId))
  }

  /** A segment whose edges are not its references is being refreshed or relinked, or its refresh has been dropped. */
  ghost predicate EdgesSound(s: System) {
    forall id | IsDynamic(s.t.segments, id) ::
      EdgesCurrent(s, id) || id in s.refreshing || id in s.dropped || Relinking(s, id)
  }

  ghost predicate PassesWellFormed(s: System) {
    forall id | id in s.passes :: PassWellFormed(s, id)
  }

  /** Who is scheduled for evaluation, and what the publisher and the requests have in hand. */
  ghost predicate ScheduleSound(s: System) {
    && s.refreshing <= DynamicIds(s.t.segments)
    && (s.rebuild.Running? ==> Distinct(s.rebuild.todo) && Elements(s.rebuild.todo) <= DynamicIds(s.t.segments))
    && (s.handler.Handling? ==> s.handler.todo <= DynamicIds(s.t.segments))
    && (s.inFlight.Some? ==> s.inFlight.value < |s.t.outbox| && s.t.outbox[s.inFlight.value].status.PENDING?)
    && (forall k | 0 <= k < |s.owed| :: s.owed[k] != {})
  }

  /** Everything but coverage. */
  ghost predicate WellFormed(s: System) {
    GraphSound(s.t) && EdgesSound(s) && PassesWellFormed(s) && ScheduleSound(s)
  }

  /** The coverage invariant: every DYNAMIC segment agrees with its rule or is covered, and so is every open evaluation. */
  ghost predicate Invariant(s: System) {
    WellFormed(s) && PassesSound(s) && forall id | IsDynamic(s.t.segments, id) :: Safe(s, id)
  }

  /** Actions that start an evaluation, and which. */
  predicate Starts(a: Action) {
    a.RebuildOne? || a.Refresh? || a.EvaluateNow? || a.HandleOne?
  }

  function Started(s: System, a: Action): SegmentId
    requires Starts(a) && (a.RebuildOne? ==> s.rebuild.Running? && s.rebuild.todo != [])
  {
    match a
    case RebuildOne => s.rebuild.todo[0]
    case Refresh(id) => id
    case EvaluateNow(id) => id
    case HandleOne(child) => child
  }

  predicate Edits(a: Action) {
    a.CreateSegment? || a.SaveRule?
  }

  // ----- Well-formedness -----

  function OwnerOf(a: Action): Owner {
    if a.RebuildOne? then ByRebuild else if a.HandleOne? then ByHandler else ByRequest
  }

  /** From s to s' an evaluation of `id` has begun, and only it may have left the schedule. */
  ghost predicate HasStarted(s: System, s': System, id: SegmentId, owner: Owner) {
    && IsDynamic(s.t.segments, id) && id !in s.passes
    && s'.t == s.t && s'.metrics == s.metrics && s'.owed == s.owed && s'.buffer == s.buffer
    && s'.inFlight == s.inFlight && s'.queue == s.queue && s'.handler == s.handler
    && s'.passes == s.passes[id := Pass(owner, !owner.ByHandler? || id in s.dropped, Loaded(s.t.segments[id]))]
    && s.refreshing - {id} <= s'.refreshing <= s.refreshing
    && s'.dropped == s.dropped - {id}
    && (owner.ByHandler? ==>
          && s.handler.Handling? && id in s.handler.todo
          && s'.refreshing == s.refreshing && s'.rebuild == s.rebuild)
    && (forall other | other != id && Due(s, other) :: Due(s', other))
  }

  lemma StartEffect(s: System, a: Action)
    requires WellFormed(s) && Enabled(s, a) && Starts(a)
    ensures HasStarted(s, Apply(s, a), Started(s, a), OwnerOf(a))
  {
    if a.RebuildOne? {
      assert s.rebuild.todo[0] in Elements(s.rebuild.todo) && s.rebuild.todo == [s.rebuild.todo[0]] + s.rebuild.todo[1..];
    }
  }

  lemma EditKeepsGraph(s: System, a: Action)
    requires WellFormed(s) && Enabled(s, a) && Edits(a)
    ensures GraphSound(Apply(s, a).t)
  {
    if a.CreateSegment? {
      NewSegmentKeepsAcyclic(s.t.segments, a.id, a.segment);
    }
  }

  lemma AdvanceKeepsGraph(s: System, id: SegmentId)
    requires WellFormed(s) && Enabled(s, Advance(id))
    ensures GraphSound(Apply(s, Advance(id)).t)
  {
    assert PassWellFormed(s, id);
    var t' := Apply(s, Advance(id)).t;
    forall e | e in t'.dependencies ensures IsDynamic(t'.segments, e.childId) {
      assert e in s.t.dependencies || e.childId == id;
    }
  }

  /** No other step but a commit touches segments, edges or members. */
  lemma TablesFrame(s: System, a: Action)
    requires ForeignKeys(s.t) && Enabled(s, a) && !Edits(a) && !a.Advance? && !a.Commit?
    ensures var t' := Apply(s, a).t;
            t'.segments == s.t.segments && t'.dependencies == s.t.dependencies && t'.members == s.t.members
  {
  }

  lemma StepKeepsGraph(s: System, a: Action)
    requires WellFormed(s) && Enabled(s, a)
    ensures GraphSound(Apply(s, a).t)
  {
    if Edits(a) {
      EditKeepsGraph(s, a);
    } else if a.Advance? {
      AdvanceKeepsGraph(s, a.id);
    } else if !a.Commit? {
      TablesFrame(s, a);
    }
  }

  lemma EdgesFrame(s: System, s': System)
    requires EdgesSound(s)
    requires s'.t.segments == s.t.segments && s'.t.dependencies == s.t.dependencies
    requires s.refreshing + s.dropped <= s'.refreshing + s'.dropped
    requires forall id | Relinking(s, id) :: Relinking(s', id) || id in s'.dropped || id in s'.refreshing
    ensures EdgesSound(s')
  {
    forall id | IsDynamic(s'.t.segments, id)
      ensures EdgesCurrent(s', id) || id in s'.refreshing || id in s'.dropped || Relinking(s', id)
    {
      assert id in s.refreshing + s.dropped ==> id in s'.refreshing + s'.dropped;
    }
  }

  lemma StartKeepsEdges(s: System, s': System, id: SegmentId, owner: Owner)
    requires WellFormed(s) && HasStarted(s, s', id, owner)
    ensures EdgesSound(s')
  {
    forall other | IsDynamic(s'.t.segments, other)
      ensures EdgesCurrent(s', other) || other in s'.refreshing || other in s'.dropped || Relinking(s', other)
    {
      assert EdgesCurrent(s, other) || other in s.refreshing || other in s.dropped || Relinking(s, other);
    }
  }

  lemma AdvanceKeepsEdges(s: System, id: SegmentId)
    requires WellFormed(s) && Enabled(s, Advance(id))
    ensures EdgesSound(Apply(s, Advance(id)))
  {
    var s' := Apply(s, Advance(id));
    assert PassWellFormed(s, id);
    forall other | IsDynamic(s'.t.segments, other)
      ensures EdgesCurrent(s', other) || other in s'.refreshing || other in s'.dropped || Relinking(s', other)
    {
      assert EdgesCurrent(s, other) || other in s.refreshing || other in s.dropped || Relinking(s, other);
      if other != id {
        assert Incoming(s'.t.dependencies, other) == Incoming(s.t.dependencies, other);
      }
    }
  }

  lemma EditKeepsEdges(s: System, a: Action)
    requires WellFormed(s) && Enabled(s, a) && Edits(a)
    ensures EdgesSound(Apply(s, a))
  {
    var s' := Apply(s, a);
    forall id | IsDynamic(s'.t.segments, id)
      ensures EdgesCurrent(s', id) || id in s'.refreshing || id in s'.dropped || Relinking(s', id)
    {
      if id != a.id {
        assert EdgesCurrent(s, id) || id in s.refreshing || id in s.dropped || Relinking(s, id);
      }
    }
  }

  lemma RebuildFailsKeepsEdges(s: System, a: Action)
    requires WellFormed(s) && Enabled(s, a) && a.RebuildFails?
    ensures EdgesSound(Apply(s, a))
  {
    EdgesFrame(s, Apply(s, a));
  }

  lemma PassFailsKeepsEdges(s: System, a: Action)
    requires WellFormed(s) && Enabled(s, a) && (a.RequestFails? || a.HandlerFails?)
    ensures EdgesSound(Apply(s, a))
  {
    EdgesFrame(s, Apply(s, a));
  }

  lemma StepKeepsEdges(s: System, a: Action)
    requires WellFormed(s) && Enabled(s, a)
    ensures EdgesSound(Apply(s, a))
  {
    if Starts(a) {
      StartEffect(s, a);
      StartKeepsEdges(s, Apply(s, a), Started(s, a), OwnerOf(a));
    } else if a.Advance? {
      AdvanceKeepsEdges(s, a.id);
    } else if Edits(a) {
      EditKeepsEdges(s, a);
    } else if a.RebuildFails? {
      RebuildFailsKeepsEdges(s, a);
    } else if a.RequestFails? || a.HandlerFails? {
      PassFailsKeepsEdges(s, a);
    } else if !a.Restart? {
      EdgesFrame(s, Apply(s, a));
    }
  }

  lemma PassesFrame(s: System, s': System)
    requires PassesWellFormed(s) && s'.t.segments == s.t.segments
    requires forall id | id in s'.passes :: id in s.passes && s'.passes[id] == s.passes[id]
    requires forall id | id in s'.passes && (id in s.refreshing || id in s.dropped) :: id in s'.refreshing || id in s'.dropped
    requires forall id | HandlerPass(s', id) ::
               s'.handler.Handling? && (s.handler.Handling? && id in s.handler.todo ==> id in s'.handler.todo)
    ensures PassesWellFormed(s')
  {
    forall id | id in s'.passes ensures PassWellFormed(s', id) {
      assert PassWellFormed(s, id);
    }
  }

  lemma StartKeepsPasses(s: System, s': System, id: SegmentId, owner: Owner)
    requires WellFormed(s) && HasStarted(s, s', id, owner)
    ensures PassesWellFormed(s')
  {
    NoSelfReference(s.t.segments, id);
    forall other | other in s'.passes ensures PassWellFormed(s', other) {
      if other != id {
        assert PassWellFormed(s, other);
      }
    }
  }

  lemma AdvanceKeepsPasses(s: System, id: SegmentId)
    requires WellFormed(s) && Enabled(s, Advance(id))
    ensures PassesWellFormed(Apply(s, Advance(id)))
  {
    var s' := Apply(s, Advance(id));
    assert PassWellFormed(s, id);
    forall other | other in s'.passes ensures PassWellFormed(s', other) {
      assert PassWellFormed(s, other);
    }
  }

  lemma EditKeepsPasses(s: System, a: Action)
    requires WellFormed(s) && Enabled(s, a) && Edits(a)
    ensures PassesWellFormed(Apply(s, a))
  {
    var s' := Apply(s, a);
    forall id | id in s'.passes ensures PassWellFormed(s', id) {
      assert PassWellFormed(s, id);
    }
  }

  lemma CommitKeepsPasses(s: System, id: SegmentId)
    requires WellFormed(s) && Enabled(s, Commit(id))
    ensures PassesWellFormed(Apply(s, Commit(id)))
  {
    assert PassWellFormed(s, id);
    forall other | HandlerPass(Apply(s, Commit(id)), other) ensures s.handler.Handling? && other in s.handler.todo {
      assert PassWellFormed(s, other);
    }
    PassesFrame(s, Apply(s, Commit(id)));
  }

  lemma StepKeepsPasses(s: System, a: Action)
    requires WellFormed(s) && Enabled(s, a)
    ensures PassesWellFormed(Apply(s, a))
  {
    if Starts(a) {
      StartEffect(s, a);
      StartKeepsPasses(s, Apply(s, a), Started(s, a), OwnerOf(a));
    } else if a.Advance? {
      AdvanceKeepsPasses(s, a.id);
    } else if Edits(a) {
      EditKeepsPasses(s, a);
    } else if a.Commit? {
      CommitKeepsPasses(s, a.id);
    } else {
      OtherStepKeepsPasses(s, a);
    }
  }

  lemma NoHandlerPass(s: System)
    requires PassesWellFormed(s) && (s.handler.Waiting? || s.handler.todo == {})
    ensures NoneBy(s, ByHandler)
  {
    forall id | id in s.passes ensures s.passes[id].owner != ByHandler {
      assert PassWellFormed(s, id);
    }
  }

  lemma OtherStepKeepsPasses(s: System, a: Action)
    requires WellFormed(s) && Enabled(s, a) && !Starts(a) && !Edits(a) && !a.Advance? && !a.Commit?
    ensures PassesWellFormed(Apply(s, a))
  {
    TablesFrame(s, a);
    if a.Ack? || a.Deliver? {
      NoHandlerPass(s);
    }
    PassesFrame(s, Apply(s, a));
  }

  lemma StartRebuildOrder(s: System, rows: seq<SegmentId>)
    requires GraphSound(s.t) && ListsDynamic(s.t.segments, rows)
    ensures Distinct(Order(s, rows)) && Elements(Order(s, rows)) == DynamicIds(s.t.segments)
  {
    BatchIsDynamicGraph(s.t.segments, rows);
    SortedIff(rows, s.t.segments);
  }

  lemma StartKeepsSchedule(s: System, a: Action)
    requires WellFormed(s) && Enabled(s, a) && Starts(a)
    ensures ScheduleSound(Apply(s, a))
  {
    StartEffect(s, a);
    if a.RebuildOne? {
      assert Elements(s.rebuild.todo[1..]) <= Elements(s.rebuild.todo);
    }
  }

  lemma EditKeepsSchedule(s: System, a: Action)
    requires WellFormed(s) && Enabled(s, a) && Edits(a)
    ensures ScheduleSound(Apply(s, a))
  {
    assert DynamicIds(s.t.segments) <= DynamicIds(Apply(s, a).t.segments);
  }

  lemma PassStepKeepsSchedule(s: System, id: SegmentId)
    requires WellFormed(s)
    ensures Enabled(s, Advance(id)) ==> ScheduleSound(Apply(s, Advance(id)))
    ensures Enabled(s, Commit(id)) ==> ScheduleSound(Apply(s, Commit(id)))
  {
  }

  lemma DeliverKeepsSchedule(s: System, k: nat)
    requires WellFormed(s) && Enabled(s, Deliver(k))
    ensures ScheduleSound(Apply(s, Deliver(k)))
  {
    assert forall id | id in Dependents(s.t.dependencies, s.queue[k]) :: IsDynamic(s.t.segments, id);
  }

  lemma StepKeepsSchedule(s: System, a: Action)
    requires WellFormed(s) && Enabled(s, a)
    ensures ScheduleSound(Apply(s, a))
  {
    if Starts(a) {
      StartKeepsSchedule(s, a);
    } else if Edits(a) {
      EditKeepsSchedule(s, a);
    } else if a.Advance? || a.Commit? {
      PassStepKeepsSchedule(s, a.id);
    } else if a.Deliver? {
      DeliverKeepsSchedule(s, a.k);
    } else {
      OtherStepKeepsSchedule(s, a);
    }
  }

  lemma OtherStepKeepsSchedule(s: System, a: Action)
    requires WellFormed(s) && Enabled(s, a) && !Starts(a) && !Edits(a) && !a.Advance? && !a.Commit? && !a.Deliver?
    ensures ScheduleSound(Apply(s, a))
  {
    TablesFrame(s, a);
    if a.StartRebuild? {
      StartRebuildOrder(s, a.rows);
    }
  }

  lemma StepKeepsWellFormed(s: System, a: Action)
    requires WellFormed(s) && Enabled(s, a)
    ensures WellFormed(Apply(s, a))
  {
    StepKeepsGraph(s, a);
    StepKeepsEdges(s, a);
    StepKeepsPasses(s, a);
    StepKeepsSchedule(s, a);
  }

  // ----- Coverage -----

  /** The events that are ahead stay ahead. */
  ghost predicate EventsStayAhead(s: System, s': System) {
    forall p | EventAhead(s, p) :: EventAhead(s', p)
  }

  lemma EventsFrame(s: System, s': System)
    requires s.t.outbox <= s'.t.outbox && (s'.inFlight == s.inFlight || s'.inFlight.None?)
    requires forall p | p in s.queue :: p in s'.queue
    ensures EventsStayAhead(s, s')
  {
    forall p | EventAhead(s, p) ensures EventAhead(s', p) {
      if p !in s.queue {
        var row: nat :| Outstanding(s, row) && s.t.outbox[row].payload.segmentId == p;
        assert Outstanding(s', row) && s'.t.outbox[row] == s.t.outbox[row];
      }
    }
  }

  lemma PublishKeepsEventsAhead(s: System, a: Action)
    requires WellFormed(s) && Enabled(s, a) && (a.Publish? || a.MarkPublished?)
    ensures EventsStayAhead(s, Apply(s, a))
  {
    var s' := Apply(s, a);
    forall p | EventAhead(s, p) ensures EventAhead(s', p) {
      if p !in s.queue {
        var row: nat :| Outstanding(s, row) && s.t.outbox[row].payload.segmentId == p;
        if a == Publish(row) {
          assert s'.queue[|s.queue|] == p;
        } else {
          assert Outstanding(s', row) && s'.t.outbox[row].payload.segmentId == p;
        }
      }
    }
  }

  lemma StepKeepsEventsAhead(s: System, a: Action)
    requires WellFormed(s) && Enabled(s, a) && !a.Deliver?
    ensures EventsStayAhead(s, Apply(s, a))
  {
    if a.Publish? || a.MarkPublished? {
      PublishKeepsEventsAhead(s, a);
    } else {
      EventsFrame(s, Apply(s, a));
    }
  }

  /**
   Nothing changes in rules and members, changed metrics make everyone due, and whatever stops
   covering a segment is replaced.
   */
  ghost predicate Eases(s: System, s': System) {
    && s'.t.segments == s.t.segments && s'.t.members == s.t.members
    && (s'.metrics == s.metrics || forall id | IsDynamic(s.t.segments, id) :: Due(s', id))
    && (forall id | id in s'.passes :: id in s.passes && s'.passes[id] == s.passes[id])
    && EventsStayAhead(s, s')
    && forall id | IsDynamic(s.t.segments, id) ::
         && (Due(s, id) ==> Due(s', id))
         && (Mending(s, id) ==> Mending(s', id) || Due(s', id))
         && (OnTheList(s, id) ==> OnTheList(s', id) || ParentEventAhead(s', id))
  }

  lemma EasesKeepsCoverage(s: System, s': System, id: SegmentId)
    requires Eases(s, s') && IsDynamic(s.t.segments, id)
    ensures Covered(s, id) ==> Covered(s', id)
    ensures CoveredNext(s, id) ==> CoveredNext(s', id)
  {
    if p :| p in Refs(s.t.segments[id].rule) && EventAhead(s, p) {
      assert EventAhead(s', p);
    }
  }

  lemma EasesKeepsSound(s: System, s': System, id: SegmentId)
    requires Eases(s, s') && PassesWellFormed(s) && id in s'.passes && id in s.t.segments && PassSound(s, id)
    ensures PassSound(s', id)
  {
    assert PassWellFormed(s, id);
    EasesKeepsCoverage(s, s', id);
  }

  /** Steps that neither start, advance or end an evaluation, nor edit a segment, nor deliver. */
  predicate Calm(a: Action) {
    !Starts(a) && !Edits(a) && !a.Advance? && !a.Commit? && !a.Deliver?
  }

  lemma MarkStepEases(s: System, a: Action)
    requires WellFormed(s) && Enabled(s, a) && (a.ChangeData? || a.Mark? || a.MarkFails?)
    ensures Eases(s, Apply(s, a))
  {
    StepKeepsEventsAhead(s, a);
    assert a.Mark? ==> s.owed[a.k] != {};
  }

  lemma RebuildStepEases(s: System, a: Action)
    requires WellFormed(s) && Enabled(s, a) && (a.Flush? || a.StartRebuild? || a.EndRebuild?)
    ensures Eases(s, Apply(s, a))
  {
    StepKeepsEventsAhead(s, a);
    if a.StartRebuild? {
      StartRebuildOrder(s, a.rows);
      assert forall id | IsDynamic(s.t.segments, id) :: id in Elements(Order(s, a.rows));
    }
  }

  lemma PublisherStepEases(s: System, a: Action)
    requires WellFormed(s) && Enabled(s, a) && (a.Publish? || a.MarkPublished? || a.PublisherFails?)
    ensures Eases(s, Apply(s, a))
  {
    StepKeepsEventsAhead(s, a);
  }

  lemma RebuildFailsEases(s: System, a: Action)
    requires WellFormed(s) && Enabled(s, a) && a.RebuildFails?
    ensures Eases(s, Apply(s, a))
  {
    StepKeepsEventsAhead(s, a);
    assert s.rebuild.Running? ==> forall id | id in s.rebuild.todo :: id in Elements(s.rebuild.todo);
  }

  lemma RequestStepEases(s: System, a: Action)
    requires WellFormed(s) && Enabled(s, a) && (a.RequestFails? || a.AbandonRefresh?)
    ensures Eases(s, Apply(s, a))
  {
    StepKeepsEventsAhead(s, a);
  }

  /** After a failure the message goes back to the queue, so its parent's event is ahead again. */
  lemma HandlerStepEases(s: System, a: Action)
    requires WellFormed(s) && Enabled(s, a) && (a.Ack? || a.HandlerFails?)
    ensures Eases(s, Apply(s, a))
  {
    StepKeepsEventsAhead(s, a);
    var s' := Apply(s, a);
    if a.HandlerFails? {
      assert s'.queue[|s.queue|] == s.handler.parent;
      assert EventAhead(s', s.handler.parent);
    }
  }

  lemma RestartEases(s: System, a: Action)
    requires WellFormed(s) && Enabled(s, a) && a.Restart?
    ensures Eases(s, Apply(s, a))
  {
    StepKeepsEventsAhead(s, a);
    var s' := Apply(s, a);
    assert forall id | IsDynamic(s.t.segments, id) :: Due(s', id);
    assert s.handler.Handling? ==> s'.queue[|s.queue|] == s.handler.parent;
    assert s.handler.Handling? ==> EventAhead(s', s.handler.parent);
  }

  lemma CalmStepEases(s: System, a: Action)
    requires WellFormed(s) && Enabled(s, a) && Calm(a)
    ensures Eases(s, Apply(s, a))
  {
    if a.ChangeData? || a.Mark? || a.MarkFails? {
      MarkStepEases(s, a);
    } else if a.Flush? || a.StartRebuild? || a.EndRebuild? {
      RebuildStepEases(s, a);
    } else if a.RebuildFails? {
      RebuildFailsEases(s, a);
    } else if a.RequestFails? || a.AbandonRefresh? {
      RequestStepEases(s, a);
    } else if a.Ack? || a.HandlerFails? {
      HandlerStepEases(s, a);
    } else if a.Restart? {
      RestartEases(s, a);
    } else {
      PublisherStepEases(s, a);
    }
  }

  lemma CalmStepKeepsCovered(s: System, a: Action)
    requires Invariant(s) && Enabled(s, a) && Calm(a)
    ensures PassesSound(Apply(s, a))
    ensures forall id | IsDynamic(s.t.segments, id) :: Safe(Apply(s, a), id)
  {
    var s' := Apply(s, a);
    CalmStepEases(s, a);
    forall id | id in s'.passes ensures id in s'.t.segments && PassSound(s', id) {
      EasesKeepsSound(s, s', id);
    }
    forall id | IsDynamic(s.t.segments, id) ensures Safe(s', id) {
      assert Safe(s, id);
      EasesKeepsCoverage(s, s', id);
    }
  }

  /** Starting an evaluation changes no member; its segment is covered by it instead of the schedule it came from. */
  lemma StartKeepsCovered(s: System, s': System, id: SegmentId, owner: Owner)
    requires Invariant(s) && HasStarted(s, s', id, owner)
    ensures PassesSound(s')
    ensures forall other | IsDynamic(s.t.segments, other) :: Safe(s', other)
  {
    EventsFrame(s, s');
    forall other | other in s'.passes ensures other in s'.t.segments && PassSound(s', other) {
      if other != id {
        StartKeepsSound(s, s', id, owner, other);
      }
    }
    forall other | IsDynamic(s.t.segments, other) ensures Safe(s', other) {
      assert Safe(s, other);
      EventsKeepParentEvents(s, s', other);
    }
  }

  lemma EventsKeepParentEvents(s: System, s': System, id: SegmentId)
    requires EventsStayAhead(s, s') && id in s.t.segments && id in s'.t.segments
    requires s'.t.segments[id].rule == s.t.segments[id].rule
    ensures ParentEventAhead(s, id) ==> ParentEventAhead(s', id)
  {
    if p :| p in Refs(s.t.segments[id].rule) && EventAhead(s, p) {
      assert EventAhead(s', p);
    }
  }

  lemma StartKeepsSound(s: System, s': System, id: SegmentId, owner: Owner, other: SegmentId)
    requires HasStarted(s, s', id, owner) && EventsStayAhead(s, s')
    requires other in s.passes && other in s.t.segments && PassSound(s, other)
    ensures PassSound(s', other)
  {
    EventsKeepParentEvents(s, s', other);
  }

  /** Reading on keeps what has been read sound: what it reads now is so now. */
  lemma AdvanceKeepsSound(s: System, id: SegmentId)
    requires Invariant(s) && Enabled(s, Advance(id))
    ensures PassSound(Apply(s, Advance(id)), id)
  {
    var s' := Apply(s, Advance(id));
    assert PassWellFormed(s, id) && PassSound(s, id);
    EventsFrame(s, s');
    EventsKeepParentEvents(s, s', id);
    if s.passes[id].stage.Asked? {
      var asked, current := s.passes[id].stage.asked, MembersOf(s.t.members, id);
      assert current + (asked - current) - (current - asked) == asked;
    }
  }

  /** From s to s' the evaluation of `id` has gone one step further. */
  ghost predicate HasAdvanced(s: System, s': System, id: SegmentId) {
    && s'.t.segments == s.t.segments && s'.t.members == s.t.members && s'.t.outbox == s.t.outbox
    && s'.metrics == s.metrics && s'.owed == s.owed && s'.buffer == s.buffer && s'.rebuild == s.rebuild
    && s'.refreshing == s.refreshing && s'.dropped == s.dropped
    && s'.inFlight == s.inFlight && s'.queue == s.queue && s'.handler == s.handler
    && id in s.passes && s'.passes.Keys == s.passes.Keys
    && s'.passes[id].owner == s.passes[id].owner && s'.passes[id].mends == s.passes[id].mends
    && forall other | other in s.passes && other != id :: s'.passes[other] == s.passes[other]
  }

  lemma AdvanceEffect(s: System, id: SegmentId)
    requires ForeignKeys(s.t) && Enabled(s, Advance(id))
    ensures HasAdvanced(s, Apply(s, Advance(id)), id)
  {
  }

  lemma AdvanceKeepsOthers(s: System, s': System, id: SegmentId, other: SegmentId)
    requires Invariant(s) && HasAdvanced(s, s', id)
    ensures IsDynamic(s.t.segments, other) ==> Safe(s', other)
    ensures other in s.passes && other != id ==> other in s.t.segments && PassSound(s', other)
  {
    EventsFrame(s, s');
    if IsDynamic(s.t.segments, other) {
      assert Safe(s, other);
      EventsKeepParentEvents(s, s', other);
    }
    if other in s.passes {
      assert PassWellFormed(s, other) && PassSound(s, other);
    }
  }

  lemma AdvanceKeepsCovered(s: System, id: SegmentId)
    requires Invariant(s) && Enabled(s, Advance(id))
    ensures PassesSound(Apply(s, Advance(id)))
    ensures forall other | IsDynamic(s.t.segments, other) :: Safe(Apply(s, Advance(id)), other)
  {
    var s' := Apply(s, Advance(id));
    AdvanceEffect(s, id);
    AdvanceKeepsSound(s, id);
    forall other | other in s'.passes ensures other in s'.t.segments && PassSound(s', other) {
      AdvanceKeepsOthers(s, s', id, other);
    }
    forall other | IsDynamic(s.t.segments, other) ensures Safe(s', other) {
      AdvanceKeepsOthers(s, s', id, other);
    }
  }

  /** From s to s' the evaluation of `id` has committed. */
  lemma CommitEffect(s: System, id: SegmentId, other: SegmentId)
    requires WellFormed(s) && Enabled(s, Commit(id)) && IsDynamic(s.t.segments, other)
    ensures var s', diff := Finish(s, id), s.passes[id].stage.diff;
            && EventsStayAhead(s, s')
            && (ParentEventAhead(s, other) ==> ParentEventAhead(s', other))
            && (id in Refs(s.t.segments[other].rule) && !IsEmpty(diff) ==> ParentEventAhead(s', other))
            && (forall r | r != id || IsEmpty(diff) :: MembersOf(s'.t.members, r) == MembersOf(s.t.members, r))
  {
    var s', diff := Finish(s, id), s.passes[id].stage.diff;
    assert PassWellFormed(s, id);
    EventsFrame(s, s');
    EventsKeepParentEvents(s, s', other);
    if !IsEmpty(diff) {
      assert Outstanding(s', |s.t.outbox|) && EventAhead(s', id);
    }
  }

  /** What another segment's evaluation or members rest on is untouched by a commit, or its event covers them. */
  lemma CommitLeavesOthers(s: System, id: SegmentId, other: SegmentId)
    requires WellFormed(s) && Enabled(s, Commit(id)) && IsDynamic(s.t.segments, other) && other != id
    ensures var s' := Finish(s, id);
            && MembersOf(s'.t.members, other) == MembersOf(s.t.members, other)
            && (ParentEventAhead(s', other)
                || NewMembers(s.t.segments[other].rule, s.metrics, s'.t.members)
                   == NewMembers(s.t.segments[other].rule, s.metrics, s.t.members))
  {
    CommitEffect(s, id, other);
    if !(id in Refs(s.t.segments[other].rule) && !IsEmpty(s.passes[id].stage.diff)) {
      NewMembersFootprint(s.t.segments[other].rule, s.metrics, s.t.members, Finish(s, id).t.members);
    }
  }

  lemma CommitKeepsCoveredNext(s: System, id: SegmentId, other: SegmentId)
    requires WellFormed(s) && Enabled(s, Commit(id)) && IsDynamic(s.t.segments, other) && other != id
    ensures CoveredNext(s, other) ==> CoveredNext(Finish(s, id), other)
    ensures Due(s, other) ==> Due(Finish(s, id), other)
  {
    CommitEffect(s, id, other);
  }

  /** An open evaluation of another segment stays sound over a commit. */
  lemma CommitKeepsSound(s: System, id: SegmentId, other: SegmentId)
    requires Invariant(s) && Enabled(s, Commit(id)) && other in s.passes && other != id
    ensures PassSound(Finish(s, id), other)
  {
    assert PassWellFormed(s, other) && PassSound(s, other);
    CommitKeepsCoveredNext(s, id, other);
    CommitLeavesOthers(s, id, other);
  }

  /** The committed segment agrees with its rule if what its evaluation read is still so, and otherwise is covered. */
  lemma CommitSettles(s: System, id: SegmentId)
    requires Invariant(s) && Enabled(s, Commit(id))
    ensures Safe(Finish(s, id), id)
  {
    assert PassWellFormed(s, id) && PassSound(s, id);
    CommitEffect(s, id, id);
    NoSelfReference(s.t.segments, id);
    NewMembersFootprint(s.t.segments[id].rule, s.metrics, s.t.members, Finish(s, id).t.members);
  }

  /**
   Committing an evaluation settles its segment if what it read is still so, and if it changes
   the segment's members the event it writes covers everyone who refers to it.
   */
  lemma CommitKeepsSafe(s: System, id: SegmentId, other: SegmentId)
    requires Invariant(s) && Enabled(s, Commit(id)) && IsDynamic(s.t.segments, other)
    ensures Safe(Finish(s, id), other)
  {
    if other == id {
      CommitSettles(s, id);
    } else {
      assert Safe(s, other);
      CommitEffect(s, id, other);
      CommitLeavesOthers(s, id, other);
    }
  }

  lemma CommitKeepsCovered(s: System, id: SegmentId)
    requires Invariant(s) && Enabled(s, Commit(id))
    ensures PassesSound(Finish(s, id))
    ensures forall other | IsDynamic(s.t.segments, other) :: Safe(Finish(s, id), other)
  {
    forall other | other in Finish(s, id).passes ensures other in s.t.segments && PassSound(Finish(s, id), other) {
      CommitKeepsSound(s, id, other);
    }
    forall other | IsDynamic(s.t.segments, other) ensures Safe(Finish(s, id), other) {
      CommitKeepsSafe(s, id, other);
    }
  }

  lemma OtherEventsStay(s: System, k: nat, p: SegmentId)
    requires ForeignKeys(s.t) && Enabled(s, Deliver(k)) && EventAhead(s, p) && p != s.queue[k]
    ensures EventAhead(Apply(s, Deliver(k)), p)
  {
    var s' := Apply(s, Deliver(k));
    if p in s.queue {
      var i :| 0 <= i < |s.queue| && s.queue[i] == p;
      assert s'.queue[if i < k then i else i - 1] == p;
    } else {
      var row: nat :| Outstanding(s, row) && s.t.outbox[row].payload.segmentId == p;
      assert Outstanding(s', row);
    }
  }

  lemma DeliveredIsListed(s: System, k: nat, id: SegmentId)
    requires ForeignKeys(s.t) && Enabled(s, Deliver(k)) && id in s.t.segments
    requires s.queue[k] in Refs(s.t.segments[id].rule) && EdgesCurrent(s, id)
    ensures OnTheList(Apply(s, Deliver(k)), id)
  {
    assert s.queue[k] in Incoming(s.t.dependencies, id);
    assert Edge(s.queue[k], id) in s.t.dependencies;
  }

  /** The delivered event is replaced by the list it leads to; other events stay where they are. */
  lemma DeliverKeepsParentEvents(s: System, k: nat, id: SegmentId)
    requires WellFormed(s) && Enabled(s, Deliver(k)) && IsDynamic(s.t.segments, id) && ParentEventAhead(s, id)
    ensures var s' := Apply(s, Deliver(k)); ParentEventAhead(s', id) || OnTheList(s', id) || Due(s', id) || Relinking(s', id)
  {
    var p :| p in Refs(s.t.segments[id].rule) && EventAhead(s, p);
    if p != s.queue[k] {
      OtherEventsStay(s, k, p);
    } else if EdgesCurrent(s, id) {
      DeliveredIsListed(s, k, id);
    }
  }

  lemma DeliverKeepsSafe(s: System, k: nat, id: SegmentId)
    requires WellFormed(s) && Enabled(s, Deliver(k)) && IsDynamic(s.t.segments, id) && Safe(s, id)
    ensures Safe(Apply(s, Deliver(k)), id)
  {
    if ParentEventAhead(s, id) {
      DeliverKeepsParentEvents(s, k, id);
    }
  }

  lemma DeliverKeepsSound(s: System, k: nat, id: SegmentId)
    requires Invariant(s) && Enabled(s, Deliver(k)) && id in s.passes
    ensures PassSound(Apply(s, Deliver(k)), id)
  {
    assert PassWellFormed(s, id) && PassSound(s, id);
    if ParentEventAhead(s, id) {
      DeliverKeepsParentEvents(s, k, id);
    }
  }

  lemma EditLeavesAnswers(s: System, a: Action, id: SegmentId)
    requires WellFormed(s) && Enabled(s, a) && Edits(a) && IsDynamic(s.t.segments, id)
    ensures var t' := Apply(s, a).t;
            && MembersOf(t'.members, id) == MembersOf(s.t.members, id)
            && (id != a.id ==> NewMembers(s.t.segments[id].rule, s.metrics, t'.members)
                               == NewMembers(s.t.segments[id].rule, s.metrics, s.t.members))
  {
    var s' := Apply(s, a);
    forall r | r in s.t.segments ensures MembersOf(s.t.members, r) == MembersOf(s'.t.members, r) {
    }
    NewMembersFootprint(s.t.segments[id].rule, s.metrics, s.t.members, s'.t.members);
  }

  lemma EditKeepsCoverage(s: System, a: Action, id: SegmentId)
    requires WellFormed(s) && Enabled(s, a) && Edits(a) && IsDynamic(s.t.segments, id) && id != a.id
    ensures var s' := Apply(s, a);
            && (Due(s, id) ==> Due(s', id))
            && (Covered(s, id) ==> Covered(s', id))
            && (CoveredNext(s, id) ==> CoveredNext(s', id))
  {
    StepKeepsEventsAhead(s, a);
    EventsKeepParentEvents(s, Apply(s, a), id);
  }

  lemma EditKeepsSafe(s: System, a: Action, id: SegmentId)
    requires Invariant(s) && Enabled(s, a) && Edits(a) && IsDynamic(Apply(s, a).t.segments, id)
    ensures Safe(Apply(s, a), id)
  {
    if id != a.id {
      assert Safe(s, id);
      EditKeepsCoverage(s, a, id);
      EditLeavesAnswers(s, a, id);
    }
  }

  lemma EditKeepsSound(s: System, a: Action, id: SegmentId)
    requires Invariant(s) && Enabled(s, a) && Edits(a) && id in s.passes
    ensures id in Apply(s, a).t.segments && PassSound(Apply(s, a), id)
  {
    assert PassWellFormed(s, id) && PassSound(s, id);
    if id != a.id {
      EditKeepsCoverage(s, a, id);
      EditLeavesAnswers(s, a, id);
    }
  }

  /** An open evaluation stays sound over every other step: what it has read stays so, or another evaluation will follow. */
  lemma StepKeepsPassesSound(s: System, a: Action)
    requires Invariant(s) && Enabled(s, a)
    ensures PassesSound(Apply(s, a))
  {
    if Starts(a) {
      StartEffect(s, a);
      StartKeepsCovered(s, Apply(s, a), Started(s, a), OwnerOf(a));
    } else if Edits(a) {
      forall id | id in Apply(s, a).passes ensures id in Apply(s, a).t.segments && PassSound(Apply(s, a), id) {
        EditKeepsSound(s, a, id);
      }
    } else if a.Advance? {
      AdvanceKeepsCovered(s, a.id);
    } else if a.Commit? {
      CommitKeepsCovered(s, a.id);
    } else if a.Deliver? {
      forall id | id in Apply(s, a).passes ensures id in Apply(s, a).t.segments && PassSound(Apply(s, a), id) {
        DeliverKeepsSound(s, a.k, id);
      }
    } else {
      CalmStepKeepsCovered(s, a);
    }
  }

  lemma StepKeepsSafe(s: System, a: Action, id: SegmentId)
    requires Invariant(s) && Enabled(s, a) && IsDynamic(Apply(s, a).t.segments, id)
    ensures Safe(Apply(s, a), id)
  {
    if Starts(a) {
      StartEffect(s, a);
      StartKeepsCovered(s, Apply(s, a), Started(s, a), OwnerOf(a));
    } else if Edits(a) {
      EditKeepsSafe(s, a, id);
    } else if a.Advance? {
      AdvanceKeepsCovered(s, a.id);
    } else if a.Commit? {
      CommitKeepsCovered(s, a.id);
    } else if a.Deliver? {
      assert Safe(s, id);
      DeliverKeepsSafe(s, a.k, id);
    } else {
      TablesFrame(s, a);
      CalmStepKeepsCovered(s, a);
    }
  }

  /** The coverage invariant is kept by every step. */
  lemma StepKeepsInvariant(s: System, a: Action)
    requires Invariant(s) && Enabled(s, a)
    ensures Invariant(Apply(s, a))
  {
    StepKeepsWellFormed(s, a);
    StepKeepsPassesSound(s, a);
    forall id | IsDynamic(Apply(s, a).t.segments, id) ensures Safe(Apply(s, a), id) {
      StepKeepsSafe(s, a, id);
    }
  }

  lemma {:induction false} RunKeepsInvariant(s: System, actions: seq<Action>)
    requires Invariant(s) && Runs(s, actions)
    ensures Invariant(Run(s, actions))
    decreases |actions|
  {
    if actions != [] {
      StepKeepsInvariant(s, actions[0]);
      RunKeepsInvariant(Apply(s, actions[0]), actions[1..]);
    }
  }

  // ----- Conservation -----

  /** The messages that the broker has for the cascade consumer, the one being handled included. */
  function Messages(s: System): multiset<SegmentId> {
    multiset(s.queue) + if s.handler.Handling? then multiset{s.handler.parent} else multiset{}
  }

  lemma WithoutOne(queue: seq<SegmentId>, k: nat)
    requires k < |queue|
    ensures multiset(queue) == multiset(queue[..k] + queue[k + 1..]) + multiset{queue[k]}
  {
    assert queue == queue[..k] + [queue[k]] + queue[k + 1..];
  }

  /** Steps that move no message. */
  predicate MovesNoMessage(a: Action) {
    !a.Publish? && !a.Deliver? && !a.Ack? && !a.HandlerFails? && !a.Restart?
  }

  lemma MessagesStay(s: System, a: Action)
    requires ForeignKeys(s.t) && Enabled(s, a) && MovesNoMessage(a)
    ensures Messages(Apply(s, a)) == Messages(s)
  {
    if a.Advance? {
      AdvanceEffect(s, a.id);
    }
  }

  lemma DeliverKeepsMessages(s: System, a: Action)
    requires ForeignKeys(s.t) && Enabled(s, a) && a.Deliver?
    ensures Messages(Apply(s, a)) == Messages(s)
  {
    WithoutOne(s.queue, a.k);
  }

  lemma FailureKeepsMessages(s: System, a: Action)
    requires ForeignKeys(s.t) && Enabled(s, a) && (a.HandlerFails? || a.Restart?)
    ensures Messages(Apply(s, a)) == Messages(s)
  {
  }

  lemma PublishAddsMessage(s: System, a: Action)
    requires ForeignKeys(s.t) && Enabled(s, a) && a.Publish?
    ensures Messages(Apply(s, a)) == Messages(s) + multiset{s.t.outbox[a.row].payload.segmentId}
  {
  }

  /** Messages appear only when a row is published and go only when the consumer acknowledges; failures and restarts lose none. */
  lemma MessagesAreConserved(s: System, a: Action)
    requires ForeignKeys(s.t) && Enabled(s, a)
    ensures a.Publish? ==> Messages(Apply(s, a)) == Messages(s) + multiset{s.t.outbox[a.row].payload.segmentId}
    ensures a.Ack? ==> Messages(Apply(s, a)) + multiset{s.handler.parent} == Messages(s)
    ensures !a.Publish? && !a.Ack? ==> Messages(Apply(s, a)) == Messages(s)
  {
    if a.Publish? {
      PublishAddsMessage(s, a);
    } else if a.Deliver? {
      DeliverKeepsMessages(s, a);
    } else if a.HandlerFails? || a.Restart? {
      FailureKeepsMessages(s, a);
    } else if !a.Ack? {
      MessagesStay(s, a);
    }
  }

  /** Marks enter the buffer when their request sets them and leave it only in a swap that a rebuild is to follow. */
  lemma MarksAreConserved(s: System, a: Action)
    requires ForeignKeys(s.t) && Enabled(s, a)
    ensures Apply(s, a).buffer == if a.Flush? then {} else if a.Mark? then s.buffer + s.owed[a.k] else s.buffer
    ensures a.Flush? ==> Apply(s, a).rebuild == Swapped
  {
  }

  /** The log only grows, by commits; a row's status moves only from PENDING to PUBLISHED, when the publisher marks it. */
  lemma LogIsConserved(s: System, a: Action)
    requires WellFormed(s) && Enabled(s, a)
    ensures var rows, rows' := s.t.outbox, Apply(s, a).t.outbox;
            && |rows'| >= |rows| && (!a.Commit? ==> |rows'| == |rows|)
            && forall i | 0 <= i < |rows| ::
                 && rows'[i].payload == rows[i].payload
                 && rows'[i].status == if a.MarkPublished? && s.inFlight == Some(i) then PUBLISHED else rows[i].status
  {
    if a.Commit? {
      assert PassWellFormed(s, a.id);
    }
  }

  lemma CommitChangesOne(s: System, a: Action, id: SegmentId)
    requires WellFormed(s) && Enabled(s, a) && a.Commit?
    ensures MembersOf(Apply(s, a).t.members, id)
         == if a.id == id then
              MembersOf(s.t.members, id) + s.passes[id].stage.diff.added - s.passes[id].stage.diff.removed
            else MembersOf(s.t.members, id)
  {
    assert PassWellFormed(s, a.id);
  }

  lemma EditChangesOne(s: System, a: Action, id: SegmentId)
    requires ForeignKeys(s.t) && Enabled(s, a) && Edits(a)
    ensures MembersOf(Apply(s, a).t.members, id)
         == if a.CreateSegment? && a.id == id then a.initial else MembersOf(s.t.members, id)
  {
  }

  /** Members change only by a commit of their own segment; a new segment has the members it was created with. */
  lemma MembersAreConserved(s: System, a: Action, id: SegmentId)
    requires WellFormed(s) && Enabled(s, a)
    ensures MembersOf(Apply(s, a).t.members, id)
         == if a.CreateSegment? && a.id == id then a.initial
            else if a.Commit? && a.id == id then
              MembersOf(s.t.members, id) + s.passes[id].stage.diff.added - s.passes[id].stage.diff.removed
            else MembersOf(s.t.members, id)
  {
    if a.Commit? {
      CommitChangesOne(s, a, id);
    } else if Edits(a) {
      EditChangesOne(s, a, id);
    } else if a.Advance? {
      AdvanceEffect(s, a.id);
    } else {
      TablesFrame(s, a);
    }
  }
}
