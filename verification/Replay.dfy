/**
 The event log as the history of the member table: what a consumer rebuilds from the
 stream, and how the log relates to the delta rows
 (apps/api/src/segments/segment-evaluation.service.ts:144-193).
 */
module Replay {
  import opened Wrappers
  import opened SegmentRules
  import opened Evaluator
  import opened Tables
  import opened SegmentEvaluation
  import opened OutboxPublisher

  /** A consumer's set update: add `added`, drop `removed`. */
  function Apply(m: Membership, p: Payload): Membership {
    m[p.segmentId := MembersOf(m, p.segmentId) + p.added - p.removed]
  }

  /** The first `n` events of the log, applied in log order. */
  function Replayed(m: Membership, log: seq<Payload>, n: nat): Membership
    requires n <= |log|
  {
    if n == 0 then m else Apply(Replayed(m, log, n - 1), log[n - 1])
  }

  lemma {:induction false} SamePrefixSameReplay(m: Membership, log: seq<Payload>, log': seq<Payload>, n: nat)
    requires n <= |log| && n <= |log'|
    requires forall i | 0 <= i < n :: log[i] == log'[i]
    ensures Replayed(m, log, n) == Replayed(m, log', n)
  {
    if n > 0 {
      SamePrefixSameReplay(m, log, log', n - 1);
    }
  }

  function Payloads(rows: seq<OutboxRow>): seq<Payload> {
    seq(|rows|, i requires 0 <= i < |rows| => rows[i].payload)
  }

  /** What a consumer has after the first `n` messages of the stream, repeats included. */
  function Consumed(m: Membership, log: seq<Payload>, stream: seq<nat>, n: nat): Membership
    requires InRange(stream, |log|) && n <= |stream|
  {
    if n == 0 then m else Apply(Consumed(m, log, stream, n - 1), log[stream[n - 1]])
  }

  predicate InRange(stream: seq<nat>, n: nat) {
    forall i | 0 <= i < |stream| :: stream[i] < n
  }

  lemma ApplyTwice(m: Membership, p: Payload)
    ensures Apply(Apply(m, p), p) == Apply(m, p)
  {
    var once := MembersOf(m, p.segmentId) + p.added - p.removed;
    assert once + p.added - p.removed == once;
  }

  lemma {:induction false} CollapseStaysInRange(stream: seq<nat>, n: nat)
    ensures InRange(stream, n) <==> InRange(Collapse(stream), n)
  {
    if |stream| > 1 {
      var front, last := stream[..|stream| - 1], stream[|stream| - 1];
      CollapseStaysInRange(front, n);
      assert stream == front + [last];
      assert InRange(stream, n) <==> InRange(front, n) && last < n;
      assert InRange(front + [last], n) <==> InRange(front, n) && last < n;
      assert InRange(Collapse(front) + [last], n) <==> InRange(Collapse(front), n) && last < n by {
        assert (Collapse(front) + [last])[..|Collapse(front)|] == Collapse(front);
      }
    }
  }

  lemma {:induction false} SamePrefixSameConsumed(m: Membership, log: seq<Payload>, stream: seq<nat>, stream': seq<nat>, n: nat)
    requires InRange(stream, |log|) && InRange(stream', |log|) && n <= |stream| && n <= |stream'|
    requires forall i | 0 <= i < n :: stream[i] == stream'[i]
    ensures Consumed(m, log, stream, n) == Consumed(m, log, stream', n)
  {
    if n > 0 {
      SamePrefixSameConsumed(m, log, stream, stream', n - 1);
    }
  }

  lemma ConsumeLast(m: Membership, log: seq<Payload>, front: seq<nat>, last: nat)
    requires InRange(front, |log|) && last < |log| && InRange(front + [last], |log|)
    ensures Consumed(m, log, front + [last], |front| + 1) == Apply(Consumed(m, log, front, |front|), log[last])
  {
    SamePrefixSameConsumed(m, log, front + [last], front, |front|);
  }

  /** Adjacent duplicates do not matter to a consumer that applies set updates. */
  lemma {:induction false} RepeatsDoNotMatter(m: Membership, log: seq<Payload>, stream: seq<nat>)
    requires InRange(stream, |log|) && InRange(Collapse(stream), |log|)
    ensures Consumed(m, log, stream, |stream|) == Consumed(m, log, Collapse(stream), |Collapse(stream)|)
  {
    if |stream| > 1 {
      var front, last := stream[..|stream| - 1], stream[|stream| - 1];
      var c := Collapse(front);
      assert stream == front + [last];
      CollapseStaysInRange(front, |log|);
      RepeatsDoNotMatter(m, log, front);
      ConsumeLast(m, log, front, last);
      if last == stream[|stream| - 2] {
        ApplyTwice(Consumed(m, log, c, |c| - 1), log[last]);
      } else {
        ConsumeLast(m, log, c, last);
      }
    }
  }

  /** Consuming the first `n` events once each is replaying that prefix of the log. */
  lemma {:induction false} ConsumePrefix(m: Membership, log: seq<Payload>, stream: seq<nat>, n: nat)
    requires n <= |stream| <= |log| && stream == Range(0, |stream|) && InRange(stream, |log|)
    ensures Consumed(m, log, stream, n) == Replayed(m, log, n)
  {
    if n > 0 {
      ConsumePrefix(m, log, stream, n - 1);
    }
  }

  /** The last change of a segment and customer among the first `n` events. */
  function LastChange(log: seq<Payload>, n: nat, s: SegmentId, c: CustomerId): Option<DeltaChange>
    requires n <= |log|
  {
    if n == 0 then None
    else if log[n - 1].segmentId == s && c in log[n - 1].removed then Some(REMOVE)
    else if log[n - 1].segmentId == s && c in log[n - 1].added then Some(ADD)
    else LastChange(log, n - 1, s, c)
  }

  lemma {:induction false} LastChangeDecides(init: Membership, log: seq<Payload>, n: nat, s: SegmentId, c: CustomerId)
    requires n <= |log|
    ensures c in MembersOf(Replayed(init, log, n), s)
      <==> LastChange(log, n, s, c) == Some(ADD) || (LastChange(log, n, s, c).None? && c in MembersOf(init, s))
  {
    if n > 0 {
      LastChangeDecides(init, log, n - 1, s, c);
    }
  }

  /** Every recorded change is a real one: an ADD of a non-member, a REMOVE of a member. */
  ghost predicate AllReal(init: Membership, log: seq<Payload>) {
    forall i | 0 <= i < |log| :: RealAt(init, log, i)
  }

  ghost predicate RealAt(init: Membership, log: seq<Payload>, i: nat)
    requires i < |log|
  {
    Real(Replayed(init, log, i), log[i])
  }

  ghost predicate Real(m: Membership, p: Payload) {
    p.added !! MembersOf(m, p.segmentId) && p.removed <= MembersOf(m, p.segmentId)
  }

  /** Per segment and customer, ADD and REMOVE strictly alternate, starting from the initial membership. */
  ghost predicate Alternates(init: Membership, log: seq<Payload>) {
    forall i | 0 <= i < |log| :: AlternatesAt(init, log, i)
  }

  /** An ADD follows a REMOVE, or is the first change of a non-member; a REMOVE the other way round. */
  ghost predicate AlternatesAt(init: Membership, log: seq<Payload>, i: nat)
    requires i < |log|
  {
    && (forall c | c in log[i].added :: NextIsAdd(init, log, i, log[i].segmentId, c))
    && (forall c | c in log[i].removed :: !NextIsAdd(init, log, i, log[i].segmentId, c))
  }

  predicate NextIsAdd(init: Membership, log: seq<Payload>, n: nat, s: SegmentId, c: CustomerId)
    requires n <= |log|
  {
    match LastChange(log, n, s, c)
    case Some(change) => change.REMOVE?
    case None => c !in MembersOf(init, s)
  }

  /** Changes alternate exactly when every commit recorded real changes only. */
  lemma AlternatesIffReal(init: Membership, log: seq<Payload>)
    ensures Alternates(init, log) <==> AllReal(init, log)
  {
    forall i | 0 <= i < |log|
      ensures AlternatesAt(init, log, i) <==> RealAt(init, log, i)
    {
      var s, m := log[i].segmentId, Replayed(init, log, i);
      forall c ensures c in MembersOf(m, s) <==> !NextIsAdd(init, log, i, s, c) {
        LastChangeDecides(init, log, i, s, c);
      }
    }
  }

  function BatchRows(deltas: set<DeltaRow>, batch: nat): set<DeltaRow> {
    set d | d in deltas && d.batchId == batch
  }

  /** Each logged batch is non-empty, has its own batch id, and its delta rows are exactly its payload's changes. */
  ghost predicate LogMatchesDeltas(deltas: set<DeltaRow>, log: seq<Payload>) {
    && (forall i | 0 <= i < |log| :: !IsEmpty(log[i]) && log[i].added !! log[i].removed
                                     && BatchRows(deltas, log[i].batchId) == DeltaRows(log[i]))
    && (forall i, j | 0 <= i < j < |log| :: log[i].batchId != log[j].batchId)
    && (forall d | d in deltas :: exists i :: 0 <= i < |log| && log[i].batchId == d.batchId)
  }

  /** Recording one more batch under a new id keeps log and delta rows in agreement. */
  lemma RecordBatch(deltas: set<DeltaRow>, log: seq<Payload>, p: Payload)
    requires LogMatchesDeltas(deltas, log) && !IsEmpty(p) && p.added !! p.removed
    requires forall i | 0 <= i < |log| :: log[i].batchId != p.batchId
    ensures LogMatchesDeltas(deltas + DeltaRows(p), log + [p])
  {
    var deltas', log' := deltas + DeltaRows(p), log + [p];
    forall i | 0 <= i < |log'| ensures BatchRows(deltas', log'[i].batchId) == DeltaRows(log'[i]) {
    }
    forall d | d in deltas' ensures exists i :: 0 <= i < |log'| && log'[i].batchId == d.batchId {
      if d in deltas {
        var i :| 0 <= i < |log| && log[i].batchId == d.batchId;
        assert log'[i] == log[i];
      } else {
        assert log'[|log|].batchId == d.batchId;
      }
    }
  }

  /**
   The orchestrator and the publisher together. `history[j]` is the member table as it was
   when the outbox had its first j rows.
   */
  datatype Pipeline = Pipeline(t: TableState, stream: seq<nat>, history: seq<Membership>)

  /** A create without initial members; a changed name or rule; an evaluation; a publisher tick. */
  datatype Event =
    | CreateSegment(id: SegmentId, segment: Segment)
    | UpdateSegment(id: SegmentId, name: string, rule: SegmentRule)
    | EvaluateSegment(metrics: MetricsTable, id: SegmentId, force: bool)
    | PublisherTick(attempts: nat -> Attempt)

  ghost function Next(p: Pipeline, e: Event): (p': Pipeline)
    requires ForeignKeys(p.t)
    ensures ForeignKeys(p'.t)
  {
    match e
    case CreateSegment(id, segment) =>
      if id in p.t.segments then p
      else p.(t := p.t.(segments := p.t.segments[id := segment], members := p.t.members[id := {}]))
    case UpdateSegment(id, name, rule) =>
      if id !in p.t.segments then p
      else p.(t := p.t.(segments := p.t.segments[id := Segment(name, p.t.segments[id].kind, rule)]))
    case EvaluateSegment(metrics, id, force) =>
      var t' := AfterEvaluate(p.t, metrics, id, force);
      Pipeline(t', p.stream, if |t'.outbox| > |p.t.outbox| then p.history + [t'.members] else p.history)
    case PublisherTick(attempts) =>
      var after := Ticked(Publication(p.t.outbox, p.stream), attempts);
      Pipeline(p.t.(outbox := after.rows), after.stream, p.history)
  }

  /** Any number of such events, from a database with no events yet. */
  ghost function Reached(t: TableState, events: seq<Event>): (p: Pipeline)
    requires ForeignKeys(t)
    ensures ForeignKeys(p.t)
  {
    if events == [] then Pipeline(t, [], [t.members])
    else Next(Reached(t, events[..|events| - 1]), events[|events| - 1])
  }

  ghost predicate Fresh(t: TableState) {
    ForeignKeys(t) && t.outbox == [] && t.deltas == {}
  }

  /** The same members in every segment; a segment without an entry has none. */
  ghost predicate SameMembers(m: Membership, m': Membership) {
    forall s :: MembersOf(m, s) == MembersOf(m', s)
  }

  lemma ApplySame(m: Membership, m': Membership, p: Payload)
    requires SameMembers(m, m')
    ensures SameMembers(Apply(m, p), Apply(m', p))
  {
    forall s ensures MembersOf(Apply(m, p), s) == MembersOf(Apply(m', p), s) {
      assert MembersOf(m, s) == MembersOf(m', s);
    }
  }

  ghost predicate PipelineInvariant(init: Membership, p: Pipeline) {
    && SameMembers(p.t.members, Replayed(init, Payloads(p.t.outbox), |p.t.outbox|))
    && AllReal(init, Payloads(p.t.outbox))
    && LogMatchesDeltas(p.t.deltas, Payloads(p.t.outbox))
    && (forall i | 0 <= i < |p.t.outbox| :: p.t.outbox[i].payload.batchId < p.t.batches)
    && Recorded(init, Payloads(p.t.outbox), p.history)
  }

  ghost predicate Recorded(init: Membership, log: seq<Payload>, history: seq<Membership>) {
    && |history| == |log| + 1
    && forall j | 0 <= j <= |log| :: SameMembers(history[j], Replayed(init, log, j))
  }

  lemma RecordedGrows(init: Membership, log: seq<Payload>, history: seq<Membership>, p: Payload, now: Membership)
    requires Recorded(init, log, history) && SameMembers(now, Apply(Replayed(init, log, |log|), p))
    ensures Recorded(init, log + [p], history + [now])
  {
    forall j | 0 <= j <= |log| ensures Replayed(init, log, j) == Replayed(init, log + [p], j) {
      SamePrefixSameReplay(init, log, log + [p], j);
    }
    ReplayOneMore(init, log, p);
  }

  lemma ReplayOneMore(init: Membership, log: seq<Payload>, p: Payload)
    ensures Replayed(init, log + [p], |log + [p]|) == Apply(Replayed(init, log, |log|), p)
  {
    SamePrefixSameReplay(init, log, log + [p], |log|);
  }

  lemma RealOneMore(init: Membership, log: seq<Payload>, p: Payload)
    ensures AllReal(init, log + [p]) <==> AllReal(init, log) && Real(Replayed(init, log, |log|), p)
  {
    var log' := log + [p];
    forall i | 0 <= i <= |log| ensures Replayed(init, log, i) == Replayed(init, log', i) {
      SamePrefixSameReplay(init, log, log', i);
    }
    assert RealAt(init, log', |log|) <==> Real(Replayed(init, log, |log|), p);
    forall i | 0 <= i < |log| ensures RealAt(init, log', i) <==> RealAt(init, log, i) {
    }
  }

  /** A pass that finds a change records it; one that does not leaves everything but its edges. */
  lemma EvaluateLogs(t: TableState, metrics: MetricsTable, id: SegmentId)
    requires ForeignKeys(t) && id in t.segments
    ensures var diff, t' := Diff(t, metrics, id), Evaluated(t, metrics, id);
            && Real(t.members, diff)
            && (IsEmpty(diff) ==> t'.members == t.members && t'.outbox == t.outbox && t'.deltas == t.deltas)
            && (!IsEmpty(diff) ==> t'.members == Apply(t.members, diff)
                                   && Payloads(t'.outbox) == Payloads(t.outbox) + [diff])
  {
    var diff, t' := Diff(t, metrics, id), Evaluated(t, metrics, id);
    var asked := NewMembers(t.segments[id].rule, metrics, t.members);
    assert t.members[id] + diff.added - diff.removed == asked;
    if IsEmpty(diff) {
      assert asked == t.members[id] && t.members[id := t.members[id]] == t.members;
      assert DeltaRows(diff) == {};
    }
  }

  lemma LoggedStepKeepsPipeline(init: Membership, p: Pipeline, p': Pipeline, diff: Payload)
    requires PipelineInvariant(init, p)
    requires Real(p.t.members, diff) && !IsEmpty(diff) && diff.added !! diff.removed && diff.batchId == p.t.batches
    requires p'.t.members == Apply(p.t.members, diff) && p'.t.deltas == p.t.deltas + DeltaRows(diff)
    requires p'.t.outbox == p.t.outbox + [OutboxRow(diff, PENDING)] && p'.t.batches == p.t.batches + 1
    requires p'.history == p.history + [p'.t.members]
    ensures PipelineInvariant(init, p')
  {
    var log, log' := Payloads(p.t.outbox), Payloads(p'.t.outbox);
    assert log' == log + [diff];
    assert MembersOf(p.t.members, diff.segmentId) == MembersOf(Replayed(init, log, |log|), diff.segmentId);
    ApplySame(p.t.members, Replayed(init, log, |log|), diff);
    ReplayOneMore(init, log, diff);
    RealOneMore(init, log, diff);
    forall i | 0 <= i < |log| ensures log[i].batchId < p.t.batches { assert log[i] == p.t.outbox[i].payload; }
    RecordBatch(p.t.deltas, log, diff);
    RecordedGrows(init, log, p.history, diff, p'.t.members);
  }

  lemma EvaluateKeepsPipeline(init: Membership, p: Pipeline, metrics: MetricsTable, id: SegmentId, force: bool)
    requires ForeignKeys(p.t) && PipelineInvariant(init, p)
    ensures PipelineInvariant(init, Next(p, EvaluateSegment(metrics, id, force)))
  {
    if EvaluationFailure(p.t, id, force).None? {
      EvaluateLogs(p.t, metrics, id);
      var diff := Diff(p.t, metrics, id);
      if !IsEmpty(diff) {
        LoggedStepKeepsPipeline(init, p, Next(p, EvaluateSegment(metrics, id, force)), diff);
      }
    }
  }

  /** Saving a segment changes no member. */
  lemma SaveKeepsPipeline(init: Membership, p: Pipeline, e: Event)
    requires ForeignKeys(p.t) && PipelineInvariant(init, p) && (e.CreateSegment? || e.UpdateSegment?)
    ensures PipelineInvariant(init, Next(p, e)) && Next(p, e).t.outbox == p.t.outbox
  {
    forall s ensures MembersOf(Next(p, e).t.members, s) == MembersOf(p.t.members, s) {
    }
  }

  lemma {:induction false} DrainKeepsPayloads(p: Publication, batch: seq<nat>, attempts: nat -> Attempt)
    requires forall i | 0 <= i < |batch| :: batch[i] < |p.rows|
    ensures Payloads(Drained(p, batch, attempts).rows) == Payloads(p.rows)
    decreases |batch|
  {
    if batch != [] && attempts(batch[0]).Accepted? {
      DrainKeepsPayloads(Publication(Marked(p.rows, batch[0]), p.stream + [batch[0]]), batch[1..], attempts);
      assert Payloads(Marked(p.rows, batch[0])) == Payloads(p.rows);
    }
  }

  lemma TickKeepsPipeline(init: Membership, p: Pipeline, attempts: nat -> Attempt)
    requires ForeignKeys(p.t) && PipelineInvariant(init, p)
    ensures PipelineInvariant(init, Next(p, PublisherTick(attempts)))
  {
    DrainKeepsPayloads(Publication(p.t.outbox, p.stream), PendingRows(p.t.outbox, 0, BATCH_SIZE), attempts);
    var rows := Next(p, PublisherTick(attempts)).t.outbox;
    assert |Payloads(rows)| == |rows|;
    forall i | 0 <= i < |rows| ensures rows[i].payload.batchId < p.t.batches {
      assert rows[i].payload == Payloads(rows)[i] == p.t.outbox[i].payload;
    }
  }

  lemma EvaluateKeepsInStep(p: Pipeline, metrics: MetricsTable, id: SegmentId, force: bool, k: nat, m: nat)
    requires ForeignKeys(p.t) && InStep(Publication(p.t.outbox, p.stream), k, m)
    ensures var p' := Next(p, EvaluateSegment(metrics, id, force)); InStep(Publication(p'.t.outbox, p'.stream), k, m)
  {
  }

  lemma NextKeepsInvariant(init: Membership, p: Pipeline, e: Event, k: nat, m: nat) returns (k': nat, m': nat)
    requires ForeignKeys(p.t) && PipelineInvariant(init, p) && InStep(Publication(p.t.outbox, p.stream), k, m)
    ensures PipelineInvariant(init, Next(p, e))
    ensures InStep(Publication(Next(p, e).t.outbox, Next(p, e).stream), k', m')
  {
    match e
    case CreateSegment(_, _) =>
      k', m' := k, m;
      SaveKeepsPipeline(init, p, e);
    case UpdateSegment(_, _, _) =>
      k', m' := k, m;
      SaveKeepsPipeline(init, p, e);
    case EvaluateSegment(metrics, id, force) =>
      k', m' := k, m;
      EvaluateKeepsInStep(p, metrics, id, force, k, m);
      EvaluateKeepsPipeline(init, p, metrics, id, force);
    case PublisherTick(attempts) =>
      k', m' := TickStaysInStep(Publication(p.t.outbox, p.stream), k, m, attempts);
      TickKeepsPipeline(init, p, attempts);
  }

  lemma FreshInvariant(t: TableState)
    requires Fresh(t)
    ensures PipelineInvariant(t.members, Pipeline(t, [], [t.members])) && InStep(Publication(t.outbox, []), 0, 0)
  {
    assert Payloads(t.outbox) == [];
  }

  lemma {:induction false} ReachedInvariant(t: TableState, events: seq<Event>) returns (k: nat, m: nat)
    requires Fresh(t)
    ensures PipelineInvariant(t.members, Reached(t, events))
    ensures InStep(Publication(Reached(t, events).t.outbox, Reached(t, events).stream), k, m)
  {
    if events == [] {
      FreshInvariant(t);
      k, m := 0, 0;
    } else {
      k, m := ReachedInvariant(t, events[..|events| - 1]);
      k, m := NextKeepsInvariant(t.members, Reached(t, events[..|events| - 1]), events[|events| - 1], k, m);
    }
  }

  lemma InStepRebuilds(init: Membership, p: Pipeline, k: nat, m: nat)
    requires PipelineInvariant(init, p) && InStep(Publication(p.t.outbox, p.stream), k, m)
    ensures InRange(p.stream, |Payloads(p.t.outbox)|)
    ensures m < |p.history| && SameMembers(Consumed(init, Payloads(p.t.outbox), p.stream, |p.stream|), p.history[m])
    ensures k == |p.t.outbox| ==> SameMembers(p.history[m], p.t.members)
  {
    var log := Payloads(p.t.outbox);
    CollapseStaysInRange(p.stream, |log|);
    ConsumePrefix(init, log, Collapse(p.stream), m);
    RepeatsDoNotMatter(init, log, p.stream);
  }

  /**
   End-to-end replay: in every state that creates, rule updates, evaluations and faulty
   publisher ticks can reach, a consumer that applies the whole duplicated broker stream to the initial memberships has the
   member table as it was after some number `m` of events, and has the current one as soon as no
   row is PENDING.
   */
  lemma StreamRebuildsMembers(t: TableState, events: seq<Event>)
    requires Fresh(t)
    ensures var p := Reached(t, events);
            var log := Payloads(p.t.outbox);
            && InRange(p.stream, |log|)
            && (exists m :: 0 <= m < |p.history| && Collapse(p.stream) == Range(0, m)
                  && SameMembers(Consumed(t.members, log, p.stream, |p.stream|), p.history[m]))
            && ((forall i | 0 <= i < |p.t.outbox| :: p.t.outbox[i].status.PUBLISHED?) ==>
                  SameMembers(Consumed(t.members, log, p.stream, |p.stream|), p.t.members))
  {
    var k, m := ReachedInvariant(t, events);
    var p := Reached(t, events);
    InStepRebuilds(t.members, p, k, m);
    assert k < |p.t.outbox| ==> !p.t.outbox[k].status.PUBLISHED?;
  }

  /** Serial history: every batch matches its delta rows, and ADD and REMOVE alternate per segment and customer. */
  lemma SerialHistoryAlternates(t: TableState, events: seq<Event>)
    requires Fresh(t)
    ensures var p := Reached(t, events);
            && LogMatchesDeltas(p.t.deltas, Payloads(p.t.outbox))
            && Alternates(t.members, Payloads(p.t.outbox))
            && SameMembers(p.t.members, Replayed(t.members, Payloads(p.t.outbox), |p.t.outbox|))
  {
    var k, m := ReachedInvariant(t, events);
    AlternatesIffReal(t.members, Payloads(Reached(t, events).t.outbox));
  }
}
