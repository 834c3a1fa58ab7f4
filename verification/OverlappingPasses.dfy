/**
 Evaluation passes that overlap: each reads the current members first and commits its diff
 later, and any number of passes interleave
 (apps/api/src/segments/segment-evaluation.service.ts:128-194).
 */
module OverlappingPasses {
  import opened Wrappers
  import opened SegmentRules
  import opened Evaluator
  import opened Tables
  import opened SegmentEvaluation
  import opened Denotation
  import opened CascadeConsumer
  import opened Replay

  /** A pass between its read and its commit: the diff it found, and the members it saw. */
  datatype Pass = Pass(diff: Payload, seen: set<CustomerId>)

  datatype Store = Store(
    members: Membership,
    deltas: set<DeltaRow>,
    log: seq<Payload>,
    passes: map<nat, Pass>,
    batches: nat)

  /** `asked` is whatever the pass computed from the metrics and parents it had read. */
  datatype Move =
    | Read(segmentId: SegmentId, name: string, asked: set<CustomerId>)
    | Commit(batch: nat)
    | Abandon(batch: nat)

  predicate Enabled(s: Store, move: Move) {
    move.Read? || move.batch in s.passes
  }

  function Moved(s: Store, move: Move): Store
    requires Enabled(s, move)
  {
    match move
    case Read(id, name, asked) =>
      var seen := MembersOf(s.members, id);
      s.(passes := s.passes[s.batches := Pass(Payload(id, name, s.batches, asked - seen, seen - asked), seen)],
         batches := s.batches + 1)
    case Abandon(batch) => s.(passes := s.passes - {batch})
    case Commit(batch) =>
      var diff := s.passes[batch].diff;
      if IsEmpty(diff) then s.(passes := s.passes - {batch})
      else Store(Replay.Apply(s.members, diff), s.deltas + DeltaRows(diff), s.log + [diff], s.passes - {batch}, s.batches)
  }

  predicate Possible(s: Store, moves: seq<Move>)
    decreases |moves|
  {
    moves == [] || (Enabled(s, moves[0]) && Possible(Moved(s, moves[0]), moves[1..]))
  }

  function After(s: Store, moves: seq<Move>): Store
    requires Possible(s, moves)
    decreases |moves|
  {
    if moves == [] then s else After(Moved(s, moves[0]), moves[1..])
  }

  function Start(init: Membership): Store {
    Store(init, {}, [], map[], 0)
  }

  ghost predicate Invariant(init: Membership, s: Store) {
    && s.members == Replayed(init, s.log, |s.log|)
    && LogMatchesDeltas(s.deltas, s.log)
    && (forall i | 0 <= i < |s.log| :: s.log[i].batchId < s.batches && s.log[i].batchId !in s.passes)
    && (forall b | b in s.passes :: OpenPass(s, b))
  }

  ghost predicate OpenPass(s: Store, b: nat)
    requires b in s.passes
  {
    var pass := s.passes[b];
    b < s.batches && pass.diff.batchId == b && pass.diff.added !! pass.seen && pass.diff.removed <= pass.seen
  }

  lemma CommitKeepsInvariant(init: Membership, s: Store, batch: nat)
    requires Invariant(init, s) && batch in s.passes && !IsEmpty(s.passes[batch].diff)
    ensures Invariant(init, Moved(s, Commit(batch)))
  {
    var s', diff := Moved(s, Commit(batch)), s.passes[batch].diff;
    assert OpenPass(s, batch);
    ReplayOneMore(init, s.log, diff);
    RecordBatch(s.deltas, s.log, diff);
    forall b | b in s'.passes ensures OpenPass(s', b) {
      assert OpenPass(s, b);
    }
  }

  lemma MoveKeepsInvariant(init: Membership, s: Store, move: Move)
    requires Invariant(init, s) && Enabled(s, move)
    ensures Invariant(init, Moved(s, move))
  {
    if move.Commit? && !IsEmpty(s.passes[move.batch].diff) {
      CommitKeepsInvariant(init, s, move.batch);
    } else {
      var s' := Moved(s, move);
      forall b | b in s'.passes ensures OpenPass(s', b) {
        if b in s.passes {
          assert OpenPass(s, b);
        }
      }
    }
  }

  lemma {:induction false} MovesKeepInvariant(init: Membership, s: Store, moves: seq<Move>)
    requires Invariant(init, s) && Possible(s, moves)
    ensures Invariant(init, After(s, moves))
    decreases |moves|
  {
    if moves != [] {
      MoveKeepsInvariant(init, s, moves[0]);
      MovesKeepInvariant(init, Moved(s, moves[0]), moves[1..]);
    }
  }

  /**
   Replay under overlap: however the reads and commits of any number of passes interleave,
   the member table is the fold of the committed batches in commit order, each batch's two sets
   are disjoint, and its event carries exactly its delta rows.
   */
  lemma OverlappingPassesReplay(init: Membership, moves: seq<Move>)
    requires Possible(Start(init), moves)
    ensures var s := After(Start(init), moves);
            s.members == Replayed(init, s.log, |s.log|) && LogMatchesDeltas(s.deltas, s.log)
  {
    MovesKeepInvariant(init, Start(init), moves);
  }

  /** The rows a committing pass is about to change are still as it read them. */
  ghost predicate Undisturbed(s: Store, move: Move)
    requires Enabled(s, move)
  {
    move.Commit? ==>
      var pass := s.passes[move.batch];
      forall c | c in pass.diff.added + pass.diff.removed ::
        c in MembersOf(s.members, pass.diff.segmentId) <==> c in pass.seen
  }

  ghost predicate AllUndisturbed(s: Store, moves: seq<Move>)
    requires Possible(s, moves)
    decreases |moves|
  {
    moves == [] || (Undisturbed(s, moves[0]) && AllUndisturbed(Moved(s, moves[0]), moves[1..]))
  }

  lemma CommitIsRealIff(init: Membership, s: Store, move: Move)
    requires Invariant(init, s) && Enabled(s, move)
    ensures AllReal(init, Moved(s, move).log) <==> AllReal(init, s.log) && Undisturbed(s, move)
  {
    if move.Commit? {
      assert OpenPass(s, move.batch);
      if !IsEmpty(s.passes[move.batch].diff) {
        RealOneMore(init, s.log, s.passes[move.batch].diff);
      }
    }
  }

  lemma {:induction false} RealIffUndisturbed(init: Membership, s: Store, moves: seq<Move>)
    requires Invariant(init, s) && Possible(s, moves)
    ensures AllReal(init, After(s, moves).log) <==> AllReal(init, s.log) && AllUndisturbed(s, moves)
    decreases |moves|
  {
    if moves != [] {
      CommitIsRealIff(init, s, moves[0]);
      MoveKeepsInvariant(init, s, moves[0]);
      RealIffUndisturbed(init, Moved(s, moves[0]), moves[1..]);
    }
  }

  /**
   Where overlap shows: the recorded changes of every segment and customer alternate between
   ADD and REMOVE exactly when no commit found the rows it changes altered since its read.
   */
  lemma AlternatesIffUndisturbed(init: Membership, moves: seq<Move>)
    requires Possible(Start(init), moves)
    ensures Alternates(init, After(Start(init), moves).log) <==> AllUndisturbed(Start(init), moves)
  {
    RealIffUndisturbed(init, Start(init), moves);
    AlternatesIffReal(init, After(Start(init), moves).log);
  }

  /** The store is what passes write of the tables. */
  ghost predicate Mirrors(s: Store, t: TableState) {
    s.members == t.members && s.deltas == t.deltas && s.log == Payloads(t.outbox) && s.batches == t.batches
  }

  /** Reads and commits are the two halves of the orchestrator's evaluations. */
  lemma MovesAreHalves(s: Store, t: TableState, metrics: MetricsTable, id: SegmentId, batch: nat)
    requires Mirrors(s, t) && ForeignKeys(t)
    ensures id in t.segments ==>
              var s' := Moved(s, Read(id, t.segments[id].name, NewMembers(t.segments[id].rule, metrics, t.members)));
              Mirrors(s', Begun(t, id)) && s'.passes == s.passes[t.batches := Pass(Diff(t, metrics, id), t.members[id])]
    ensures batch in s.passes && s.passes[batch].diff.segmentId in t.members ==>
              Mirrors(Moved(s, Commit(batch)), Committed(t, s.passes[batch].diff))
  {
    if batch in s.passes && s.passes[batch].diff.segmentId in t.members {
      var diff := s.passes[batch].diff;
      var t' := Committed(t, diff);
      if IsEmpty(diff) {
        assert t'.outbox == t.outbox && DeltaRows(diff) == {};
        assert t'.members == t.members;
      } else {
        assert Payloads(t'.outbox) == Payloads(t.outbox) + [diff];
      }
    }
  }

  /** A commit gives the segment what its pass asked for exactly when each row it leaves alone is still as it read it. */
  lemma CommitInstallsIff(s: Store, batch: nat)
    requires batch in s.passes && OpenPass(s, batch)
    ensures var pass := s.passes[batch];
            var id := pass.diff.segmentId;
            MembersOf(Moved(s, Commit(batch)).members, id) == pass.seen + pass.diff.added - pass.diff.removed
            <==> forall c | c !in pass.diff.added + pass.diff.removed :: c in MembersOf(s.members, id) <==> c in pass.seen
  {
    var pass := s.passes[batch];
    var id := pass.diff.segmentId;
    var before, after := MembersOf(s.members, id), MembersOf(Moved(s, Commit(batch)).members, id);
    var asked := pass.seen + pass.diff.added - pass.diff.removed;
    assert after == before + pass.diff.added - pass.diff.removed;
    if after == asked {
      forall c | c !in pass.diff.added + pass.diff.removed ensures c in before <==> c in pass.seen {
        assert c in after <==> c in asked;
      }
    }
  }

  /** A commit that adds no one outside `answer` and removes no one in it. */
  predicate Harmless(s: Store, move: Move, id: SegmentId, answer: set<CustomerId>)
    requires Enabled(s, move)
  {
    move.Commit? && s.passes[move.batch].diff.segmentId == id ==>
      s.passes[move.batch].diff.added <= answer && s.passes[move.batch].diff.removed !! answer
  }

  predicate AllHarmless(s: Store, moves: seq<Move>, id: SegmentId, answer: set<CustomerId>)
    requires Possible(s, moves)
    decreases |moves|
  {
    moves == [] || (Harmless(s, moves[0], id, answer) && AllHarmless(Moved(s, moves[0]), moves[1..], id, answer))
  }

  /** The segment's members are `answer` now and after every move. */
  predicate Stays(s: Store, moves: seq<Move>, id: SegmentId, answer: set<CustomerId>)
    requires Possible(s, moves)
    decreases |moves|
  {
    && MembersOf(s.members, id) == answer
    && (moves == [] || Stays(Moved(s, moves[0]), moves[1..], id, answer))
  }

  lemma CommitLeavesIff(init: Membership, s: Store, move: Move, id: SegmentId, answer: set<CustomerId>)
    requires Invariant(init, s) && Enabled(s, move) && MembersOf(s.members, id) == answer
    ensures MembersOf(Moved(s, move).members, id) == answer <==> Harmless(s, move, id, answer)
  {
    if move.Commit? && s.passes[move.batch].diff.segmentId == id {
      var diff, after := s.passes[move.batch].diff, MembersOf(Moved(s, move).members, id);
      assert OpenPass(s, move.batch);
      assert after == answer + diff.added - diff.removed;
      assert forall c | c in diff.added :: c in after;
      assert forall c | c in diff.removed :: c !in after;
    }
  }

  /**
   How long a settled segment stays settled under overlap: over any run, exactly as long as each
   commit on it adds only members of the answer and removes none of them.
   */
  lemma {:induction false} StaysIffHarmless(init: Membership, s: Store, moves: seq<Move>, id: SegmentId, answer: set<CustomerId>)
    requires Invariant(init, s) && Possible(s, moves) && MembersOf(s.members, id) == answer
    ensures Stays(s, moves, id, answer) <==> AllHarmless(s, moves, id, answer)
    decreases |moves|
  {
    if moves != [] {
      CommitLeavesIff(init, s, moves[0], id, answer);
      if Harmless(s, moves[0], id, answer) {
        MoveKeepsInvariant(init, s, moves[0]);
        StaysIffHarmless(init, Moved(s, moves[0]), moves[1..], id, answer);
      }
    }
  }

  /** Two passes over the same segment: `older` metrics are read first, `newer` ones second, and the second commits first. */
  ghost function Overtaken(t: TableState, older: MetricsTable, newer: MetricsTable, id: SegmentId): TableState
    requires ForeignKeys(t) && id in t.segments
  {
    Committed(Committed(Begun(Begun(t, id), id), Diff(Begun(t, id), newer, id)), Diff(t, older, id))
  }

  /**
   What convergence needs of overlapping passes: an overtaken pass leaves its segment consistent
   with the newer metrics if and only if it adds only what they ask for and removes nothing
   they ask for.
   */
  lemma OvertakenIsConsistentIff(t: TableState, older: MetricsTable, newer: MetricsTable, id: SegmentId)
    requires ForeignKeys(t) && id in t.segments && id !in Refs(t.segments[id].rule)
    ensures var diff, asked := Diff(t, older, id), NewMembers(t.segments[id].rule, newer, t.members);
            Consistent(t.segments, newer, Overtaken(t, older, newer, id).members, id)
            <==> diff.added <= asked && diff.removed !! asked
  {
    var rule, diff, late := t.segments[id].rule, Diff(Begun(t, id), newer, id), Diff(t, older, id);
    var asked, end := NewMembers(rule, newer, t.members), Overtaken(t, older, newer, id);
    assert t.members[id] + diff.added - diff.removed == asked;
    assert end.members[id] == asked + late.added - late.removed;
    NewMembersFootprint(rule, newer, t.members, end.members);
  }

  lemma AsksForBuyer(c: CustomerId, metrics: CustomerMetrics, members: Membership)
    ensures NewMembers(Compare(TxCount30d, Gt, Finite(0.0)), map[c := metrics], members)
         == if metrics.txCount30d > 0 then {c} else {}
  {
    assert metrics.Get(TxCount30d) == Finite(metrics.txCount30d as real);
  }

  /**
   The condition does fail. A customer had one transaction in the window when the first pass read
   and none when the second did. The second finds nothing to write; the first then adds the
   customer. Its event is the only one, nobody refers to the segment, and no pass is open: the
   customer stays although the rule does not ask for them.
   */
  lemma StaleRowSurvives(id: SegmentId, c: CustomerId)
    ensures var rule := Compare(TxCount30d, Gt, Finite(0.0));
            var t := TableState(map[id := Segment(id, DYNAMIC, rule)], map[id := {}], {}, {}, [], 0);
            var older := map[c := CustomerMetrics(1, 1, 5.0, Finite(30.0))];
            var newer := map[c := CustomerMetrics(0, 1, 5.0, Finite(31.0))];
            var end := Overtaken(t, older, newer, id);
            && ForeignKeys(t) && Consistent(t.segments, newer, t.members, id)
            && end.members == map[id := {c}] && !Consistent(t.segments, newer, end.members, id)
            && end.outbox == [OutboxRow(Payload(id, id, 0, {c}, {}), PENDING)]
            && Dependents(end.dependencies, id) == {}
  {
    var rule := Compare(TxCount30d, Gt, Finite(0.0));
    var t := TableState(map[id := Segment(id, DYNAMIC, rule)], map[id := {}], {}, {}, [], 0);
    var older := map[c := CustomerMetrics(1, 1, 5.0, Finite(30.0))];
    var newer := map[c := CustomerMetrics(0, 1, 5.0, Finite(31.0))];
    AsksForBuyer(c, older[c], t.members);
    AsksForBuyer(c, newer[c], t.members);
    assert Diff(t, older, id) == Payload(id, id, 0, {c}, {});
    assert Diff(Begun(t, id), newer, id) == Payload(id, id, 1, {}, {});
    OvertakenIsConsistentIff(t, older, newer, id);
  }

  /**
   Two evaluations that overlap and read the same metrics record the same ADD twice: the customer is
   in the window, both find them missing, and both commit.
   */
  lemma AddRecordedTwice(id: SegmentId, c: CustomerId)
    ensures var rule := Compare(TxCount30d, Gt, Finite(0.0));
            var t := TableState(map[id := Segment(id, DYNAMIC, rule)], map[id := {}], {}, {}, [], 0);
            var metrics := map[c := CustomerMetrics(1, 1, 5.0, Finite(0.0))];
            var end := Overtaken(t, metrics, metrics, id);
            && ForeignKeys(t) && end.members == map[id := {c}]
            && end.deltas == {DeltaRow(id, c, ADD, 0), DeltaRow(id, c, ADD, 1)}
            && Payloads(end.outbox) == [Payload(id, id, 1, {c}, {}), Payload(id, id, 0, {c}, {})]
            && !Alternates(t.members, Payloads(end.outbox))
  {
    var rule := Compare(TxCount30d, Gt, Finite(0.0));
    var t := TableState(map[id := Segment(id, DYNAMIC, rule)], map[id := {}], {}, {}, [], 0);
    var metrics := map[c := CustomerMetrics(1, 1, 5.0, Finite(0.0))];
    AsksForBuyer(c, metrics[c], t.members);
    var first, second := Payload(id, id, 0, {c}, {}), Payload(id, id, 1, {c}, {});
    assert Diff(t, metrics, id) == first && Diff(Begun(t, id), metrics, id) == second;
    CommitOfOne(Begun(Begun(t, id), id), id, c, second);
    CommitOfOne(Committed(Begun(Begun(t, id), id), second), id, c, first);
    SameAddTwice(t.members, id, c);
  }

  lemma CommitOfOne(t: TableState, id: SegmentId, c: CustomerId, diff: Payload)
    requires t.members.Keys == {id} && t.members[id] <= {c} && diff == Payload(id, id, diff.batchId, {c}, {})
    ensures var t' := Committed(t, diff);
            && t'.members == map[id := {c}]
            && t'.deltas == t.deltas + {DeltaRow(id, c, ADD, diff.batchId)}
            && t'.outbox == t.outbox + [OutboxRow(diff, PENDING)]
  {
    assert c in diff.added;
    assert t.members[id] + diff.added - diff.removed == {c};
    assert DeltaRows(diff) == {DeltaRow(id, c, ADD, diff.batchId)};
  }

  lemma SameAddTwice(init: Membership, id: SegmentId, c: CustomerId)
    ensures !Alternates(init, [Payload(id, id, 1, {c}, {}), Payload(id, id, 0, {c}, {})])
  {
    var log := [Payload(id, id, 1, {c}, {}), Payload(id, id, 0, {c}, {})];
    assert c in log[0].added && c in log[1].added;
    assert LastChange(log, 1, id, c) == Some(ADD);
    assert !NextIsAdd(init, log, 1, id, c);
    assert !AlternatesAt(init, log, 1);
  }
}
