/** The debouncer (apps/api/src/messaging/change-buffer.service.ts). */
module ChangeBuffer {
  import opened Wrappers
  import opened SegmentRules
  import opened Metrics
  import opened Tables
  import opened SegmentEvaluation

  /** The one Redis set that producers and the flush share. Redis keeps no empty sets. */
  class RedisSet {
    var buffer: set<CustomerId>

    constructor ()
      ensures buffer == {}
    {
      buffer := {};
    }
  }

  /** How Redis answers a flush: RENAME may throw, or SMEMBERS or DEL after it. */
  datatype RedisOutcome = Works | RenameThrows | SnapshotThrows

  class ChangeBufferService {
    const redis: RedisSet
    const evaluation: SegmentEvaluationService
    var inFlight: bool

    constructor (redis: RedisSet, evaluation: SegmentEvaluationService)
      ensures this.redis == redis && this.evaluation == evaluation && !inFlight
    {
      this.redis, this.evaluation, inFlight := redis, evaluation, false;
    }

    method MarkChanged(id: CustomerId)
      modifies redis
      ensures redis.buffer == old(redis.buffer) + {id}
    {
      redis.buffer := redis.buffer + {id};
    }

    method MarkChangedMany(ids: set<CustomerId>)
      modifies redis
      ensures redis.buffer == old(redis.buffer) + ids
    {
      if ids == {} {
        return;
      }
      redis.buffer := redis.buffer + ids;
    }

    /** Swaps the buffer for an empty one; nothing to swap when the key does not exist. */
    method Rename() returns (snapshot: Option<set<CustomerId>>)
      modifies redis
      ensures redis.buffer == {}
      ensures snapshot == if old(redis.buffer) == {} then None else Some(old(redis.buffer))
    {
      if redis.buffer == {} {
        return None;
      }
      snapshot := Some(redis.buffer);
      redis.buffer := {};
    }

    /**
     One timer tick: a non-empty buffer is taken whole and leads to one rebuild; a throw in it is
     logged only. A throw between the two leaves the snapshot taken and nothing rebuilt.
     */
    method Tick(outcome: RedisOutcome, rows: seq<SegmentId>, now: int)
      returns (snapshot: Option<set<CustomerId>>, failure: Option<EvaluationError>)
      requires evaluation.dependency.db == evaluation.db
      requires ForeignKeys(evaluation.db.State()) && ListsDynamic(evaluation.db.segments, rows)
      modifies redis, this`inFlight, evaluation.db`members, evaluation.db`dependencies, evaluation.db`deltas,
               evaluation.db`outbox, evaluation.db`batches
      ensures inFlight == old(inFlight)
      ensures old(inFlight) || outcome.RenameThrows? || old(redis.buffer) == {} ==>
                && snapshot.None? && failure.None?
                && redis.buffer == old(redis.buffer) && evaluation.db.State() == old(evaluation.db.State())
      ensures !old(inFlight) && outcome.SnapshotThrows? && old(redis.buffer) != {} ==>
                && snapshot == Some(old(redis.buffer)) && redis.buffer == {}
                && failure.None? && evaluation.db.State() == old(evaluation.db.State())
      ensures !old(inFlight) && outcome.Works? && old(redis.buffer) != {} ==>
                var before, db := old(evaluation.db.State()), evaluation.db;
                var metrics := MetricsAt(db.customers, db.transactions, now);
                && snapshot == Some(old(redis.buffer)) && redis.buffer == {}
                && db.State() == AfterRebuild(before, metrics, rows)
                && failure == RebuildFailure(before, metrics, rows)
    {
      snapshot, failure := None, None;
      if inFlight {
        return;
      }
      inFlight := true;
      if !outcome.RenameThrows? {
        snapshot := Rename();
      }
      if snapshot.Some? && !outcome.SnapshotThrows? {
        failure := evaluation.RebuildAllDynamic(rows, now);
      }
      inFlight := false;
    }
  }
}

/** Marks and ticks as they interleave: the flush waits for Redis and for the rebuild between its steps. */
module ChangeBufferProtocol {
  import opened SegmentRules
  import opened ChangeBuffer

  datatype Phase = Idle | Entered | Taken | Rebuilding

  /**
   `snapshots` are the sets the flush has swapped out, in order. `marks` pairs each marked id
   with how many snapshots had been taken before it. `started` and `running` count rebuilds,
   `stranded` the snapshots that a throw of SMEMBERS or DEL left without one.
   */
  datatype Buffer = Buffer(
    buffer: set<CustomerId>,
    phase: Phase,
    snapshots: seq<set<CustomerId>>,
    marks: set<(CustomerId, nat)>,
    started: nat,
    running: nat,
    stranded: nat)

  datatype Action = Mark(ids: set<CustomerId>) | Tick | Rename | Delete | EndRebuild | RedisThrows

  /** A tick is always possible; while a flush is under way the guard makes it do nothing. */
  predicate Enabled(s: Buffer, a: Action) {
    match a
    case Mark(_) => true
    case Tick => true
    case Rename => s.phase.Entered?
    case Delete => s.phase.Taken?
    case EndRebuild => s.phase.Rebuilding? && s.running > 0
    case RedisThrows => s.phase.Entered? || s.phase.Taken?
  }

  function Next(s: Buffer, a: Action): Buffer
    requires Enabled(s, a)
  {
    match a
    case Mark(ids) => s.(buffer := s.buffer + ids, marks := s.marks + set id | id in ids :: (id, |s.snapshots|))
    case Tick => if s.phase.Idle? then s.(phase := Entered) else s
    case Rename =>
      if s.buffer == {} then s.(phase := Idle)
      else s.(buffer := {}, phase := Taken, snapshots := s.snapshots + [s.buffer])
    case Delete => s.(phase := Rebuilding, started := s.started + 1, running := s.running + 1)
    case EndRebuild => s.(phase := Idle, running := s.running - 1)
    case RedisThrows => s.(phase := Idle, stranded := s.stranded + if s.phase.Taken? then 1 else 0)
  }

  predicate Runs(s: Buffer, actions: seq<Action>)
    decreases |actions|
  {
    actions == [] || (Enabled(s, actions[0]) && Runs(Next(s, actions[0]), actions[1..]))
  }

  function Run(s: Buffer, actions: seq<Action>): Buffer
    requires Runs(s, actions)
    decreases |actions|
  {
    if actions == [] then s else Run(Next(s, actions[0]), actions[1..])
  }

  function Union(snapshots: seq<set<CustomerId>>): set<CustomerId> {
    set i, id | 0 <= i < |snapshots| && id in snapshots[i] :: id
  }

  function Ids(marks: set<(CustomerId, nat)>): set<CustomerId> {
    set mark | mark in marks :: mark.0
  }

  /** The mark waits in the buffer, or is in a snapshot taken after it. */
  ghost predicate Kept(s: Buffer, mark: (CustomerId, nat)) {
    mark.0 in s.buffer || exists i :: mark.1 <= i < |s.snapshots| && mark.0 in s.snapshots[i]
  }

  ghost predicate Invariant(s: Buffer) {
    && Ids(s.marks) == s.buffer + Union(s.snapshots)
    && (forall mark | mark in s.marks :: mark.1 <= |s.snapshots| && Kept(s, mark))
    && (forall i | 0 <= i < |s.snapshots| :: s.snapshots[i] != {})
    && s.running == (if s.phase.Rebuilding? then 1 else 0)
    && |s.snapshots| == s.started + s.stranded + (if s.phase.Taken? then 1 else 0)
  }

  lemma StepKeepsInvariant(s: Buffer, a: Action)
    requires Invariant(s) && Enabled(s, a)
    ensures Invariant(Next(s, a))
  {
    var s' := Next(s, a);
    if a.Mark? {
      forall id ensures id in Ids(s'.marks) <==> id in Ids(s.marks) + a.ids {
        assert id in a.ids ==> (id, |s.snapshots|) in s'.marks && (id, |s.snapshots|).0 == id;
        assert forall mark | mark in s.marks :: mark in s'.marks;
      }
    } else if a.Rename? && s.buffer != {} {
      assert s'.snapshots[|s.snapshots|] == s.buffer;
      forall id ensures id in Union(s'.snapshots) <==> id in Union(s.snapshots) + s.buffer {
        if id in Union(s.snapshots) {
          var i :| 0 <= i < |s.snapshots| && id in s.snapshots[i];
          assert s'.snapshots[i] == s.snapshots[i];
        }
      }
    }
    forall mark | mark in s'.marks ensures Kept(s', mark) {
      if mark in s.marks {
        assert Kept(s, mark);
        if mark.0 !in s.buffer {
          var i :| mark.1 <= i < |s.snapshots| && mark.0 in s.snapshots[i];
          assert s'.snapshots[i] == s.snapshots[i];
        }
      }
    }
  }

  /**
   Conservation: over any interleaving of marks and ticks, the ids ever marked are the buffer
   and all snapshots together, each mark is in the buffer or in a snapshot taken after it, at
   most one rebuild runs, and each non-empty swap has started one rebuild, is about to, or was
   stranded by a throw.
   */
  lemma {:induction false} NothingMarkedIsLost(s: Buffer, actions: seq<Action>)
    requires Invariant(s) && Runs(s, actions)
    ensures Invariant(Run(s, actions))
    decreases |actions|
  {
    if actions != [] {
      StepKeepsInvariant(s, actions[0]);
      NothingMarkedIsLost(Next(s, actions[0]), actions[1..]);
    }
  }

  lemma StartIsConserved()
    ensures Invariant(Buffer({}, Idle, [], {}, 0, 0, 0))
  {
  }

  /** Redis does not throw between a swap and its rebuild. */
  predicate NoneStranded(s: Buffer, actions: seq<Action>)
    requires Runs(s, actions)
    decreases |actions|
  {
    actions == [] || (!(actions[0].RedisThrows? && s.phase.Taken?) && NoneStranded(Next(s, actions[0]), actions[1..]))
  }

  lemma {:induction false} StrandedGrows(s: Buffer, actions: seq<Action>)
    requires Runs(s, actions)
    ensures s.stranded <= Run(s, actions).stranded
    ensures s.stranded == Run(s, actions).stranded <==> NoneStranded(s, actions)
    decreases |actions|
  {
    if actions != [] {
      StrandedGrows(Next(s, actions[0]), actions[1..]);
    }
  }

  /** One rebuild per swap: between flushes, exactly when Redis never threw after a RENAME. */
  lemma OneRebuildPerSwapIff(actions: seq<Action>)
    requires Runs(Buffer({}, Idle, [], {}, 0, 0, 0), actions)
    requires Run(Buffer({}, Idle, [], {}, 0, 0, 0), actions).phase.Idle?
    ensures var start := Buffer({}, Idle, [], {}, 0, 0, 0);
            |Run(start, actions).snapshots| == Run(start, actions).started <==> NoneStranded(start, actions)
  {
    var start := Buffer({}, Idle, [], {}, 0, 0, 0);
    StartIsConserved();
    NothingMarkedIsLost(start, actions);
    StrandedGrows(start, actions);
  }

  lemma First(s: Buffer, a: Action, rest: seq<Action>)
    requires Enabled(s, a) && Runs(Next(s, a), rest)
    ensures Runs(s, [a] + rest) && Run(s, [a] + rest) == Run(Next(s, a), rest)
  {
    assert ([a] + rest)[1..] == rest;
  }

  /** Such a run: the mark is in the snapshot, no rebuild was started, and the buffer is empty. */
  lemma StrandedSnapshot(id: CustomerId)
    ensures var start := Buffer({}, Idle, [], {}, 0, 0, 0);
            var actions := [Mark({id})] + ([Tick] + ([Rename] + ([RedisThrows] + [])));
            && Runs(start, actions)
            && Run(start, actions) == Buffer({}, Idle, [{id}], {(id, 0)}, 0, 0, 1)
  {
    var start := Buffer({}, Idle, [], {}, 0, 0, 0);
    var s1 := Next(start, Mark({id}));
    assert s1.marks == {(id, 0)} by {
      assert id in {id};
      assert (id, 0) in s1.marks;
    }
    var s2 := Next(s1, Tick);
    var s3 := Next(s2, Rename);
    assert s1.buffer == {id};
    assert s3.snapshots == [{id}];
    First(s3, RedisThrows, []);
    First(s2, Rename, [RedisThrows] + []);
    First(s1, Tick, [Rename] + ([RedisThrows] + []));
    First(start, Mark({id}), [Tick] + ([Rename] + ([RedisThrows] + [])));
  }

  /** One timer tick with nothing in between. */
  function TickSteps(s: Buffer, outcome: RedisOutcome): seq<Action> {
    if !s.phase.Idle? then [Tick] + []
    else if outcome.RenameThrows? then [Tick] + ([RedisThrows] + [])
    else if s.buffer == {} then [Tick] + ([Rename] + [])
    else if outcome.SnapshotThrows? then [Tick] + ([Rename] + ([RedisThrows] + []))
    else [Tick] + ([Rename] + ([Delete] + ([EndRebuild] + [])))
  }

  /**
   The service's own tick is a run: it takes buffer and snapshots where `ChangeBufferService.Tick` takes
   them, with a rebuild from start to end exactly when the method runs one.
   */
  lemma TickRuns(s: Buffer, outcome: RedisOutcome)
    requires Invariant(s)
    ensures Runs(s, TickSteps(s, outcome))
    ensures Run(s, TickSteps(s, outcome))
         == if !s.phase.Idle? || outcome.RenameThrows? || s.buffer == {} then s
            else s.(buffer := {}, snapshots := s.snapshots + [s.buffer],
                    started := s.started + (if outcome.Works? then 1 else 0),
                    stranded := s.stranded + (if outcome.SnapshotThrows? then 1 else 0))
  {
    var s1 := Next(s, Tick);
    if !s.phase.Idle? {
      First(s, Tick, []);
    } else if outcome.RenameThrows? {
      First(s1, RedisThrows, []);
      First(s, Tick, [RedisThrows] + []);
    } else if s.buffer == {} {
      First(s1, Rename, []);
      First(s, Tick, [Rename] + []);
    } else {
      var s2 := Next(s1, Rename);
      if outcome.SnapshotThrows? {
        First(s2, RedisThrows, []);
        First(s1, Rename, [RedisThrows] + []);
        First(s, Tick, [Rename] + ([RedisThrows] + []));
      } else {
        FinishedFlush(s2);
        First(s1, Rename, [Delete] + ([EndRebuild] + []));
        First(s, Tick, [Rename] + ([Delete] + ([EndRebuild] + [])));
      }
    }
  }

  lemma FinishedFlush(s: Buffer)
    requires s.phase.Taken?
    ensures var rest := [Delete] + ([EndRebuild] + []);
            Runs(s, rest) && Run(s, rest) == s.(phase := Idle, started := s.started + 1)
  {
    First(Next(s, Delete), EndRebuild, []);
    First(s, Delete, [EndRebuild] + []);
  }
}
