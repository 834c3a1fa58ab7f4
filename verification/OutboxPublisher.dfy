/**
 Draining the outbox to the broker: publish first, mark second
 (apps/api/src/messaging/outbox-publisher.service.ts). Rows are in createdAt order,
 taken to be commit order, and a row's position stands for its id.
 */
module OutboxPublisher {
  import opened Tables

  const BATCH_SIZE: nat := 100

  /** How one publish-then-mark goes. A refused or failed publish may still have been sent. */
  datatype Attempt =
    | Accepted
    | AcceptedMarkFails
    | Refused(sent: bool)
    | PublishThrows(sent: bool)

  /** The outbox rows, and the row ids handed to the broker so far, in order. */
  datatype Publication = Publication(rows: seq<OutboxRow>, stream: seq<nat>)

  class Broker {
    var stream: seq<nat>

    constructor ()
      ensures stream == []
    {
      stream := [];
    }
  }

  /** The first `take` pending rows from position `from` on. */
  function PendingRows(rows: seq<OutboxRow>, from: nat, take: nat): (batch: seq<nat>)
    requires from <= |rows|
    ensures forall i | 0 <= i < |batch| :: batch[i] < |rows|
    decreases |rows| - from
  {
    if from == |rows| || take == 0 then []
    else if rows[from].status.PENDING? then [from] + PendingRows(rows, from + 1, take - 1)
    else PendingRows(rows, from + 1, take)
  }

  function Marked(rows: seq<OutboxRow>, row: nat): seq<OutboxRow>
    requires row < |rows|
  {
    rows[row := rows[row].(status := PUBLISHED)]
  }

  /** What a batch does: rows in order, up to the first that is refused or throws. */
  function Drained(p: Publication, batch: seq<nat>, attempts: nat -> Attempt): (p': Publication)
    requires forall i | 0 <= i < |batch| :: batch[i] < |p.rows|
    decreases |batch|
  {
    if batch == [] then p
    else
      var sent := Publication(p.rows, p.stream + [batch[0]]);
      match attempts(batch[0])
      case Accepted => Drained(Publication(Marked(p.rows, batch[0]), p.stream + [batch[0]]), batch[1..], attempts)
      case AcceptedMarkFails => sent
      case Refused(wasSent) => if wasSent then sent else p
      case PublishThrows(wasSent) => if wasSent then sent else p
  }

  function Ticked(p: Publication, attempts: nat -> Attempt): Publication {
    Drained(p, PendingRows(p.rows, 0, BATCH_SIZE), attempts)
  }

  /** The rows found are pending and in order, and no more than asked for. */
  lemma {:induction false} PendingRowsAreOrdered(rows: seq<OutboxRow>, from: nat, take: nat)
    requires from <= |rows|
    ensures var batch := PendingRows(rows, from, take);
            && |batch| <= take
            && (forall i | 0 <= i < |batch| :: from <= batch[i] < |rows| && rows[batch[i]].status.PENDING?)
            && (forall i, j | 0 <= i < j < |batch| :: batch[i] < batch[j])
    decreases |rows| - from
  {
    if from < |rows| && take > 0 {
      PendingRowsAreOrdered(rows, from + 1, if rows[from].status.PENDING? then take - 1 else take);
    }
  }

  /** A pending row is passed over only for earlier ones, as many as asked for. */
  lemma {:induction false} PendingRowsAreFirst(rows: seq<OutboxRow>, from: nat, take: nat, row: nat)
    requires from <= row < |rows| && rows[row].status.PENDING?
    ensures var batch := PendingRows(rows, from, take);
            row !in batch ==> |batch| == take && forall i | 0 <= i < |batch| :: batch[i] < row
    decreases |rows| - from
  {
    if take > 0 && from < row {
      PendingRowsAreFirst(rows, from + 1, if rows[from].status.PENDING? then take - 1 else take, row);
    }
  }

  class OutboxPublisherService {
    const db: Database
    const broker: Broker
    var inFlight: bool

    constructor (db: Database, broker: Broker)
      ensures this.db == db && this.broker == broker && !inFlight
    {
      this.db, this.broker, inFlight := db, broker, false;
    }

    /** Finds the oldest pending rows, at most a batch of them. */
    method FindPending() returns (pending: seq<nat>)
      ensures pending == PendingRows(db.outbox, 0, 100)
    {
      pending := [];
      var row := 0;
      while row < |db.outbox| && |pending| < BATCH_SIZE
        invariant 0 <= row <= |db.outbox| && |pending| <= BATCH_SIZE
        invariant pending + PendingRows(db.outbox, row, BATCH_SIZE - |pending|) == PendingRows(db.outbox, 0, BATCH_SIZE)
        decreases |db.outbox| - row
      {
        if db.outbox[row].status.PENDING? {
          pending := pending + [row];
        }
        row := row + 1;
      }
    }

    method DrainBatch(attempts: nat -> Attempt)
      modifies db`outbox, broker
      ensures Publication(db.outbox, broker.stream) == Ticked(old(Publication(db.outbox, broker.stream)), attempts)
    {
      var pending := FindPending();
      for i := 0 to |pending|
        invariant |db.outbox| == |old(db.outbox)|
        invariant Drained(Publication(db.outbox, broker.stream), pending[i..], attempts)
               == Ticked(old(Publication(db.outbox, broker.stream)), attempts)
      {
        var row := pending[i];
        assert pending[i..][1..] == pending[i + 1..];
        var attempt := attempts(row);
        if attempt.Accepted? || attempt.AcceptedMarkFails? || attempt.sent {
          broker.stream := broker.stream + [row];
        }
        if !attempt.Accepted? {
          return;
        }
        db.outbox := Marked(db.outbox, row);
      }
    }

    /** One timer tick. A tick during another does nothing; `queryFails` makes the SELECT throw. */
    method Tick(queryFails: bool, attempts: nat -> Attempt)
      modifies this`inFlight, db`outbox, broker
      ensures old(inFlight) ==> inFlight && db.outbox == old(db.outbox) && broker.stream == old(broker.stream)
      ensures !old(inFlight) ==> !inFlight
      ensures !old(inFlight) && queryFails ==> db.outbox == old(db.outbox) && broker.stream == old(broker.stream)
      ensures !old(inFlight) && !queryFails ==>
                Publication(db.outbox, broker.stream) == Ticked(old(Publication(db.outbox, broker.stream)), attempts)
    {
      if inFlight {
        return;
      }
      inFlight := true;
      if !queryFails {
        DrainBatch(attempts);
      }
      inFlight := false;
    }
  }

  /** The stream with adjacent repeats dropped. */
  function Collapse(stream: seq<nat>): (c: seq<nat>)
    ensures c != [] <==> stream != []
    ensures c != [] ==> c[|c| - 1] == stream[|stream| - 1]
  {
    if |stream| <= 1 then stream
    else
      var n := |stream|;
      var c := Collapse(stream[..n - 1]);
      if stream[n - 1] == stream[n - 2] then c else c + [stream[n - 1]]
  }

  function Range(from: nat, to: nat): seq<nat>
    requires from <= to
  {
    seq(to - from, i requires 0 <= i => from + i)
  }

  /**
   The publisher is in step with the log: the first `k` rows are PUBLISHED and no other,
   and the broker has seen, repeats aside, the first `m` rows in order, with m = k or k + 1.
   */
  ghost predicate InStep(p: Publication, k: nat, m: nat) {
    && k <= m <= k + 1 && m <= |p.rows|
    && (forall i | 0 <= i < |p.rows| :: p.rows[i].status.PUBLISHED? <==> i < k)
    && Collapse(p.stream) == Range(0, m)
  }

  /** Sending row `k` as the next or once more. */
  lemma CollapseNext(stream: seq<nat>, k: nat, m: nat)
    requires Collapse(stream) == Range(0, m) && k <= m <= k + 1
    ensures Collapse(stream + [k]) == Range(0, k + 1)
  {
    var longer := stream + [k];
    assert longer[..|longer| - 1] == stream;
    assert Range(0, k + 1) == Range(0, k) + [k];
    if stream == [] {
      assert |Range(0, m)| == 0;
    } else {
      assert Range(0, m)[m - 1] == m - 1 == stream[|stream| - 1];
    }
  }

  lemma SendNext(p: Publication, k: nat, m: nat)
    requires InStep(p, k, m) && k < |p.rows|
    ensures InStep(Publication(p.rows, p.stream + [k]), k, k + 1)
    ensures InStep(Publication(Marked(p.rows, k), p.stream + [k]), k + 1, k + 1)
  {
    CollapseNext(p.stream, k, m);
  }

  lemma DrainedUnrolls(p: Publication, k: nat, b: nat, attempts: nat -> Attempt)
    requires k < b <= |p.rows|
    ensures Drained(p, Range(k, b), attempts)
         == if attempts(k).Accepted? then
              Drained(Publication(Marked(p.rows, k), p.stream + [k]), Range(k + 1, b), attempts)
            else if attempts(k).AcceptedMarkFails? || attempts(k).sent then Publication(p.rows, p.stream + [k])
            else p
  {
    assert Range(k, b)[0] == k && Range(k, b)[1..] == Range(k + 1, b);
  }

  lemma {:induction false} DrainedStaysInStep(p: Publication, k: nat, m: nat, b: nat, attempts: nat -> Attempt)
    returns (k': nat, m': nat)
    requires InStep(p, k, m) && k <= b <= |p.rows|
    ensures |Drained(p, Range(k, b), attempts).rows| == |p.rows|
    ensures InStep(Drained(p, Range(k, b), attempts), k', m')
    ensures (forall row :: attempts(row).Accepted?) ==> k' == b
    decreases b - k
  {
    k', m' := k, m;
    if k < b {
      SendNext(p, k, m);
      DrainedUnrolls(p, k, b, attempts);
      if attempts(k).Accepted? {
        k', m' := DrainedStaysInStep(Publication(Marked(p.rows, k), p.stream + [k]), k + 1, k + 1, b, attempts);
      } else if attempts(k).AcceptedMarkFails? || attempts(k).sent {
        m' := k + 1;
      }
    }
  }

  function Min(a: nat, b: nat): nat {
    if a < b then a else b
  }

  lemma {:induction false} PendingIsRange(rows: seq<OutboxRow>, k: nat, from: nat, take: nat)
    requires k <= |rows| && from <= |rows|
    requires forall i | 0 <= i < |rows| :: rows[i].status.PUBLISHED? <==> i < k
    ensures from < k ==> PendingRows(rows, from, take) == PendingRows(rows, k, take)
    ensures from >= k ==> PendingRows(rows, from, take) == Range(from, Min(from + take, |rows|))
    decreases |rows| - from
  {
    if from < |rows| && take > 0 {
      PendingIsRange(rows, k, from + 1, if from < k then take else take - 1);
      if from >= k {
        assert Range(from, Min(from + take, |rows|)) == [from] + Range(from + 1, Min(from + take, |rows|));
      }
    }
  }

  lemma TickStaysInStep(p: Publication, k: nat, m: nat, attempts: nat -> Attempt) returns (k': nat, m': nat)
    requires InStep(p, k, m)
    ensures |Ticked(p, attempts).rows| == |p.rows| && InStep(Ticked(p, attempts), k', m')
    ensures (forall row :: attempts(row).Accepted?) ==> k' == Min(k + BATCH_SIZE, |p.rows|)
  {
    PendingIsRange(p.rows, k, 0, BATCH_SIZE);
    PendingIsRange(p.rows, k, k, BATCH_SIZE);
    k', m' := DrainedStaysInStep(p, k, m, Min(k + BATCH_SIZE, |p.rows|), attempts);
  }

  /** What happens around the publisher: commits that append a pending row, and ticks with any faults. */
  datatype Happening = Commit(payload: Payload) | Tick(attempts: nat -> Attempt)

  function After(p: Publication, h: Happening): Publication {
    match h
    case Commit(payload) => Publication(p.rows + [OutboxRow(payload, PENDING)], p.stream)
    case Tick(attempts) => Ticked(p, attempts)
  }

  /** Draining does not look at the rows behind its batch. */
  lemma {:induction false} DrainBeforeCommit(p: Publication, batch: seq<nat>, attempts: nat -> Attempt, payload: Payload)
    requires forall i | 0 <= i < |batch| :: batch[i] < |p.rows|
    ensures Drained(After(p, Commit(payload)), batch, attempts) == After(Drained(p, batch, attempts), Commit(payload))
    decreases |batch|
  {
    if batch != [] && attempts(batch[0]).Accepted? {
      var marked := Publication(Marked(p.rows, batch[0]), p.stream + [batch[0]]);
      assert Marked(p.rows + [OutboxRow(payload, PENDING)], batch[0]) == marked.rows + [OutboxRow(payload, PENDING)];
      DrainBeforeCommit(marked, batch[1..], attempts, payload);
    }
  }

  lemma {:induction false} DrainInTwo(p: Publication, sent: seq<nat>, rest: seq<nat>, attempts: nat -> Attempt)
    requires forall i | 0 <= i < |sent| :: sent[i] < |p.rows| && attempts(sent[i]).Accepted?
    requires forall i | 0 <= i < |rest| :: rest[i] < |p.rows|
    ensures |Drained(p, sent, attempts).rows| == |p.rows|
    ensures Drained(p, sent + rest, attempts) == Drained(Drained(p, sent, attempts), rest, attempts)
    decreases |sent|
  {
    if sent == [] {
      assert sent + rest == rest;
    } else {
      assert (sent + rest)[1..] == sent[1..] + rest;
      DrainInTwo(Publication(Marked(p.rows, sent[0]), p.stream + [sent[0]]), sent[1..], rest, attempts);
    }
  }

  /**
   A commit in the middle of a tick, after some of its rows have been sent, leaves the outbox and the
   stream where the same commit after the tick would have: ticks may be taken as atomic.
   */
  lemma CommitInsideTick(p: Publication, sent: seq<nat>, rest: seq<nat>, attempts: nat -> Attempt, payload: Payload)
    requires sent + rest == PendingRows(p.rows, 0, BATCH_SIZE)
    requires forall i | 0 <= i < |sent| :: sent[i] < |p.rows| && attempts(sent[i]).Accepted?
    requires forall i | 0 <= i < |rest| :: rest[i] < |p.rows|
    ensures |Drained(p, sent, attempts).rows| == |p.rows|
    ensures Drained(After(Drained(p, sent, attempts), Commit(payload)), rest, attempts)
         == After(After(p, Tick(attempts)), Commit(payload))
  {
    DrainInTwo(p, sent, rest, attempts);
    DrainBeforeCommit(Drained(p, sent, attempts), rest, attempts, payload);
  }

  function AfterMany(p: Publication, hs: seq<Happening>): Publication {
    if hs == [] then p else After(AfterMany(p, hs[..|hs| - 1]), hs[|hs| - 1])
  }

  lemma {:induction false} HappeningsStayInStep(hs: seq<Happening>) returns (k: nat, m: nat)
    ensures InStep(AfterMany(Publication([], []), hs), k, m)
  {
    if hs == [] {
      k, m := 0, 0;
    } else {
      var before := AfterMany(Publication([], []), hs[..|hs| - 1]);
      k, m := HappeningsStayInStep(hs[..|hs| - 1]);
      if hs[|hs| - 1].Tick? {
        k, m := TickStaysInStep(before, k, m, hs[|hs| - 1].attempts);
      }
    }
  }

  /**
   Refinement: from an empty outbox, under any commits, refusals, failures and restarts, the
   broker stream with adjacent repeats dropped is a prefix of the log, and the PUBLISHED rows
   are a prefix of the log at most one row shorter.
   */
  lemma StreamRefinesLog(hs: seq<Happening>)
    ensures exists k, m :: k <= m <= k + 1 && InStep(AfterMany(Publication([], []), hs), k, m)
    ensures var p := AfterMany(Publication([], []), hs); Collapse(p.stream) <= Range(0, |p.rows|)
  {
    var k, m := HappeningsStayInStep(hs);
    var p := AfterMany(Publication([], []), hs);
    assert Range(0, m) == Range(0, |p.rows|)[..m];
  }

  function AfterTicks(p: Publication, ticks: nat): Publication {
    if ticks == 0 then p else Ticked(AfterTicks(p, ticks - 1), (_: nat) => Accepted)
  }

  lemma {:induction false} TicksPublish(p: Publication, k: nat, m: nat, ticks: nat) returns (m': nat)
    requires InStep(p, k, m)
    ensures |AfterTicks(p, ticks).rows| == |p.rows|
    ensures InStep(AfterTicks(p, ticks), Min(k + ticks * BATCH_SIZE, |p.rows|), m')
  {
    if ticks == 0 {
      m' := m;
    } else {
      var m0 := TicksPublish(p, k, m, ticks - 1);
      var k';
      k', m' := TickStaysInStep(AfterTicks(p, ticks - 1), Min(k + (ticks - 1) * BATCH_SIZE, |p.rows|), m0, (_: nat) => Accepted);
    }
  }

  /** Draining time: without faults, n pending rows are all published after exactly ceil(n / 100) ticks, not before. */
  lemma DrainsInCeilingTicks(p: Publication, k: nat, m: nat, ticks: nat)
    requires InStep(p, k, m)
    ensures (forall i | 0 <= i < |AfterTicks(p, ticks).rows| :: AfterTicks(p, ticks).rows[i].status.PUBLISHED?)
      <==> ticks >= (|p.rows| - k + 99) / 100
  {
    var m' := TicksPublish(p, k, m, ticks);
    var done := Min(k + ticks * BATCH_SIZE, |p.rows|);
    var rows := AfterTicks(p, ticks).rows;
    if done < |rows| {
      assert !rows[done].status.PUBLISHED?;
    }
  }
}
