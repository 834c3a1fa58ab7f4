/** The data changes of the simulator (apps/api/src/simulator/simulator.controller.ts). */
module Simulator {
  import opened Wrappers
  import opened SegmentRules
  import opened Metrics
  import opened Tables
  import opened Graph
  import opened SegmentEvaluation
  import opened Denotation
  import opened ChangeBuffer

  /** A refused request, an insert that violates the foreign key, or a mark that Redis did not take. */
  datatype SimulatorError = BadRequest(message: string) | UnknownCustomer | RedisThrew

  /** What the random choices pick for one synthetic transaction. */
  datatype Draw = Draw(customer: nat, cents: int, daysAgo: nat)

  datatype BulkAnswer = BulkAnswer(inserted: nat, chunks: nat)

  datatype AdvanceAnswer = AdvanceAnswer(shiftedTransactions: nat, shiftedDays: real, affectedCustomers: nat)

  /** The transactions that the draws from `lo` on stand for. */
  function Drawn(pool: seq<CustomerId>, draws: nat -> Draw, lo: nat, hi: nat, now: int): seq<Transaction>
    requires pool != [] && lo <= hi
  {
    seq(hi - lo, i requires 0 <= i =>
      var draw := draws(lo + i);
      Transaction(pool[draw.customer % |pool|], draw.cents, now - draw.daysAgo * DAY))
  }

  function Touched(txs: seq<Transaction>): set<CustomerId> {
    set t | t in txs :: t.customerId
  }

  /** What is drawn: one transaction per draw, of a customer from the pool, stamped whole days ago. */
  lemma DrawnRows(pool: seq<CustomerId>, draws: nat -> Draw, lo: nat, hi: nat, now: int, i: nat)
    requires pool != [] && lo <= hi
    ensures |Drawn(pool, draws, lo, hi, now)| == hi - lo
    ensures i < hi - lo ==>
              var row, draw := Drawn(pool, draws, lo, hi, now)[i], draws(lo + i);
              && row.customerId == pool[draw.customer % |pool|] && row.cents == draw.cents
              && row.occurredAt == now - draw.daysAgo * 86_400_000
  {
  }

  /** Those touched are the customers of the rows. */
  lemma TouchedIff(txs: seq<Transaction>, c: CustomerId)
    ensures c in Touched(txs) <==> exists i :: 0 <= i < |txs| && txs[i].customerId == c
  {
    if i :| 0 <= i < |txs| && txs[i].customerId == c {
      assert txs[i] in txs;
    }
  }

  lemma DrawnSplits(pool: seq<CustomerId>, draws: nat -> Draw, lo: nat, mid: nat, hi: nat, now: int)
    requires pool != [] && lo <= mid <= hi
    ensures Drawn(pool, draws, lo, hi, now) == Drawn(pool, draws, lo, mid, now) + Drawn(pool, draws, mid, hi, now)
    ensures Touched(Drawn(pool, draws, lo, hi, now))
         == Touched(Drawn(pool, draws, lo, mid, now)) + Touched(Drawn(pool, draws, mid, hi, now))
  {
    var all, left, right := Drawn(pool, draws, lo, hi, now), Drawn(pool, draws, lo, mid, now), Drawn(pool, draws, mid, hi, now);
    assert all == left + right;
    forall c ensures c in Touched(all) <==> c in Touched(left) + Touched(right) {
      assert forall t :: t in all <==> t in left || t in right;
    }
  }

  lemma DrawnOneMore(pool: seq<CustomerId>, draws: nat -> Draw, lo: nat, mid: nat, now: int)
    requires pool != [] && lo <= mid
    ensures var draw := draws(mid);
            var row := Transaction(pool[draw.customer % |pool|], draw.cents, now - draw.daysAgo * DAY);
            && Drawn(pool, draws, lo, mid + 1, now) == Drawn(pool, draws, lo, mid, now) + [row]
            && Touched(Drawn(pool, draws, lo, mid + 1, now)) == Touched(Drawn(pool, draws, lo, mid, now)) + {row.customerId}
  {
    DrawnSplits(pool, draws, lo, mid, mid + 1, now);
    var draw := draws(mid);
    var row := Transaction(pool[draw.customer % |pool|], draw.cents, now - draw.daysAgo * DAY);
    assert Drawn(pool, draws, mid, mid + 1, now) == [row];
    assert row in [row];
  }

  /** Adding the next chunk to what the chunks before it have added. */
  lemma ChunkExtends(pool: seq<CustomerId>, draws: nat -> Draw, mid: nat, hi: nat, now: int,
                     txs: seq<Transaction>, marked: set<CustomerId>)
    requires pool != [] && mid <= hi
    ensures txs + Drawn(pool, draws, 0, mid, now) + Drawn(pool, draws, mid, hi, now) == txs + Drawn(pool, draws, 0, hi, now)
    ensures marked + Touched(Drawn(pool, draws, 0, mid, now)) + Touched(Drawn(pool, draws, mid, hi, now))
         == marked + Touched(Drawn(pool, draws, 0, hi, now))
  {
    DrawnSplits(pool, draws, 0, mid, hi, now);
  }

  class SimulatorController {
    const db: Database
    const buffer: ChangeBufferService

    constructor (db: Database, buffer: ChangeBufferService)
      ensures this.db == db && this.buffer == buffer
    {
      this.db, this.buffer := db, buffer;
    }

    /**
     One transaction and one mark. An unknown customer is refused before anything is inserted; a
     mark that throws leaves the transaction inserted and unmarked.
     */
    method SimulateTransaction(customerId: CustomerId, cents: int, occurredAt: Option<int>, redisThrows: bool, now: int)
      returns (failure: Option<SimulatorError>)
      modifies db`transactions, buffer.redis
      ensures failure == if customerId == "" then Some(BadRequest("customerId and amount are required"))
                         else if customerId !in db.customers then Some(UnknownCustomer)
                         else if redisThrows then Some(RedisThrew)
                         else None
      ensures failure.None? || failure.value.RedisThrew? ==>
                db.transactions == old(db.transactions)
                  + [Transaction(customerId, cents, if occurredAt.Some? then occurredAt.value else now)]
      ensures failure.Some? && !failure.value.RedisThrew? ==> db.transactions == old(db.transactions)
      ensures buffer.redis.buffer == old(buffer.redis.buffer) + if failure.None? then {customerId} else {}
    {
      if customerId == "" {
        return Some(BadRequest("customerId and amount are required"));
      }
      if customerId !in db.customers {
        return Some(UnknownCustomer);
      }
      db.transactions := db.transactions
        + [Transaction(customerId, cents, if occurredAt.Some? then occurredAt.value else now)];
      if redisThrows {
        return Some(RedisThrew);
      }
      buffer.MarkChanged(customerId);
      failure := None;
    }

    method DrawChunk(pool: seq<CustomerId>, draws: nat -> Draw, offset: nat, size: nat, now: int)
      returns (rows: seq<Transaction>, touchedCustomerIds: set<CustomerId>)
      requires pool != []
      ensures rows == Drawn(pool, draws, offset, offset + size, now)
      ensures touchedCustomerIds == Touched(rows)
    {
      rows := [];
      touchedCustomerIds := {};
      for i := 0 to size
        invariant rows == Drawn(pool, draws, offset, offset + i, now)
        invariant touchedCustomerIds == Touched(rows)
      {
        var draw := draws(offset + i);
        var customer := pool[draw.customer % |pool|];
        var row := Transaction(customer, draw.cents, now - draw.daysAgo * DAY);
        DrawnOneMore(pool, draws, offset, offset + i, now);
        rows := rows + [row];
        touchedCustomerIds := touchedCustomerIds + {customer};
      }
    }

    /** One createMany and one bulk SADD, which may throw. */
    method InsertChunk(pool: seq<CustomerId>, draws: nat -> Draw, offset: nat, size: nat, redisThrows: bool, now: int)
      requires pool != []
      modifies db`transactions, buffer.redis
      ensures db.transactions == old(db.transactions) + Drawn(pool, draws, offset, offset + size, now)
      ensures buffer.redis.buffer == old(buffer.redis.buffer)
                + if redisThrows then {} else Touched(Drawn(pool, draws, offset, offset + size, now))
    {
      var rows, touchedCustomerIds := DrawChunk(pool, draws, offset, size, now);
      db.transactions := db.transactions + rows;
      if !redisThrows {
        buffer.MarkChangedMany(touchedCustomerIds);
      }
    }

    /** Chunk after chunk, up to the first whose mark throws: `redisThrows` says which, by where the chunk starts. */
    method InsertChunks(count: nat, chunkSize: nat, pool: seq<CustomerId>, draws: nat -> Draw,
                        redisThrows: nat -> bool, now: int) returns (inserted: nat, marked: nat)
      requires chunkSize > 0 && pool != []
      modifies db`transactions, buffer.redis
      ensures marked <= inserted <= count && inserted <= marked + chunkSize
      ensures marked < inserted <==> marked < count
      ensures marked < count ==>
                redisThrows(marked) && inserted == if marked + chunkSize < count then marked + chunkSize else count
      ensures db.transactions == old(db.transactions) + Drawn(pool, draws, 0, inserted, now)
      ensures buffer.redis.buffer == old(buffer.redis.buffer) + Touched(Drawn(pool, draws, 0, marked, now))
    {
      inserted, marked := 0, 0;
      var offset := 0;
      while offset < count
        invariant inserted == marked == if offset < count then offset else count
        invariant db.transactions == old(db.transactions) + Drawn(pool, draws, 0, inserted, now)
        invariant buffer.redis.buffer == old(buffer.redis.buffer) + Touched(Drawn(pool, draws, 0, marked, now))
        decreases count - offset
      {
        var size := if chunkSize < count - offset then chunkSize else count - offset;
        InsertChunk(pool, draws, offset, size, redisThrows(offset), now);
        ChunkExtends(pool, draws, offset, offset + size, now, old(db.transactions), old(buffer.redis.buffer));
        inserted := inserted + size;
        if redisThrows(offset) {
          return;
        }
        marked := inserted;
        offset := offset + chunkSize;
      }
    }

    /**
     Inserts `count` transactions in chunks, marking each chunk's customers. What is inserted
     and marked does not depend on the chunk size. A mark that throws ends the call, with the
     last chunk inserted and unmarked.
     */
    method SimulateBulk(count: nat, chunkSize: nat, pool: seq<CustomerId>, draws: nat -> Draw,
                        redisThrows: nat -> bool, now: int) returns (answer: Result<BulkAnswer, SimulatorError>)
      requires Elements(pool) == db.customers
      modifies db`transactions, buffer.redis
      ensures answer.Failure? && answer.error.BadRequest?
              <==> !(1 <= count <= 200_000 && 1 <= chunkSize <= 5_000 && db.customers != {})
      ensures answer.Failure? && answer.error.BadRequest? ==>
                db.transactions == old(db.transactions) && buffer.redis.buffer == old(buffer.redis.buffer)
      ensures answer.Success? ==>
                && answer.value == BulkAnswer(count, (count + chunkSize - 1) / chunkSize)
                && pool != []
                && db.transactions == old(db.transactions) + Drawn(pool, draws, 0, count, now)
                && buffer.redis.buffer == old(buffer.redis.buffer) + Touched(Drawn(pool, draws, 0, count, now))
      ensures answer.Failure? && !answer.error.BadRequest? ==>
                && answer.error == RedisThrew && pool != []
                && exists marked: nat, inserted: nat ::
                     && marked < inserted <= count && inserted <= marked + chunkSize && redisThrows(marked)
                     && db.transactions == old(db.transactions) + Drawn(pool, draws, 0, inserted, now)
                     && buffer.redis.buffer == old(buffer.redis.buffer) + Touched(Drawn(pool, draws, 0, marked, now))
    {
      if count < 1 || count > 200_000 {
        return Failure(BadRequest("count must be between 1 and 200000"));
      }
      if chunkSize < 1 || chunkSize > 5_000 {
        return Failure(BadRequest("chunkSize must be between 1 and 5000"));
      }
      if pool == [] {
        return Failure(BadRequest("no customers in DB"));
      }
      assert pool[0] in Elements(pool);
      var inserted, marked := InsertChunks(count, chunkSize, pool, draws, redisThrows, now);
      answer := if marked < count then Failure(RedisThrew)
                else Success(BulkAnswer(inserted, (count + chunkSize - 1) / chunkSize));
    }

    /**
     Shifts every transaction back by the whole days in `days`, and marks every customer. A mark that
     throws leaves the transactions shifted and nobody marked.
     */
    method AdvanceTime(days: Number, redisThrows: bool) returns (answer: Result<AdvanceAnswer, SimulatorError>)
      modifies db`transactions, buffer.redis
      ensures answer.Failure? && answer.error.BadRequest? <==> !(days.Finite? && 1.0 <= days.value <= 365.0)
      ensures answer.Failure? && answer.error.BadRequest? ==>
                db.transactions == old(db.transactions) && buffer.redis.buffer == old(buffer.redis.buffer)
      ensures answer.Failure? && !answer.error.BadRequest? ==>
                && answer.error == RedisThrew && redisThrows && db.customers != {}
                && db.transactions == ShiftBack(old(db.transactions), days.value.Floor)
                && buffer.redis.buffer == old(buffer.redis.buffer)
      ensures answer.Success? ==>
                && (redisThrows ==> db.customers == {})
                && db.transactions == ShiftBack(old(db.transactions), days.value.Floor)
                && buffer.redis.buffer == old(buffer.redis.buffer) + db.customers
                && answer.value == AdvanceAnswer(|db.transactions|, days.value, |db.customers|)
    {
      if !days.Finite? || days.value < 1.0 || days.value > 365.0 {
        return Failure(BadRequest("days must be between 1 and 365"));
      }
      db.transactions := ShiftBack(db.transactions, days.value.Floor);
      if redisThrows && db.customers != {} {
        return Failure(RedisThrew);
      }
      buffer.MarkChangedMany(db.customers);
      answer := Success(AdvanceAnswer(|db.transactions|, days.value, |db.customers|));
    }
  }

  /**
   Time shift through the stack: the rebuild that follows `advance-time` writes what a rebuild
   over the unmoved transactions would write that many whole days later.
   */
  lemma AdvancedRebuild(t: TableState, customers: set<CustomerId>, txs: seq<Transaction>, days: int, now: int,
                        rows: seq<SegmentId>, moved: MetricsTable, later: MetricsTable)
    requires ForeignKeys(t) && ListsDynamic(t.segments, rows)
    requires moved == MetricsAt(customers, ShiftBack(txs, days), now)
    requires later == MetricsAt(customers, txs, now + days * DAY)
    ensures AfterRebuild(t, moved, rows) == AfterRebuild(t, later, rows)
  {
    TimeShift(customers, txs, now, days);
  }

  /** Everyone's metrics the whole days in `days` after `now`. */
  ghost function LaterMetrics(db: Database, days: Number, now: int): MetricsTable
    requires days.Finite?
    reads db
  {
    MetricsAt(db.customers, db.transactions, now + days.value.Floor * DAY)
  }

  lemma AdvancedMetrics(db: Database, days: Number, now: int)
    requires days.Finite?
    ensures MetricsAt(db.customers, ShiftBack(db.transactions, days.value.Floor), now) == LaterMetrics(db, days, now)
  {
    TimeShift(db.customers, db.transactions, now, days.value.Floor);
  }

  /**
   The same through the services: after an accepted `advance-time` in a database with customers, a
   flush that finds no other under way takes the marks and leaves the tables that a rebuild over the
   unmoved transactions would leave that many whole days later.
   */
  method AdvanceThenFlush(simulator: SimulatorController, flush: ChangeBufferService, days: Number,
                          rows: seq<SegmentId>, now: int) returns (failure: Option<EvaluationError>)
    requires simulator.buffer == flush && flush.evaluation.db == simulator.db
    requires flush.evaluation.dependency.db == simulator.db
    requires days.Finite? && 1.0 <= days.value <= 365.0 && simulator.db.customers != {} && !flush.inFlight
    requires ForeignKeys(simulator.db.State()) && ListsDynamic(simulator.db.segments, rows)
    modifies flush`inFlight, flush.redis, simulator.db`transactions, simulator.db`members, simulator.db`dependencies,
             simulator.db`deltas, simulator.db`outbox, simulator.db`batches
    ensures var db := simulator.db;
            var later := old(LaterMetrics(db, days, now));
            && db.State() == AfterRebuild(old(db.State()), later, rows)
            && failure == RebuildFailure(old(db.State()), later, rows)
            && flush.redis.buffer == {} && !flush.inFlight
  {
    ghost var customers := simulator.db.customers;
    AdvancedMetrics(simulator.db, days, now);
    var answer := simulator.AdvanceTime(days, false);
    assert customers <= flush.redis.buffer;
    var snapshot;
    snapshot, failure := flush.Tick(Works, rows, now);
  }

  /** Rebuilding in between does not matter: only the last metrics decide the members. */
  lemma LastRebuildDecides(t: TableState, metrics: MetricsTable, later: MetricsTable, rows: seq<SegmentId>)
    requires ForeignKeys(t) && References(t.segments) && ListsDynamic(t.segments, rows) && Acyclic(DynamicGraph(t.segments))
    ensures AfterRebuild(AfterRebuild(t, metrics, rows), later, rows).members == AfterRebuild(t, later, rows).members
  {
    var between := AfterRebuild(t, metrics, rows);
    RebuildCorrect(t, metrics, rows);
    RebuildCorrect(t, later, rows);
    RebuildCorrect(between, later, rows);
    AnswerUnique(t.segments, later, AfterRebuild(between, later, rows).members, AfterRebuild(t, later, rows).members);
  }

  lemma ShiftedTwice(customers: set<CustomerId>, txs: seq<Transaction>, days: int, more: int, now: int)
    ensures MetricsAt(customers, ShiftBack(ShiftBack(txs, days), more), now)
         == MetricsAt(customers, txs, now + (days + more) * DAY)
  {
    ShiftsAdd(txs, days, more);
    TimeShift(customers, txs, now, days + more);
  }

  /** Two advances, each followed by its rebuild, end where one rebuild that many days later ends. */
  lemma AdvancesAdd(t: TableState, customers: set<CustomerId>, txs: seq<Transaction>, days: int, more: int, now: int,
                    rows: seq<SegmentId>, first: MetricsTable, second: MetricsTable, later: MetricsTable)
    requires ForeignKeys(t) && References(t.segments) && ListsDynamic(t.segments, rows) && Acyclic(DynamicGraph(t.segments))
    requires first == MetricsAt(customers, ShiftBack(txs, days), now)
    requires second == MetricsAt(customers, ShiftBack(ShiftBack(txs, days), more), now)
    requires later == MetricsAt(customers, txs, now + (days + more) * DAY)
    ensures AfterRebuild(AfterRebuild(t, first, rows), second, rows).members == AfterRebuild(t, later, rows).members
  {
    ShiftedTwice(customers, txs, days, more, now);
    LastRebuildDecides(t, first, second, rows);
  }

  /** Advancing cannot be taken back: every accepted call moves each transaction strictly into the past. */
  lemma AdvanceNeverReverses(txs: seq<Transaction>, days: real, i: nat)
    requires 1.0 <= days <= 365.0 && i < |txs|
    ensures ShiftBack(txs, days.Floor)[i].occurredAt <= txs[i].occurredAt - DAY
  {
    assert days.Floor >= 1;
  }
}
