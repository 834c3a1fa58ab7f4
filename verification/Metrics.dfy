/**
 The per-customer aggregates (apps/api/src/segments/metrics.service.ts).
 Time is in milliseconds, amounts are in cents.
 */
module Metrics {
  import opened Wrappers
  import opened SegmentRules

  const DAY: int := 86_400_000

  datatype Transaction = Transaction(customerId: CustomerId, cents: int, occurredAt: int)

  /** A row of the SQL aggregate; an absent value is SQL's NULL. */
  datatype MetricsRow = MetricsRow(
    id: CustomerId,
    txCount30d: nat,
    txCountTotal: nat,
    sumCents60d: Option<int>,
    lastTxAgeDays: Option<real>)

  /** COUNT(t.id), all transactions or those at or after `since`. */
  function Count(txs: seq<Transaction>, c: CustomerId, since: Option<int>): nat {
    if txs == [] then 0
    else (if Counted(txs[0], c, since) then 1 else 0) + Count(txs[1..], c, since)
  }

  predicate Counted(t: Transaction, c: CustomerId, since: Option<int>) {
    t.customerId == c && (since.Some? ==> t.occurredAt >= since.value)
  }

  /** SUM(t.amount) over the window; NULL when no row is in it. */
  function SumCents(txs: seq<Transaction>, c: CustomerId, since: int): Option<int> {
    if txs == [] then None
    else
      var rest := SumCents(txs[1..], c, since);
      if !Counted(txs[0], c, Some(since)) then rest
      else Some(txs[0].cents + if rest.Some? then rest.value else 0)
  }

  /** MAX(t."occurredAt"); NULL for a customer without transactions. */
  function Latest(txs: seq<Transaction>, c: CustomerId): Option<int> {
    if txs == [] then None
    else
      var rest := Latest(txs[1..], c);
      if txs[0].customerId != c then rest
      else if rest.Some? && rest.value > txs[0].occurredAt then rest
      else Some(txs[0].occurredAt)
  }

  function Aggregate(txs: seq<Transaction>, c: CustomerId, now: int): MetricsRow {
    var sum := SumCents(txs, c, now - 60 * DAY);
    var latest := Latest(txs, c);
    MetricsRow(
      c,
      Count(txs, c, Some(now - 30 * DAY)),
      Count(txs, c, None),
      Some(if sum.Some? then sum.value else 0),
      if latest.None? then None else Some((now - latest.value) as real / DAY as real))
  }

  function FromRow(row: MetricsRow): CustomerMetrics {
    CustomerMetrics(
      row.txCount30d,
      row.txCountTotal,
      if row.sumCents60d.None? then 0.0 else row.sumCents60d.value as real / 100.0,
      if row.lastTxAgeDays.None? then PosInfinity else Finite(row.lastTxAgeDays.value))
  }

  /** Everyone's metrics at time `now`: one entry per customer, transactions or not. */
  function MetricsAt(customers: set<CustomerId>, txs: seq<Transaction>, now: int): MetricsTable {
    map c | c in customers :: FromRow(Aggregate(txs, c, now))
  }

  method ComputeAll(customers: set<CustomerId>, txs: seq<Transaction>, now: int) returns (result: MetricsTable)
    ensures result == MetricsAt(customers, txs, now)
    ensures result.Keys == customers && forall c | c in customers :: result[c] == FromRow(Aggregate(txs, c, now))
  {
    result := map[];
    var rest := customers;
    while rest != {}
      invariant rest <= customers
      invariant result == MetricsAt(customers - rest, txs, now)
      decreases rest
    {
      var c :| c in rest;
      var row := Aggregate(txs, c, now);
      result := result[row.id := FromRow(row)];
      rest := rest - {c};
    }
    assert customers - rest == customers;
  }

  lemma {:induction false} CountOneMore(txs: seq<Transaction>, t: Transaction, c: CustomerId, since: Option<int>)
    ensures Count(txs + [t], c, since) == Count(txs, c, since) + if Counted(t, c, since) then 1 else 0
  {
    if txs != [] {
      assert (txs + [t])[1..] == txs[1..] + [t];
      CountOneMore(txs[1..], t, c, since);
    }
  }

  lemma {:induction false} SumOneMore(txs: seq<Transaction>, t: Transaction, c: CustomerId, since: int)
    ensures SumCents(txs + [t], c, since)
         == if !Counted(t, c, Some(since)) then SumCents(txs, c, since)
            else Some(t.cents + if SumCents(txs, c, since).Some? then SumCents(txs, c, since).value else 0)
  {
    if txs != [] {
      assert (txs + [t])[1..] == txs[1..] + [t];
      SumOneMore(txs[1..], t, c, since);
    }
  }

  /** MAX: the latest time is one of the customer's and none is later; NULL exactly when there is none. */
  lemma {:induction false} LatestIsMaximum(txs: seq<Transaction>, c: CustomerId)
    ensures Latest(txs, c).None? <==> forall t | t in txs :: t.customerId != c
    ensures Latest(txs, c).Some? ==>
              && (exists t :: t in txs && t.customerId == c && t.occurredAt == Latest(txs, c).value)
              && forall t | t in txs && t.customerId == c :: t.occurredAt <= Latest(txs, c).value
  {
    if txs != [] {
      LatestIsMaximum(txs[1..], c);
      assert txs == [txs[0]] + txs[1..];
      var rest := Latest(txs[1..], c);
      if rest.Some? {
        var t :| t in txs[1..] && t.customerId == c && t.occurredAt == rest.value;
        assert t in txs;
      }
      assert txs[0] in txs;
    }
  }

  /**
   One more transaction changes only its own customer's metrics: the counts by one and the sum by
   its amount, each if it is recent enough, the edge of the window included; anyone's age is the age of
   the latest transaction, and infinite without one.
   */
  lemma OneMoreTransaction(txs: seq<Transaction>, t: Transaction, c: CustomerId, now: int)
    ensures var before, after := FromRow(Aggregate(txs, c, now)), FromRow(Aggregate(txs + [t], c, now));
            && after.txCount30d == before.txCount30d
                 + (if t.customerId == c && t.occurredAt >= now - 30 * 86_400_000 then 1 else 0)
            && after.txCountTotal == before.txCountTotal + (if t.customerId == c then 1 else 0)
            && after.sumAmount60d == before.sumAmount60d
                 + (if t.customerId == c && t.occurredAt >= now - 60 * 86_400_000 then t.cents as real / 100.0 else 0.0)
            && (t.customerId != c ==> after.lastTxAgeDays == before.lastTxAgeDays)
            && (after.lastTxAgeDays == PosInfinity <==> forall u | u in txs + [t] :: u.customerId != c)
            && forall u | u in txs + [t] && u.customerId == c ::
                 after.lastTxAgeDays.Finite? && after.lastTxAgeDays.value <= (now - u.occurredAt) as real / 86_400_000.0
  {
    CountOneMore(txs, t, c, Some(now - 30 * DAY));
    CountOneMore(txs, t, c, None);
    SumOneMore(txs, t, c, now - 60 * DAY);
    LatestIsMaximum(txs, c);
    LatestIsMaximum(txs + [t], c);
    if t.customerId != c {
      OtherCustomersLatest(txs, t, c);
    }
  }

  /** Where the counting starts. */
  lemma NoTransactions(c: CustomerId, now: int)
    ensures FromRow(Aggregate([], c, now)) == CustomerMetrics(0, 0, 0.0, PosInfinity)
  {
  }

  /** The age is that of one of the customer's transactions, in days of 86,400 seconds, and none is younger. */
  lemma AgeIsOfTheLatest(txs: seq<Transaction>, c: CustomerId, now: int)
    ensures var age := FromRow(Aggregate(txs, c, now)).lastTxAgeDays;
            && (age == PosInfinity <==> forall u | u in txs :: u.customerId != c)
            && (age != PosInfinity ==>
                  && (exists u :: u in txs && u.customerId == c && age == Finite((now - u.occurredAt) as real / 86_400_000.0))
                  && forall u | u in txs && u.customerId == c ::
                       age.Finite? && age.value <= (now - u.occurredAt) as real / 86_400_000.0)
  {
    LatestIsMaximum(txs, c);
    var age := FromRow(Aggregate(txs, c, now)).lastTxAgeDays;
    if Latest(txs, c).Some? {
      var u :| u in txs && u.customerId == c && u.occurredAt == Latest(txs, c).value;
      assert age == Finite((now - u.occurredAt) as real / 86_400_000.0);
    }
  }

  lemma {:induction false} OtherCustomersLatest(txs: seq<Transaction>, t: Transaction, c: CustomerId)
    requires t.customerId != c
    ensures Latest(txs + [t], c) == Latest(txs, c)
  {
    if txs != [] {
      assert (txs + [t])[1..] == txs[1..] + [t];
      OtherCustomersLatest(txs[1..], t, c);
    }
  }

  /** Moves every transaction back by `ms` milliseconds. */
  function ShiftBy(txs: seq<Transaction>, ms: int): seq<Transaction> {
    seq(|txs|, i requires 0 <= i < |txs| => txs[i].(occurredAt := txs[i].occurredAt - ms))
  }

  /** Moves every transaction back by `days` whole days. */
  function ShiftBack(txs: seq<Transaction>, days: int): seq<Transaction> {
    ShiftBy(txs, days * DAY)
  }

  /** The update moves each row by days of 86,400 seconds and touches nothing else. */
  lemma ShiftedRows(txs: seq<Transaction>, days: int, i: nat)
    ensures |ShiftBack(txs, days)| == |txs|
    ensures i < |txs| ==>
              ShiftBack(txs, days)[i] == Transaction(txs[i].customerId, txs[i].cents, txs[i].occurredAt - days * 86_400_000)
  {
  }

  lemma ShiftTail(txs: seq<Transaction>, ms: int)
    requires txs != []
    ensures ShiftBy(txs, ms)[1..] == ShiftBy(txs[1..], ms)
  {
  }

  lemma {:induction false} CountShifted(txs: seq<Transaction>, c: CustomerId, since: Option<int>, ms: int)
    ensures Count(ShiftBy(txs, ms), c, if since.Some? then Some(since.value - ms) else None) == Count(txs, c, since)
  {
    if txs != [] {
      ShiftTail(txs, ms);
      CountShifted(txs[1..], c, since, ms);
    }
  }

  lemma {:induction false} SumShifted(txs: seq<Transaction>, c: CustomerId, since: int, ms: int)
    ensures SumCents(ShiftBy(txs, ms), c, since - ms) == SumCents(txs, c, since)
  {
    if txs != [] {
      ShiftTail(txs, ms);
      SumShifted(txs[1..], c, since, ms);
    }
  }

  lemma {:induction false} LatestShifted(txs: seq<Transaction>, c: CustomerId, ms: int)
    ensures Latest(ShiftBy(txs, ms), c) == (if Latest(txs, c).None? then None else Some(Latest(txs, c).value - ms))
  {
    if txs != [] {
      ShiftTail(txs, ms);
      LatestShifted(txs[1..], c, ms);
    }
  }

  lemma AggregateShifted(txs: seq<Transaction>, c: CustomerId, now: int, ms: int)
    ensures Aggregate(ShiftBy(txs, ms), c, now) == Aggregate(txs, c, now + ms)
  {
    CountShifted(txs, c, Some(now + ms - 30 * DAY), ms);
    CountShifted(txs, c, None, ms);
    SumShifted(txs, c, now + ms - 60 * DAY, ms);
    LatestShifted(txs, c, ms);
  }

  /**
   Time shift: moving every transaction back N days is, for all four metrics of every
   customer, the same as reading the unmoved transactions N days later.
   */
  lemma TimeShift(customers: set<CustomerId>, txs: seq<Transaction>, now: int, days: int)
    ensures MetricsAt(customers, ShiftBack(txs, days), now) == MetricsAt(customers, txs, now + days * DAY)
  {
    forall c | c in customers
      ensures Aggregate(ShiftBack(txs, days), c, now) == Aggregate(txs, c, now + days * DAY)
    {
      AggregateShifted(txs, c, now, days * DAY);
    }
  }

  /** Shifts compose by addition. */
  lemma ShiftsAdd(txs: seq<Transaction>, days: int, more: int)
    ensures ShiftBack(ShiftBack(txs, days), more) == ShiftBack(txs, days + more)
  {
    assert days * DAY + more * DAY == (days + more) * DAY;
  }

  lemma {:induction false} NoneCounted(txs: seq<Transaction>, c: CustomerId, since: Option<int>)
    ensures Count(txs, c, since) == 0 <==> forall t | t in txs :: !Counted(t, c, since)
  {
    if txs != [] {
      NoneCounted(txs[1..], c, since);
      assert txs == [txs[0]] + txs[1..];
    }
  }

  /**
   When advancing time empties a customer's 30-day count: exactly when each of their
   transactions is older than N - 30 days from now. With N = 30 a transaction stamped at
   this very instant, or later, still counts, so 30 days alone do not drop everyone.
   */
  lemma AdvanceEmptiesWindowIff(txs: seq<Transaction>, c: CustomerId, now: int, days: int)
    ensures FromRow(Aggregate(ShiftBack(txs, days), c, now)).txCount30d == 0
      <==> forall t | t in txs && t.customerId == c :: t.occurredAt < now + (days - 30) * DAY
  {
    TimeShift({c}, txs, now, days);
    assert MetricsAt({c}, ShiftBack(txs, days), now)[c] == MetricsAt({c}, txs, now + days * DAY)[c];
    NoneCounted(txs, c, Some(now + days * DAY - 30 * DAY));
    assert now + days * DAY - 30 * DAY == now + (days - 30) * DAY;
  }

  /** Thirty days are not enough: a transaction stamped at this instant is still counted after `advance-time` by 30. */
  lemma ThirtyDaysKeepToday(c: CustomerId, cents: int, now: int)
    ensures FromRow(Aggregate(ShiftBack([Transaction(c, cents, now)], 30), c, now)).txCount30d == 1
  {
    TimeShift({c}, [Transaction(c, cents, now)], now, 30);
    var txs := [Transaction(c, cents, now)];
    assert MetricsAt({c}, ShiftBack(txs, 30), now)[c] == MetricsAt({c}, txs, now + 30 * DAY)[c];
    NoneCounted([], c, Some(now));
    assert txs[1..] == [] && Counted(txs[0], c, Some(now));
    assert Count(txs, c, Some(now)) == 1;
    assert now + 30 * DAY - 30 * DAY == now;
  }
}
