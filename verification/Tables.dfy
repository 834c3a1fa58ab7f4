/**
 The database tables (apps/api/prisma/schema.prisma) as a value, and the mutable
 database that the services update. A database transaction is one assignment.
 */
module Tables {
  import opened SegmentRules
  import opened Metrics

  datatype SegmentType = DYNAMIC | STATIC

  datatype Segment = Segment(name: string, kind: SegmentType, rule: SegmentRule)

  datatype DeltaChange = ADD | REMOVE

  datatype DeltaRow = DeltaRow(segmentId: SegmentId, customerId: CustomerId, change: DeltaChange, batchId: nat)

  /** The body of a segment.delta event. The two arrays hold no duplicates and their order is not specified. */
  datatype Payload = Payload(
    segmentId: SegmentId,
    segmentName: string,
    batchId: nat,
    added: set<CustomerId>,
    removed: set<CustomerId>)

  datatype OutboxStatus = PENDING | PUBLISHED

  datatype OutboxRow = OutboxRow(payload: Payload, status: OutboxStatus)

  datatype Edge = Edge(parentId: SegmentId, childId: SegmentId)

  /**
   `members` has an entry for each segment: its SegmentMember rows. The outbox is in
   createdAt order. `batches` counts the batch ids drawn so far, so that each is new.
   */
  datatype TableState = TableState(
    segments: map<SegmentId, Segment>,
    members: Membership,
    dependencies: set<Edge>,
    deltas: set<DeltaRow>,
    outbox: seq<OutboxRow>,
    batches: nat)

  predicate IsDynamic(segments: map<SegmentId, Segment>, id: SegmentId) {
    id in segments && segments[id].kind.DYNAMIC?
  }

  function DynamicIds(segments: map<SegmentId, Segment>): set<SegmentId> {
    set id | id in segments && segments[id].kind.DYNAMIC?
  }

  /** What the foreign keys of the schema keep true. */
  ghost predicate ForeignKeys(t: TableState) {
    && t.members.Keys == t.segments.Keys
    && forall e | e in t.dependencies :: e.parentId in t.segments && e.childId in t.segments
  }

  class Database {
    var segments: map<SegmentId, Segment>
    var members: Membership
    var dependencies: set<Edge>
    var deltas: set<DeltaRow>
    var outbox: seq<OutboxRow>
    var batches: nat
    var customers: set<CustomerId>
    var transactions: seq<Transaction>

    constructor ()
      ensures State() == TableState(map[], map[], {}, {}, [], 0)
      ensures customers == {} && transactions == []
    {
      segments, members, dependencies, deltas, outbox, batches := map[], map[], {}, {}, [], 0;
      customers, transactions := {}, [];
    }

    function State(): TableState
      reads this
    {
      TableState(segments, members, dependencies, deltas, outbox, batches)
    }
  }
}
