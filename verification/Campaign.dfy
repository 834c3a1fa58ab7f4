/**
 The campaign consumer (apps/api/src/messaging/campaign-consumer.service.ts): an atomic
 claim on the event id, then notifications that cannot be taken back. Events are numbered
 by their outbox row.
 */
module Campaign {
  import opened SegmentRules
  import opened Tables

  datatype Notification = Notification(event: nat, segmentId: SegmentId, kind: DeltaChange, totalCount: nat)

  /** The notifications that an event calls for. */
  function Due(event: nat, p: Payload): seq<Notification> {
    (if p.added == {} then [] else [Notification(event, p.segmentId, ADD, |p.added|)])
    + (if p.removed == {} then [] else [Notification(event, p.segmentId, REMOVE, |p.removed|)])
  }

  /** One consumer at work without failures. */
  class CampaignConsumerService {
    /** The ProcessedEvent rows of this consumer. */
    var claims: set<nat>
    var feed: seq<Notification>

    constructor ()
      ensures claims == {} && feed == []
    {
      claims, feed := {}, [];
    }

    method Handle(eventType: string, event: nat, p: Payload)
      modifies this
      ensures eventType != "segment.delta" || event in old(claims) ==> claims == old(claims) && feed == old(feed)
      ensures eventType == "segment.delta" && event !in old(claims) ==>
                && claims == old(claims) + {event}
                && feed == old(feed)
                     + (if p.added == {} then [] else [Notification(event, p.segmentId, ADD, |p.added|)])
                     + (if p.removed == {} then [] else [Notification(event, p.segmentId, REMOVE, |p.removed|)])
    {
      if eventType != "segment.delta" || event in claims {
        return;
      }
      claims := claims + {event};
      if p.added != {} {
        feed := feed + [Notification(event, p.segmentId, ADD, |p.added|)];
      }
      if p.removed != {} {
        feed := feed + [Notification(event, p.segmentId, REMOVE, |p.removed|)];
      }
    }
  }
}

/** Many deliveries at once: duplicates, up to ten handlers in parallel, crashes and requeues, in any interleaving. */
module CampaignProtocol {
  import opened SegmentRules
  import opened Tables
  import opened Campaign

  const PREFETCH: nat := 10

  /** Where a handler is: before its claim, owning the event with both or one broadcast ahead, or about to acknowledge. */
  datatype Stage = Claiming | Adding | Removing | Finished

  datatype Worker = Worker(event: nat, stage: Stage)

  /** `queue` and `feed` are multisets; `lost` are the events whose owner failed with a broadcast still due. */
  datatype System = System(
    queue: multiset<nat>,
    workers: map<nat, Worker>,
    claims: set<nat>,
    feed: multiset<Notification>,
    sent: set<nat>,
    lost: set<nat>)

  datatype Action =
    | Send(event: nat)
    | Deliver(event: nat, worker: nat)
    | Proceed(worker: nat)
    | Fail(worker: nat)

  predicate Enabled(payloads: seq<Payload>, s: System, a: Action) {
    match a
    case Send(event) => event < |payloads|
    case Deliver(event, w) => event in s.queue && w !in s.workers && |s.workers| < PREFETCH
    case Proceed(w) => w in s.workers && s.workers[w].event < |payloads|
    case Fail(w) => w in s.workers && s.workers[w].event < |payloads|
  }

  function Note(payloads: seq<Payload>, event: nat, kind: DeltaChange): Notification
    requires event < |payloads|
  {
    var p := payloads[event];
    Notification(event, p.segmentId, kind, if kind.ADD? then |p.added| else |p.removed|)
  }

  predicate IsDue(payloads: seq<Payload>, event: nat, kind: DeltaChange)
    requires event < |payloads|
  {
    if kind.ADD? then payloads[event].added != {} else payloads[event].removed != {}
  }

  function Broadcast(payloads: seq<Payload>, feed: multiset<Notification>, event: nat, kind: DeltaChange): multiset<Notification>
    requires event < |payloads|
  {
    if IsDue(payloads, event, kind) then feed + multiset{Note(payloads, event, kind)} else feed
  }

  /** The broadcasts a handler that owns its event still has ahead. */
  predicate Ahead(stage: Stage, kind: DeltaChange) {
    stage.Adding? || (stage.Removing? && kind.REMOVE?)
  }

  function Next(payloads: seq<Payload>, s: System, a: Action): System
    requires Enabled(payloads, s, a)
  {
    match a
    case Send(event) => s.(queue := s.queue + multiset{event}, sent := s.sent + {event})
    case Deliver(event, w) => s.(queue := s.queue - multiset{event}, workers := s.workers[w := Worker(event, Claiming)])
    case Proceed(w) =>
      var event := s.workers[w].event;
      (match s.workers[w].stage
       case Claiming =>
         if event in s.claims then s.(workers := s.workers[w := Worker(event, Finished)])
         else s.(workers := s.workers[w := Worker(event, Adding)], claims := s.claims + {event})
       case Adding =>
         s.(workers := s.workers[w := Worker(event, Removing)], feed := Broadcast(payloads, s.feed, event, ADD))
       case Removing =>
         s.(workers := s.workers[w := Worker(event, Finished)], feed := Broadcast(payloads, s.feed, event, REMOVE))
       case Finished => s.(workers := s.workers - {w}))
    case Fail(w) =>
      var event, stage := s.workers[w].event, s.workers[w].stage;
      s.(workers := s.workers - {w}, queue := s.queue + multiset{event},
         lost := if (Ahead(stage, ADD) && IsDue(payloads, event, ADD)) || (Ahead(stage, REMOVE) && IsDue(payloads, event, REMOVE))
                 then s.lost + {event} else s.lost)
  }

  predicate Owns(s: System, w: nat, event: nat) {
    w in s.workers && s.workers[w].event == event && (s.workers[w].stage.Adding? || s.workers[w].stage.Removing?)
  }

  predicate Holds(s: System, w: nat, event: nat) {
    w in s.workers && s.workers[w].event == event
  }

  ghost predicate Owned(s: System, event: nat) {
    exists w :: Owns(s, w, event)
  }

  /** The owner of the event, if any, has already passed the broadcast. */
  ghost predicate Passed(s: System, event: nat, kind: DeltaChange) {
    event in s.claims && forall w | Owns(s, w, event) :: !Ahead(s.workers[w].stage, kind)
  }

  ghost predicate NoteInvariant(payloads: seq<Payload>, s: System, event: nat, kind: DeltaChange)
    requires event < |payloads|
  {
    var n := s.feed[Note(payloads, event, kind)];
    && n <= 1
    && (n == 1 ==> IsDue(payloads, event, kind) && Passed(s, event, kind))
    && (Passed(s, event, kind) && IsDue(payloads, event, kind) && event !in s.lost ==> n == 1)
  }

  ghost predicate EventInvariant(payloads: seq<Payload>, s: System, event: nat)
    requires event < |payloads|
  {
    && NoteInvariant(payloads, s, event, ADD)
    && NoteInvariant(payloads, s, event, REMOVE)
    && (forall w, w' | Owns(s, w, event) && Owns(s, w', event) :: w == w')
    && (Owned(s, event) ==> event in s.claims && event !in s.lost)
    && (event in s.lost ==> event in s.claims && !Owned(s, event) && !Complete(payloads, s, event))
    && (forall w | Holds(s, w, event) && !s.workers[w].stage.Claiming? :: event in s.claims)
    && (event in s.sent ==> event in s.claims || event in s.queue || exists w :: Holds(s, w, event))
  }

  /** Every notification that the event calls for has gone out. */
  ghost predicate Complete(payloads: seq<Payload>, s: System, event: nat)
    requires event < |payloads|
  {
    forall kind | IsDue(payloads, event, kind) :: s.feed[Note(payloads, event, kind)] > 0
  }

  ghost predicate Invariant(payloads: seq<Payload>, s: System) {
    && (forall event | 0 <= event < |payloads| :: EventInvariant(payloads, s, event))
    && (forall n | n in s.feed :: n.event < |payloads| && n == Note(payloads, n.event, n.kind))
  }

  function Init(): System {
    System(multiset{}, map[], {}, multiset{}, {}, {})
  }

  function Subject(payloads: seq<Payload>, s: System, a: Action): nat
    requires Enabled(payloads, s, a)
  {
    match a
    case Send(event) => event
    case Deliver(event, _) => event
    case Proceed(w) => s.workers[w].event
    case Fail(w) => s.workers[w].event
  }

  /** The two states agree on everything that concerns the event. */
  ghost predicate SameFor(payloads: seq<Payload>, s: System, s': System, event: nat)
    requires event < |payloads|
  {
    && (forall w :: Holds(s', w, event) <==> Holds(s, w, event))
    && (forall w | Holds(s, w, event) :: s'.workers[w] == s.workers[w])
    && (forall kind :: s'.feed[Note(payloads, event, kind)] == s.feed[Note(payloads, event, kind)])
    && (event in s'.queue <==> event in s.queue)
    && (event in s'.claims <==> event in s.claims)
    && (event in s'.sent <==> event in s.sent)
    && (event in s'.lost <==> event in s.lost)
  }

  lemma SameForKeepsInvariant(payloads: seq<Payload>, s: System, s': System, event: nat)
    requires event < |payloads| && SameFor(payloads, s, s', event) && EventInvariant(payloads, s, event)
    ensures EventInvariant(payloads, s', event)
  {
    forall w ensures Owns(s', w, event) <==> Owns(s, w, event) {
      assert Holds(s', w, event) <==> Holds(s, w, event);
    }
  }

  lemma OtherHandlersUntouched(payloads: seq<Payload>, s: System, a: Action, event: nat, w: nat)
    requires Enabled(payloads, s, a) && event != Subject(payloads, s, a)
    ensures var s' := Next(payloads, s, a);
            (Holds(s', w, event) <==> Holds(s, w, event)) && (Holds(s, w, event) ==> s'.workers[w] == s.workers[w])
  {
  }

  lemma BroadcastTouchesOne(payloads: seq<Payload>, feed: multiset<Notification>, subject: nat, sent: DeltaChange,
                            event: nat, kind: DeltaChange)
    requires event < |payloads| && subject < |payloads| && event != subject
    ensures Broadcast(payloads, feed, subject, sent)[Note(payloads, event, kind)] == feed[Note(payloads, event, kind)]
  {
    assert Note(payloads, event, kind) != Note(payloads, subject, sent);
  }

  lemma OtherNotesUntouched(payloads: seq<Payload>, s: System, a: Action, event: nat, kind: DeltaChange)
    requires event < |payloads| && Enabled(payloads, s, a) && event != Subject(payloads, s, a)
    ensures Next(payloads, s, a).feed[Note(payloads, event, kind)] == s.feed[Note(payloads, event, kind)]
  {
    if a.Proceed? {
      BroadcastTouchesOne(payloads, s.feed, s.workers[a.worker].event, ADD, event, kind);
      BroadcastTouchesOne(payloads, s.feed, s.workers[a.worker].event, REMOVE, event, kind);
    }
  }

  lemma OtherMarksUntouched(payloads: seq<Payload>, s: System, a: Action, event: nat)
    requires Enabled(payloads, s, a) && event != Subject(payloads, s, a)
    ensures var s' := Next(payloads, s, a);
            && (event in s'.queue <==> event in s.queue) && (event in s'.claims <==> event in s.claims)
            && (event in s'.sent <==> event in s.sent) && (event in s'.lost <==> event in s.lost)
  {
  }

  lemma OtherEventsUntouched(payloads: seq<Payload>, s: System, a: Action, event: nat)
    requires event < |payloads| && Enabled(payloads, s, a)
    requires event != Subject(payloads, s, a)
    ensures SameFor(payloads, s, Next(payloads, s, a), event)
  {
    var s' := Next(payloads, s, a);
    OtherMarksUntouched(payloads, s, a, event);
    forall w ensures (Holds(s', w, event) <==> Holds(s, w, event)) && (Holds(s, w, event) ==> s'.workers[w] == s.workers[w]) {
      OtherHandlersUntouched(payloads, s, a, event, w);
    }
    forall kind ensures s'.feed[Note(payloads, event, kind)] == s.feed[Note(payloads, event, kind)] {
      OtherNotesUntouched(payloads, s, a, event, kind);
    }
  }

  lemma ArrivalKeepsEvent(payloads: seq<Payload>, s: System, a: Action)
    requires Enabled(payloads, s, a) && (a.Send? || a.Deliver?) && a.event < |payloads|
    requires EventInvariant(payloads, s, a.event)
    ensures EventInvariant(payloads, Next(payloads, s, a), a.event)
  {
    var s' := Next(payloads, s, a);
    assert forall w :: Owns(s', w, a.event) <==> Owns(s, w, a.event);
    assert forall w | Owns(s, w, a.event) :: s'.workers[w] == s.workers[w];
    assert forall w | Holds(s, w, a.event) :: Holds(s', w, a.event);
    if a.Deliver? {
      assert Holds(s', a.worker, a.event);
    }
  }

  lemma ProceedKeepsEvent(payloads: seq<Payload>, s: System, w: nat)
    requires Enabled(payloads, s, Proceed(w)) && EventInvariant(payloads, s, s.workers[w].event)
    ensures EventInvariant(payloads, Next(payloads, s, Proceed(w)), s.workers[w].event)
  {
    var s', event := Next(payloads, s, Proceed(w)), s.workers[w].event;
    assert Holds(s, w, event);
    assert forall v | v != w :: Owns(s', v, event) <==> Owns(s, v, event);
    assert forall v | v != w :: Holds(s', v, event) <==> Holds(s, v, event);
    match s.workers[w].stage
    case Claiming =>
      if event !in s.claims {
        assert Owns(s', w, event);
      }
      assert Holds(s', w, event);
    case Adding =>
      assert Owns(s, w, event) && Owns(s', w, event);
    case Removing =>
      assert Owns(s, w, event) && !Owns(s', w, event);
    case Finished =>
      assert !Owns(s, w, event) && !Owns(s', w, event);
  }

  lemma FailKeepsEvent(payloads: seq<Payload>, s: System, w: nat)
    requires Enabled(payloads, s, Fail(w)) && EventInvariant(payloads, s, s.workers[w].event)
    ensures EventInvariant(payloads, Next(payloads, s, Fail(w)), s.workers[w].event)
  {
    var s', event := Next(payloads, s, Fail(w)), s.workers[w].event;
    assert Holds(s, w, event);
    assert forall v | v != w :: Owns(s', v, event) <==> Owns(s, v, event);
    assert forall v | v != w :: Holds(s', v, event) <==> Holds(s, v, event);
    assert !Owns(s', w, event);
    if Owns(s, w, event) {
      assert !Owned(s', event);
    }
  }

  lemma StepKeepsEvent(payloads: seq<Payload>, s: System, a: Action, event: nat)
    requires event < |payloads| && EventInvariant(payloads, s, event) && Enabled(payloads, s, a)
    ensures EventInvariant(payloads, Next(payloads, s, a), event)
  {
    if event != Subject(payloads, s, a) {
      OtherEventsUntouched(payloads, s, a, event);
      SameForKeepsInvariant(payloads, s, Next(payloads, s, a), event);
    } else {
      match a
      case Send(_) => ArrivalKeepsEvent(payloads, s, a);
      case Deliver(_, _) => ArrivalKeepsEvent(payloads, s, a);
      case Proceed(w) => ProceedKeepsEvent(payloads, s, w);
      case Fail(w) => FailKeepsEvent(payloads, s, w);
    }
  }

  lemma StepKeepsInvariant(payloads: seq<Payload>, s: System, a: Action)
    requires Invariant(payloads, s) && Enabled(payloads, s, a)
    ensures Invariant(payloads, Next(payloads, s, a))
  {
    forall event | 0 <= event < |payloads| ensures EventInvariant(payloads, Next(payloads, s, a), event) {
      StepKeepsEvent(payloads, s, a, event);
    }
  }

  predicate Runs(payloads: seq<Payload>, s: System, actions: seq<Action>)
    decreases |actions|
  {
    actions == [] || (Enabled(payloads, s, actions[0]) && Runs(payloads, Next(payloads, s, actions[0]), actions[1..]))
  }

  function Run(payloads: seq<Payload>, s: System, actions: seq<Action>): System
    requires Runs(payloads, s, actions)
    decreases |actions|
  {
    if actions == [] then s else Run(payloads, Next(payloads, s, actions[0]), actions[1..])
  }

  lemma {:induction false} RunKeepsInvariant(payloads: seq<Payload>, s: System, actions: seq<Action>)
    requires Invariant(payloads, s) && Runs(payloads, s, actions)
    ensures Invariant(payloads, Run(payloads, s, actions))
    decreases |actions|
  {
    if actions != [] {
      StepKeepsInvariant(payloads, s, actions[0]);
      RunKeepsInvariant(payloads, Next(payloads, s, actions[0]), actions[1..]);
    }
  }

  /**
   At most once: under any interleaving of duplicate and parallel deliveries, crashes and
   requeues, each event has produced at most one ADD and one REMOVE notification, only those
   it calls for, with counts equal to its payload's sizes; and no two handlers own the same
   event at once.
   */
  lemma AtMostOnce(payloads: seq<Payload>, actions: seq<Action>)
    requires Runs(payloads, Init(), actions)
    ensures var s := Run(payloads, Init(), actions);
            && (forall n | n in s.feed ::
                  && s.feed[n] == 1 && n.event < |payloads|
                  && n.segmentId == payloads[n.event].segmentId
                  && (n.kind.ADD? ==> n.totalCount == |payloads[n.event].added| > 0)
                  && (n.kind.REMOVE? ==> n.totalCount == |payloads[n.event].removed| > 0))
            && (forall w, w', event: nat | event < |payloads| && Owns(s, w, event) && Owns(s, w', event) :: w == w')
  {
    RunKeepsInvariant(payloads, Init(), actions);
    var s := Run(payloads, Init(), actions);
    forall n | n in s.feed ensures s.feed[n] == 1 && n.event < |payloads| && IsDue(payloads, n.event, n.kind) {
      NoteIsSingle(payloads, s, n);
    }
    forall w, w', event: nat | event < |payloads| && Owns(s, w, event) && Owns(s, w', event) ensures w == w' {
      assert EventInvariant(payloads, s, event);
    }
  }

  lemma NoteIsSingle(payloads: seq<Payload>, s: System, n: Notification)
    requires Invariant(payloads, s) && n in s.feed
    ensures s.feed[n] == 1 && n.event < |payloads| && IsDue(payloads, n.event, n.kind)
  {
    assert EventInvariant(payloads, s, n.event);
    assert NoteInvariant(payloads, s, n.event, n.kind);
  }

  lemma {:induction false} AtMostTenHandlers(payloads: seq<Payload>, s: System, actions: seq<Action>)
    requires Runs(payloads, s, actions) && |s.workers| <= 10
    ensures |Run(payloads, s, actions).workers| <= 10
    decreases |actions|
  {
    if actions != [] {
      WorkersCount(payloads, s, actions[0]);
      AtMostTenHandlers(payloads, Next(payloads, s, actions[0]), actions[1..]);
    }
  }

  lemma WorkersCount(payloads: seq<Payload>, s: System, a: Action)
    requires Enabled(payloads, s, a) && |s.workers| <= 10
    ensures |Next(payloads, s, a).workers| <= 10
  {
    var s' := Next(payloads, s, a);
    if a.Deliver? {
      assert s'.workers.Keys == s.workers.Keys + {a.worker};
    } else {
      assert s'.workers.Keys <= s.workers.Keys;
      FewerWorkers(s'.workers, s.workers);
    }
  }

  lemma FewerWorkers(few: map<nat, Worker>, many: map<nat, Worker>)
    requires few.Keys <= many.Keys
    ensures |few| <= |many|
  {
    assert many.Keys == few.Keys + (many.Keys - few.Keys);
  }

  /**
   Exactly the due ones, and when: once nothing is queued or being handled, an event that was
   sent has had all its notifications if and only if no handler failed while it owned the
   event with a broadcast still due. A failed owner is never replaced: the claim outlives it.
   */
  lemma CompleteIffOwnerSurvived(payloads: seq<Payload>, actions: seq<Action>, event: nat)
    requires Runs(payloads, Init(), actions) && event < |payloads|
    requires var s := Run(payloads, Init(), actions); event in s.sent && s.queue == multiset{} && s.workers == map[]
    ensures var s, p := Run(payloads, Init(), actions), payloads[event];
            event !in s.lost
            <==> (p.added != {} ==> s.feed[Notification(event, p.segmentId, ADD, |p.added|)] == 1)
                 && (p.removed != {} ==> s.feed[Notification(event, p.segmentId, REMOVE, |p.removed|)] == 1)
  {
    RunKeepsInvariant(payloads, Init(), actions);
    AtRest(payloads, Run(payloads, Init(), actions), event);
    CompleteMeans(payloads, Run(payloads, Init(), actions), event);
  }

  lemma CompleteMeans(payloads: seq<Payload>, s: System, event: nat)
    requires event < |payloads| && EventInvariant(payloads, s, event)
    ensures var p := payloads[event];
            Complete(payloads, s, event)
            <==> (p.added != {} ==> s.feed[Notification(event, p.segmentId, ADD, |p.added|)] == 1)
                 && (p.removed != {} ==> s.feed[Notification(event, p.segmentId, REMOVE, |p.removed|)] == 1)
  {
    assert IsDue(payloads, event, ADD) && Complete(payloads, s, event) ==> s.feed[Note(payloads, event, ADD)] > 0;
    assert IsDue(payloads, event, REMOVE) && Complete(payloads, s, event) ==> s.feed[Note(payloads, event, REMOVE)] > 0;
    assert NoteInvariant(payloads, s, event, ADD) && NoteInvariant(payloads, s, event, REMOVE);
  }

  lemma First(payloads: seq<Payload>, s: System, a: Action, rest: seq<Action>)
    requires Enabled(payloads, s, a) && Runs(payloads, Next(payloads, s, a), rest)
    ensures Runs(payloads, s, [a] + rest) && Run(payloads, s, [a] + rest) == Run(payloads, Next(payloads, s, a), rest)
  {
    assert ([a] + rest)[1..] == rest;
  }

  /** A redelivery of a claimed event goes as soon as its handler has looked. */
  lemma RedeliveryIsDropped(payloads: seq<Payload>, s: System, w: nat)
    requires 0 < |payloads| && s.queue == multiset{0} && s.workers == map[] && 0 in s.claims
    ensures var again := [Deliver(0, w)] + ([Proceed(w)] + ([Proceed(w)] + []));
            Runs(payloads, s, again) && Run(payloads, s, again) == s.(queue := multiset{})
  {
    var s1 := Next(payloads, s, Deliver(0, w));
    var s2 := Next(payloads, s1, Proceed(w));
    First(payloads, s2, Proceed(w), []);
    First(payloads, s1, Proceed(w), [Proceed(w)] + []);
    First(payloads, s, Deliver(0, w), [Proceed(w)] + ([Proceed(w)] + []));
  }

  /**
   A run that loses a notification: the handler claims the event and fails, and the redelivery
   finds the claim and acknowledges. Everything is at rest and nobody was notified.
   */
  lemma FailedOwnerLosesNotification(segmentId: SegmentId, c: CustomerId)
    ensures var payloads := [Payload(segmentId, "", 0, {c}, {})];
            var again := [Deliver(0, 1)] + ([Proceed(1)] + ([Proceed(1)] + []));
            var actions := [Send(0)] + ([Deliver(0, 0)] + ([Proceed(0)] + ([Fail(0)] + again)));
            && Runs(payloads, Init(), actions)
            && var s := Run(payloads, Init(), actions);
               && 0 in s.sent && s.queue == multiset{} && s.workers == map[]
               && s.feed == multiset{} && 0 in s.lost && !Complete(payloads, s, 0)
  {
    var payloads := [Payload(segmentId, "", 0, {c}, {})];
    var again := [Deliver(0, 1)] + ([Proceed(1)] + ([Proceed(1)] + []));
    assert c in payloads[0].added;
    var s1 := Next(payloads, Init(), Send(0));
    var s2 := Next(payloads, s1, Deliver(0, 0));
    var s3 := Next(payloads, s2, Proceed(0));
    var s4 := Next(payloads, s3, Fail(0));
    assert s4 == System(multiset{0}, map[], {0}, multiset{}, {0}, {0});
    RedeliveryIsDropped(payloads, s4, 1);
    First(payloads, s3, Fail(0), again);
    First(payloads, s2, Proceed(0), [Fail(0)] + again);
    First(payloads, s1, Deliver(0, 0), [Proceed(0)] + ([Fail(0)] + again));
    First(payloads, Init(), Send(0), [Deliver(0, 0)] + ([Proceed(0)] + ([Fail(0)] + again)));
    assert IsDue(payloads, 0, ADD);
  }

  lemma AtRest(payloads: seq<Payload>, s: System, event: nat)
    requires event < |payloads| && EventInvariant(payloads, s, event)
    requires event in s.sent && s.queue == multiset{} && s.workers == map[]
    ensures Complete(payloads, s, event) <==> event !in s.lost
  {
    assert event in s.claims by {
      assert forall w :: !Holds(s, w, event);
    }
    forall kind ensures NoteInvariant(payloads, s, event, kind) && Passed(s, event, kind) {
      assert kind == ADD || kind == REMOVE;
    }
  }

  /** One handling of a message with nothing in between. */
  function Handling(event: nat, w: nat, claimed: bool): seq<Action> {
    [Deliver(event, w)] + ([Proceed(w)] + (if claimed then [Proceed(w)] + [] else Broadcasts(w)))
  }

  /** The steps of a handler that owns its event. */
  function Broadcasts(w: nat): seq<Action> {
    [Proceed(w)] + ([Proceed(w)] + ([Proceed(w)] + []))
  }

  lemma BroadcastsRun(payloads: seq<Payload>, s: System, event: nat, w: nat)
    requires event < |payloads| && w in s.workers && s.workers[w] == Worker(event, Adding)
    ensures Runs(payloads, s, Broadcasts(w))
    ensures Run(payloads, s, Broadcasts(w))
         == s.(workers := s.workers - {w}, feed := s.feed + multiset(Due(event, payloads[event])))
  {
    var feed1 := Broadcast(payloads, s.feed, event, ADD);
    var feed2 := Broadcast(payloads, feed1, event, REMOVE);
    var s1 := s.(workers := s.workers[w := Worker(event, Removing)], feed := feed1);
    var s2 := s.(workers := s.workers[w := Worker(event, Finished)], feed := feed2);
    assert s1.workers[w := Worker(event, Finished)] == s2.workers && s2.workers - {w} == s.workers - {w};
    assert Next(payloads, s, Proceed(w)) == s1;
    assert Next(payloads, s1, Proceed(w)) == s2;
    First(payloads, s2, Proceed(w), []);
    First(payloads, s1, Proceed(w), [Proceed(w)] + []);
    First(payloads, s, Proceed(w), [Proceed(w)] + ([Proceed(w)] + []));
    DueIsBroadcast(payloads, s.feed, event);
  }

  lemma DueIsBroadcast(payloads: seq<Payload>, feed: multiset<Notification>, event: nat)
    requires event < |payloads|
    ensures Broadcast(payloads, Broadcast(payloads, feed, event, ADD), event, REMOVE)
         == feed + multiset(Due(event, payloads[event]))
  {
    var p := payloads[event];
    var added := if p.added == {} then [] else [Notification(event, p.segmentId, ADD, |p.added|)];
    var removed := if p.removed == {} then [] else [Notification(event, p.segmentId, REMOVE, |p.removed|)];
    assert multiset(added + removed) == multiset(added) + multiset(removed);
  }

  /**
   The consumer's own handling is a run: a delivered message that nothing interrupts takes claims and
   feed where `CampaignConsumerService.Handle` takes them, and leaves the queue.
   */
  lemma HandleRuns(payloads: seq<Payload>, s: System, event: nat, w: nat)
    requires event < |payloads| && Enabled(payloads, s, Deliver(event, w))
    ensures var claimed := event in s.claims;
            && Runs(payloads, s, Handling(event, w, claimed))
            && Run(payloads, s, Handling(event, w, claimed))
               == if claimed then s.(queue := s.queue - multiset{event})
                  else s.(queue := s.queue - multiset{event}, claims := s.claims + {event},
                          feed := s.feed + multiset(Due(event, payloads[event])))
  {
    var s1 := Next(payloads, s, Deliver(event, w));
    var s2 := Next(payloads, s1, Proceed(w));
    assert s2.workers - {w} == s.workers;
    if event in s.claims {
      First(payloads, s2, Proceed(w), []);
      First(payloads, s1, Proceed(w), [Proceed(w)] + []);
      First(payloads, s, Deliver(event, w), [Proceed(w)] + ([Proceed(w)] + []));
    } else {
      BroadcastsRun(payloads, s2, event, w);
      First(payloads, s1, Proceed(w), Broadcasts(w));
      First(payloads, s, Deliver(event, w), [Proceed(w)] + Broadcasts(w));
    }
  }
}
