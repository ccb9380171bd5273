/**
 * What the feed says of an event besides its count: title, city, venue, start, capacity and status. They are those
 * of the event message that took effect last, and so those of the event if that is the one written last.
 */
module FeedDetails {
  import opened Collections
  import opened Messages
  import opened Registrations
  import opened RegistrationInvariants
  import opened FeedProjection
  import opened Pipeline
  import opened EffectOrder
  import opened Visits

  // ---------------------------------------------------------------- messages about one event

  predicate AboutEvent(m: Envelope, e: Id) { m.routing.IsEvent() && m.payload.Fields? && m.payload.eventId == e }

  /** The event.* messages about `e`, in order. */
  function EventLog(log: seq<Envelope>, e: Id): seq<Envelope> {
    if log == [] then [] else
    var rest, m := EventLog(log[..|log| - 1], e), log[|log| - 1];
    if AboutEvent(m, e) then rest + [m] else rest
  }

  lemma EventLogGrows(log: seq<Envelope>, m: Envelope, e: Id)
    ensures EventLog(log + [m], e) == if AboutEvent(m, e) then EventLog(log, e) + [m] else EventLog(log, e)
  {
    assert (log + [m])[..|log + [m]| - 1] == log;
  }

  lemma {:induction false} EventLogMembers(log: seq<Envelope>, e: Id)
    ensures forall m | m in EventLog(log, e) :: m in log && AboutEvent(m, e)
  {
    if log != [] {
      EventLogMembers(log[..|log| - 1], e);
    }
  }

  function Last(log: seq<Envelope>): Envelope
    requires log != []
  {
    log[|log| - 1]
  }

  /** The message gives the event's six details. */
  predicate Says(m: Envelope, event: Event) {
    && AboutEvent(m, event.id)
    && m.payload.title == event.title && m.payload.city == event.city && m.payload.venue == event.venue
    && m.payload.startsAt == At(event.startsAt) && m.payload.capacity == event.capacity
    && m.payload.status == event.status
  }

  /** The feed row shows the event's six details. */
  predicate Shows(rows: Rows, event: Event) {
    && event.id in rows
    && var shown := rows[event.id].details;
    && shown.title == event.title && shown.city == event.city && shown.venue == event.venue
    && shown.startsAt == Some(event.startsAt) && shown.capacity == event.capacity && shown.status == event.status
  }

  /** The row carries what the message says, field by field. */
  predicate Carries(rows: Rows, m: Envelope) {
    && m.payload.Fields? && m.payload.eventId in rows
    && var shown := rows[m.payload.eventId].details;
    && shown.title == m.payload.title && shown.city == m.payload.city && shown.venue == m.payload.venue
    && shown.capacity == m.payload.capacity && shown.status == m.payload.status
    && (m.payload.startsAt == Missing ==> shown.startsAt == None)
    && (m.payload.startsAt.At? ==> shown.startsAt == Some(m.payload.startsAt.time))
  }

  // ---------------------------------------------------------------- the last message decides

  /** What a row says before anything about its event took effect. */
  predicate SaysNothing(rows: Rows, e: Id) {
    e in rows ==>
      var shown := rows[e].details;
      && shown.title == "" && shown.city == "" && shown.venue == "" && shown.startsAt == None
      && shown.capacity == 0 && shown.status == Published
  }

  predicate SameDetails(rows: Rows, rows': Rows, e: Id) {
    if e in rows then e in rows' && rows'[e].details == rows[e].details else SaysNothing(rows', e)
  }

  /** A message about an event puts its details there; any other leaves them alone. */
  lemma OneMessageDecides(rows: Rows, m: Envelope, e: Id)
    requires Applicable(m)
    ensures if AboutEvent(m, e) then Carries(ApplyTo(rows, m), m) else SameDetails(rows, ApplyTo(rows, m), e)
  {
  }

  lemma {:induction false} LastMessageDecides(log: seq<Envelope>, e: Id)
    requires forall m | m in log :: Applicable(m)
    ensures EventLog(log, e) != [] ==>
              AboutEvent(Last(EventLog(log, e)), e) && Carries(RowsAfter(log), Last(EventLog(log, e)))
    ensures EventLog(log, e) == [] ==> SaysNothing(RowsAfter(log), e)
  {
    if log != [] {
      var before, m := log[..|log| - 1], log[|log| - 1];
      LastMessageDecides(before, e);
      OneMessageDecides(RowsAfter(before), m, e);
    }
  }

  // ---------------------------------------------------------------- the outbox tells what the events are

  /** The last message about each event gives its details as they are; there is none about an unknown one. */
  ghost predicate LastSays(s: Store, e: Id) {
    var log := EventLog(s.outbox, e);
    if e in s.events then log != [] && Says(Last(log), s.events[e]) else log == []
  }

  lemma {:induction false} JoinsAreNotAboutEvents(log: seq<Envelope>, more: seq<Envelope>, e: Id)
    requires forall m | m in more :: !AboutEvent(m, e)
    ensures EventLog(log + more, e) == EventLog(log, e)
  {
    if more == [] {
      assert log + more == log;
    } else {
      var shorter := more[..|more| - 1];
      JoinsAreNotAboutEvents(log, shorter, e);
      assert log + more == (log + shorter) + [more[|more| - 1]];
      EventLogGrows(log + shorter, more[|more| - 1], e);
    }
  }

  lemma EventOpsSay(repo: Repo, s: Store, op: Op, e: Id)
    requires RowsOk(s) && Fresh(s, op) && LastSays(s, e) && (op.Create? || op.Update? || op.CancelEvent?)
    ensures LastSays(Step(repo, s, op).0, e)
  {
    var s' := Step(repo, s, op).0;
    if s'.outbox != s.outbox { EventLogGrows(s.outbox, s'.outbox[|s.outbox|], e); }
  }

  /** What joining and giving up write is not about events. */
  ghost predicate OnlyJoinsAdded(s: Store, s': Store) {
    s.outbox <= s'.outbox && s'.events == s.events && forall m | m in s'.outbox[|s.outbox|..] :: m.routing.IsJoin()
  }

  lemma GivingUpAddsJoins(repo: Repo, s: Store, e: Id, u: Id, now: Time, message: Id, promotedMessage: Id)
    ensures OnlyJoinsAdded(s, CancelStep(repo, s, e, u, now, message, promotedMessage).0)
  {
  }

  lemma JoinOpsAddJoins(repo: Repo, s: Store, op: Op)
    requires op.Join? || op.CancelJoin? || op.CancelRegistration?
    ensures OnlyJoinsAdded(s, Step(repo, s, op).0)
  {
    match op
    case CancelJoin(e, u, now, message, promotedMessage) =>
      GivingUpAddsJoins(repo, s, e, u, now, message, promotedMessage);
    case CancelRegistration(e, _, _, u, now, message, promotedMessage) =>
      GivingUpAddsJoins(repo, s, e, u, now, message, promotedMessage);
    case _ =>
  }

  lemma JoinOpsSay(repo: Repo, s: Store, op: Op, e: Id)
    requires LastSays(s, e) && (op.Join? || op.CancelJoin? || op.CancelRegistration?)
    ensures LastSays(Step(repo, s, op).0, e)
  {
    var s' := Step(repo, s, op).0;
    JoinOpsAddJoins(repo, s, op);
    var more := s'.outbox[|s.outbox|..];
    assert s'.outbox == s.outbox + more;
    JoinsAreNotAboutEvents(s.outbox, more, e);
  }

  lemma {:induction false} RunSays(repo: Repo, ops: seq<Op>, e: Id)
    requires FreshRun(repo, ops)
    ensures LastSays(Run(repo, ops), e)
  {
    if ops != [] {
      var before, op := ops[..|ops| - 1], ops[|ops| - 1];
      RunSays(repo, before, e);
      RunKeeps(repo, before);
      if op.Create? || op.Update? || op.CancelEvent? {
        EventOpsSay(repo, Run(repo, before), op, e);
      } else {
        JoinOpsSay(repo, Run(repo, before), op, e);
      }
    }
  }

  // ---------------------------------------------------------------- the feed against the events

  lemma LastIsApplicable(log: seq<Envelope>, e: Id)
    requires EventLog(log, e) != [] && forall m | m in log :: Applicable(m)
    ensures Applicable(Last(EventLog(log, e)))
  {
    EventLogMembers(log, e);
    assert Last(EventLog(log, e)) in EventLog(log, e);
  }

  lemma CarriedIsShownIff(rows: Rows, m: Envelope, event: Event)
    requires Applicable(m) && AboutEvent(m, event.id) && Carries(rows, m)
    ensures Shows(rows, event) <==> Says(m, event)
  {
  }

  /**
   * Whatever order, failures and repeats: once some message about an event took effect, the feed shows its details
   * as they are if and only if the message that took effect last gives them.
   */
  lemma DetailsAreRightIff(repo: Repo, ops: seq<Op>, deliveries: seq<Delivery>, e: Id)
    requires FreshRun(repo, ops) && e in Run(repo, ops).events
    requires EventLog(Effective(deliveries), e) != []
    ensures Shows(FeedAfter(deliveries).rows, Run(repo, ops).events[e])
       <==> Says(Last(EventLog(Effective(deliveries), e)), Run(repo, ops).events[e])
  {
    RunKeeps(repo, ops);
    OnlyEffectiveDeliveriesCount(deliveries);
    LastMessageDecides(Effective(deliveries), e);
    LastIsApplicable(Effective(deliveries), e);
    var log := Effective(deliveries);
    CarriedIsShownIff(RowsAfter(log), Last(EventLog(log, e)), Run(repo, ops).events[e]);
  }

  /**
   * For every run and every delivery in which each event's own messages took effect in the order written, the feed
   * shows the details of every event as they are; in particular it says CANCELED of exactly the cancelled events.
   */
  lemma DetailsAgree(repo: Repo, ops: seq<Op>, deliveries: seq<Delivery>, e: Id)
    requires FreshRun(repo, ops) && e in Run(repo, ops).events
    requires EventLog(Effective(deliveries), e) == EventLog(Run(repo, ops).outbox, e)
    ensures e in FeedAfter(deliveries).rows && Shows(FeedAfter(deliveries).rows, Run(repo, ops).events[e])
    ensures FeedAfter(deliveries).rows[e].details.status == Canceled <==> Run(repo, ops).events[e].status == Canceled
  {
    RunSays(repo, ops, e);
    RunKeeps(repo, ops);
    DetailsAreRightIff(repo, ops, deliveries, e);
  }

  lemma {:induction false} EffectiveEventsAreDelivered(deliveries: seq<Delivery>, e: Id)
    ensures forall m | m in EventLog(Effective(deliveries), e) ::
              AboutEvent(m, e) && exists d :: d in deliveries && d.envelope == m
  {
    EventLogMembers(Effective(deliveries), e);
    EffectiveIsOnce(deliveries);
  }

  lemma {:induction false} AboutEventIsLogged(log: seq<Envelope>, m: Envelope, e: Id)
    requires m in log && AboutEvent(m, e)
    ensures m in EventLog(log, e)
  {
    if m != log[|log| - 1] {
      AboutEventIsLogged(log[..|log| - 1], m, e);
    }
  }

  /** Of an event nobody created the feed says nothing. */
  lemma NoPhantomDetails(repo: Repo, ops: seq<Op>, deliveries: seq<Delivery>, e: Id)
    requires FreshRun(repo, ops) && e !in Run(repo, ops).events
    requires forall d | d in deliveries :: d.envelope in Run(repo, ops).outbox
    ensures SaysNothing(FeedAfter(deliveries).rows, e)
  {
    RunSays(repo, ops, e);
    EffectiveEventsAreDelivered(deliveries, e);
    if EventLog(Effective(deliveries), e) != [] {
      var m := Last(EventLog(Effective(deliveries), e));
      assert m in EventLog(Effective(deliveries), e);
      AboutEventIsLogged(Run(repo, ops).outbox, m, e);
    }
    OnlyEffectiveDeliveriesCount(deliveries);
    LastMessageDecides(Effective(deliveries), e);
  }

  // ---------------------------------------------------------------- two event messages out of order

  /** The two give the same six details. */
  predicate SayTheSame(a: Envelope, b: Envelope)
    requires a.payload.Fields? && b.payload.Fields?
  {
    && a.payload.title == b.payload.title && a.payload.city == b.payload.city && a.payload.venue == b.payload.venue
    && a.payload.startsAt == b.payload.startsAt && a.payload.capacity == b.payload.capacity
    && a.payload.status == b.payload.status
  }

  lemma PairDecides(before: seq<Envelope>, a: Envelope, b: Envelope, e: Id)
    requires (forall m | m in before :: Applicable(m)) && Applicable(a) && Applicable(b)
    requires AboutEvent(a, e) && AboutEvent(b, e)
    ensures forall m | m in before + [a, b] :: Applicable(m)
    ensures Carries(RowsAfter(before + [a, b]), b)
  {
    var log := before + [a, b];
    assert log == (before + [a]) + [b];
    EventLogGrows(before + [a], b, e);
    LastMessageDecides(log, e);
  }

  /** Swapped, two messages about an event leave other details if and only if they differ in one of the six. */
  lemma SwapIsStaleIff(before: seq<Envelope>, a: Envelope, b: Envelope, e: Id)
    requires (forall m | m in before :: Applicable(m)) && Applicable(a) && Applicable(b)
    requires AboutEvent(a, e) && AboutEvent(b, e)
    ensures forall m | m in before + [a, b] || m in before + [b, a] :: Applicable(m)
    ensures e in RowsAfter(before + [a, b]) && e in RowsAfter(before + [b, a])
    ensures RowsAfter(before + [a, b])[e].details == RowsAfter(before + [b, a])[e].details <==> SayTheSame(a, b)
  {
    PairDecides(before, a, b, e);
    PairDecides(before, b, a, e);
  }

  // ---------------------------------------------------------------- a cancelled event that stays listed

  function CancelOut(v: Visit): Envelope {
    EventMessage(v.left, EventCanceled, v.event.(status := Status.Canceled, updatedAt := v.leaveAt), v.leaveAt)
  }

  /** The handling of the first message rolls back once, and its retry comes after the cancellation. */
  function LatePublication(v: Visit): seq<Delivery> {
    [Delivery(EventOut(v), RolledBack), Delivery(CancelOut(v), NoFault), Delivery(EventOut(v), NoFault)]
  }

  lemma LatePublicationRows(v: Visit)
    requires Plausible(v)
    ensures Effective(LatePublication(v)) == [CancelOut(v), EventOut(v)]
    ensures Last(EventLog(Effective(LatePublication(v)), v.event.id)) == EventOut(v)
  {
    var d := LatePublication(v);
    assert d[..2] == [d[0], d[1]] && d[..2][..1] == [d[0]] && [d[0]][..0] == [];
    assert Effective(d[..2]) == [CancelOut(v)];
    EventLogGrows([CancelOut(v)], EventOut(v), v.event.id);
    assert [CancelOut(v)] + [EventOut(v)] == [CancelOut(v), EventOut(v)];
  }

  /** Create and cancel: everything is processed, the event is cancelled, and the feed still lists it as published. */
  lemma CanceledEventStaysListed(repo: Repo, v: Visit)
    requires Plausible(v)
    ensures var ops := Ops(v)[..1] + [Cancellation(v)];
            && FreshRun(repo, ops) && Run(repo, ops).outbox == [EventOut(v), CancelOut(v)]
            && Run(repo, ops).events[v.event.id].status == Canceled
            && v.event.id in FeedAfter(LatePublication(v)).rows
            && FeedAfter(LatePublication(v)).rows[v.event.id].details.status == Published
  {
    EarlyCancellationRuns(repo, v);
    LatePublicationRows(v);
    OnlyEffectiveDeliveriesCount(LatePublication(v));
    LastMessageDecides(Effective(LatePublication(v)), v.event.id);
  }
}
