/**
 * When each registration operation is carried out, what it answers otherwise, and what it writes: stated of the
 * rows before and after, for both repositories.
 */
module RegistrationAnswers {
  import opened Collections
  import opened Messages
  import opened Registrations
  import opened RegistrationInvariants
  import opened RegistrationTheorems

  /** The organizer of a known event, or an administrator. */
  predicate May(s: Store, e: Id, actor: Id, admin: bool) {
    e in s.events && (s.events[e].organizerId == actor || admin)
  }

  // ---------------------------------------------------------------- joining

  predicate JoinedAs(outcome: Outcome, status: Status) {
    outcome.Joined? && !outcome.existing && outcome.registration.status == status
  }

  /** What a user without an active registration is answered, and when; a failed join changes nothing. */
  lemma JoinIsAnsweredIff(repo: Repo, s: Store, e: Id, u: Id, key: string, now: Time, registration: Id, message: Id)
    requires Inv(s) && e in s.events && ActiveIds(s.regs, e, u) == {}
    ensures var (s', outcome) := Step(repo, s, Join(e, u, key, now, registration, message));
            var event, seats := s.events[e], |ConfirmedIds(s.regs, e)|;
            && (outcome == Failed(EventIsCanceled) <==> event.status == Canceled)
            && (outcome == Failed(EventStarted) <==> event.status == Published && event.startsAt <= now)
            && (JoinedAs(outcome, Confirmed)
                <==> event.status == Published && now < event.startsAt && seats < event.capacity)
            && (JoinedAs(outcome, Waitlisted)
                <==> event.status == Published && now < event.startsAt && seats >= event.capacity)
            && (outcome.Failed? ==> s' == s)
  {
  }

  /** Otherwise the event is not there, or the registration there is is returned; nothing changes. */
  lemma JoinIsIdle(repo: Repo, s: Store, e: Id, u: Id, key: string, now: Time, registration: Id, message: Id)
    requires Inv(s)
    ensures var (s', outcome) := Step(repo, s, Join(e, u, key, now, registration, message));
            && (outcome == Failed(NotFound) <==> e !in s.events)
            && (e !in s.events || ActiveIds(s.regs, e, u) != {} ==> s' == s)
            && (e in s.events ==>
                  forall id | id in ActiveIds(s.regs, e, u) :: outcome == Joined(s.regs[id], true))
  {
    forall id | e in s.events && id in ActiveIds(s.regs, e, u)
      ensures Step(repo, s, Join(e, u, key, now, registration, message)).1 == Joined(s.regs[id], true)
    {
      var found := Pick(ActiveIds(s.regs, e, u));
      assert !Rivals(s.regs, id, found);
    }
  }

  /** The row and the message a join adds, field by field; everything else stays. */
  lemma JoinAddsOneRow(repo: Repo, s: Store, e: Id, u: Id, key: string, now: Time, registration: Id, message: Id)
    requires Inv(s) && registration !in s.regs
    ensures var (s', outcome) := Step(repo, s, Join(e, u, key, now, registration, message));
            s' != s ==>
              && s'.events == s.events && s'.regs.Keys == s.regs.Keys + {registration}
              && (forall id | id in s.regs :: s'.regs[id] == s.regs[id])
              && var reg := s'.regs[registration];
              && outcome == Joined(reg, false)
              && reg.id == registration && reg.eventId == e && reg.userId == u && reg.idempotencyKey == key
              && reg.createdAt == now == reg.updatedAt && (reg.status == Confirmed ==> reg.waitlistPosition == 0)
              && |s'.outbox| == |s.outbox| + 1 && s'.outbox[..|s.outbox|] == s.outbox
              && var m := s'.outbox[|s.outbox|];
              && m.messageId == message && m.aggregateId == registration && m.occurredAt == now
              && m.routing == (if reg.status == Confirmed then JoinConfirmed else JoinWaitlisted)
              && TellsOf(m, reg) && m.payload.previousStatus == Absent
  {
  }

  /** A join message carries the registration as it is. */
  predicate TellsOf(m: Envelope, reg: Registration) {
    && m.payload.Fields? && m.payload.registrationId == reg.id && m.payload.eventId == reg.eventId
    && m.payload.userId == reg.userId && m.payload.status == reg.status
    && m.payload.waitlistPosition == reg.waitlistPosition
  }

  /** Over runs: whoever got a row joined a published event before the start it had then. */
  lemma RowsAreJoinedInTime(repo: Repo, ops: seq<Op>, i: nat)
    requires FreshRun(repo, ops) && i < |ops| && ops[i].Join?
    requires Run(repo, ops[..i + 1]).regs != Run(repo, ops[..i]).regs
    ensures var s := Run(repo, ops[..i]);
            && ops[i].eventId in s.events && s.events[ops[i].eventId].status == Published
            && ops[i].now < s.events[ops[i].eventId].startsAt
  {
    FreshPrefix(repo, ops, i);
    RunKeeps(repo, ops[..i]);
    assert ops[..i + 1][..i] == ops[..i];
    var op, s := ops[i], Run(repo, ops[..i]);
    if op.eventId in s.events && ActiveIds(s.regs, op.eventId, op.userId) == {} {
      JoinIsAnsweredIff(repo, s, op.eventId, op.userId, op.key, op.now, op.registration, op.message);
    } else {
      JoinIsIdle(repo, s, op.eventId, op.userId, op.key, op.now, op.registration, op.message);
    }
  }

  // ---------------------------------------------------------------- creating an event

  lemma CreateWrites(repo: Repo, s: Store, event: Event, message: Id)
    requires Inv(s) && event.id !in s.events
    ensures var (s', outcome) := Step(repo, s, Create(event, message));
            && s'.events.Keys == s.events.Keys + {event.id} && s'.events[event.id] == event && s'.regs == s.regs
            && (forall f | f in s.events :: s'.events[f] == s.events[f])
            && outcome == Detail(event, 0)
            && |s'.outbox| == |s.outbox| + 1 && s'.outbox[..|s.outbox|] == s.outbox
            && s'.outbox[|s.outbox|].routing == EventPublished && s'.outbox[|s.outbox|].messageId == message
            && s'.outbox[|s.outbox|].aggregateId == event.id && s'.outbox[|s.outbox|].occurredAt == event.createdAt
  {
    assert ConfirmedIds(s.regs, event.id) == {};
  }

  // ---------------------------------------------------------------- cancelling an event

  /** Who may cancel, what others are answered, and that cancelling twice changes nothing. */
  lemma CancelEventIsAnsweredIff(repo: Repo, s: Store, e: Id, actor: Id, admin: bool, now: Time, message: Id)
    requires RowsOk(s)
    ensures var (s', outcome) := Step(repo, s, CancelEvent(e, actor, admin, now, message));
            && (s' != s <==> May(s, e, actor, admin) && s.events[e].status == Published)
            && (outcome == Failed(NotFound) <==> e !in s.events)
            && (outcome == Failed(Forbidden) <==> e in s.events && !May(s, e, actor, admin))
            && (outcome.Detail? <==> May(s, e, actor, admin))
            && (May(s, e, actor, admin) ==>
                  e in s'.events && outcome == Detail(s'.events[e], |ConfirmedIds(s'.regs, e)|))
  {
  }

  /** What it writes: the event, its active rows, and one message about the event. */
  lemma CancelEventWrites(repo: Repo, s: Store, e: Id, actor: Id, admin: bool, now: Time, message: Id)
    requires RowsOk(s) && May(s, e, actor, admin) && s.events[e].status == Published
    ensures var s' := Step(repo, s, CancelEvent(e, actor, admin, now, message)).0;
            && s'.events.Keys == s.events.Keys && s'.regs.Keys == s.regs.Keys
            && (forall f | f in s.events && f != e :: s'.events[f] == s.events[f])
            && s'.events[e].status == Canceled && s'.events[e].updatedAt == now
            && SameBut(s'.events[e], s.events[e])
            && (forall id | id in s.regs ::
                  if s.regs[id].eventId == e && s.regs[id].status != Canceled
                  then s'.regs[id] == s.regs[id].(status := Canceled, updatedAt := now)
                  else s'.regs[id] == s.regs[id])
            && |s'.outbox| == |s.outbox| + 1 && s'.outbox[..|s.outbox|] == s.outbox
            && s'.outbox[|s.outbox|].routing == EventCanceled && s'.outbox[|s.outbox|].messageId == message
            && s'.outbox[|s.outbox|].aggregateId == e && s'.outbox[|s.outbox|].occurredAt == now
  {
  }

  /** Two events alike but for status and update time. */
  predicate SameBut(a: Event, b: Event) {
    && a.id == b.id && a.organizerId == b.organizerId && a.title == b.title && a.description == b.description
    && a.city == b.city && a.venue == b.venue && a.startsAt == b.startsAt && a.capacity == b.capacity
    && a.createdAt == b.createdAt
  }

  lemma StepKeepsOrganizer(repo: Repo, s: Store, op: Op, e: Id)
    requires RowsOk(s) && Fresh(s, op) && e in s.events
    ensures var s' := Step(repo, s, op).0;
            && e in s'.events && s'.events[e].organizerId == s.events[e].organizerId
            && (s'.events[e].status == Canceled <==>
                  s.events[e].status == Canceled || CancelsIt(s, op, e))
  {
  }

  /** The operation cancels event `e`, asked for by someone who may. */
  predicate CancelsIt(s: Store, op: Op, e: Id) {
    op.CancelEvent? && op.eventId == e && May(s, e, op.actor, op.admin)
  }

  lemma NewEventIsPublished(repo: Repo, s: Store, op: Op, e: Id)
    requires RowsOk(s) && Fresh(s, op) && e !in s.events && e in Step(repo, s, op).0.events
    ensures op.Create? && Step(repo, s, op).0.events[e].status == Published
  {
  }

  /** Some operation of the run cancelled event `e`. */
  ghost predicate WasCanceled(repo: Repo, ops: seq<Op>, e: Id) {
    exists i :: 0 <= i < |ops| && CancelsIt(Run(repo, ops[..i]), ops[i], e)
  }

  lemma WasCanceledGrows(repo: Repo, before: seq<Op>, op: Op, e: Id)
    ensures WasCanceled(repo, before + [op], e) <==> WasCanceled(repo, before, e) || CancelsIt(Run(repo, before), op, e)
  {
    var ops := before + [op];
    assert forall i | 0 <= i < |before| :: before[..i] == ops[..i] && before[i] == ops[i];
    assert ops[..|before|] == before && ops[|before|] == op;
    if i :| 0 <= i < |before| && CancelsIt(Run(repo, before[..i]), before[i], e) {
      assert CancelsIt(Run(repo, ops[..i]), ops[i], e);
    }
    if CancelsIt(Run(repo, before), op, e) {
      assert CancelsIt(Run(repo, ops[..|before|]), ops[|before|], e);
    }
  }

  lemma {:induction false} MissingWasNeverCanceled(repo: Repo, ops: seq<Op>, e: Id)
    requires FreshRun(repo, ops) && e !in Run(repo, ops).events
    ensures !WasCanceled(repo, ops, e)
  {
    if ops != [] {
      var before, op := ops[..|ops| - 1], ops[|ops| - 1];
      assert ops == before + [op];
      RunKeeps(repo, before);
      if e in Run(repo, before).events { StepKeepsOrganizer(repo, Run(repo, before), op, e); }
      MissingWasNeverCanceled(repo, before, e);
      WasCanceledGrows(repo, before, op, e);
    }
  }

  /**
   * Over runs: an event is cancelled if and only if its organizer or an administrator cancelled it while it was
   * there; nothing else cancels it and nothing brings it back.
   */
  lemma {:induction false} EventIsCanceledIff(repo: Repo, ops: seq<Op>, e: Id)
    requires FreshRun(repo, ops) && e in Run(repo, ops).events
    ensures Run(repo, ops).events[e].status == Canceled <==> WasCanceled(repo, ops, e)
  {
    var before, op := ops[..|ops| - 1], ops[|ops| - 1];
    assert ops == before + [op];
    RunKeeps(repo, before);
    WasCanceledGrows(repo, before, op, e);
    if e in Run(repo, before).events {
      EventIsCanceledIff(repo, before, e);
      StepKeepsOrganizer(repo, Run(repo, before), op, e);
    } else {
      MissingWasNeverCanceled(repo, before, e);
      NewEventIsPublished(repo, Run(repo, before), op, e);
    }
  }

  // ---------------------------------------------------------------- updating an event

  /** Every rule an event must meet, in the order in which they are checked. */
  lemma ValidateAnswers(event: Event, now: Time)
    ensures var texts := !Blank(event.title) && !Blank(event.city) && !Blank(event.venue);
            var error := Validate(event, now);
            && (error == Some(Unauthorized) <==> Blank(event.organizerId))
            && (!Blank(event.organizerId) && !texts ==> error == Some(InvalidEvent))
            && (!Blank(event.organizerId) && texts ==>
                  && (error == Some(EventStarted) <==> event.startsAt <= now)
                  && (error == Some(InvalidCapacity) <==> now < event.startsAt && event.capacity <= 0)
                  && (error == None <==> now < event.startsAt && event.capacity > 0
                                         && event.status in {Published, Canceled}))
  {
  }

  predicate NewText(change: Option<string>, current: string, text: string) {
    (change == None ==> text == current) && (change.Some? ==> text == change.value)
  }

  /** What the event would look like: the fields given are new, the others stay. */
  predicate WouldBe(event: Event, command: UpdateCommand, now: Time, next: Event) {
    && NewText(command.title, event.title, next.title)
    && NewText(command.description, event.description, next.description)
    && NewText(command.city, event.city, next.city)
    && NewText(command.venue, event.venue, next.venue)
    && next.startsAt == (if command.startsAt.Some? then command.startsAt.value else event.startsAt)
    && next.capacity == (if command.capacity.Some? then command.capacity.value else event.capacity)
    && next.id == event.id && next.organizerId == event.organizerId && next.status == event.status
    && next.createdAt == event.createdAt && next.updatedAt == now
  }

  predicate TextsOk(event: Event) { !Blank(event.title) && !Blank(event.city) && !Blank(event.venue) }

  /** Who may update, what is refused and why, and when the update goes through. */
  lemma UpdateIsAnsweredIff(
      repo: Repo, s: Store, e: Id, actor: Id, admin: bool, command: UpdateCommand, now: Time, message: Id, next: Event)
    requires Inv(s) && (e in s.events ==> WouldBe(s.events[e], command, now, next))
    ensures var (s', outcome) := Step(repo, s, Update(e, actor, admin, command, now, message));
            && (outcome == Failed(NotFound) <==> e !in s.events)
            && (outcome == Failed(Forbidden) <==> e in s.events && !May(s, e, actor, admin))
            && (outcome.Failed? ==> s' == s) && (outcome.Failed? || outcome.Detail?)
            && (May(s, e, actor, admin) ==>
                  && (outcome == Failed(EventIsCanceled) <==> s.events[e].status == Canceled)
                  && (s.events[e].status == Published ==> UpdateOutcome(s, e, next, outcome)))
  {
    if e in s.events {
      assert Updated(s.events[e], command, now) == next;
      ValidateAnswers(next, now);
      assert |ConfirmedIds(s.regs, e)| <= s.events[e].capacity && s.events[e].capacity > 0;
    }
  }

  /** The answer once the event is published and the actor may: the capacity first, then the other rules. */
  ghost predicate UpdateOutcome(s: Store, e: Id, next: Event, outcome: Outcome) {
    var seats := |ConfirmedIds(s.regs, e)|;
    if next.capacity <= 0 then outcome == Failed(InvalidCapacity)
    else if next.capacity < seats then outcome == Failed(CapacityBelowConfirmed)
    else if Blank(next.organizerId) then outcome == Failed(Unauthorized)
    else if !TextsOk(next) then outcome == Failed(InvalidEvent)
    else if next.startsAt <= next.updatedAt then outcome == Failed(EventStarted)
    else outcome == Detail(next, seats)
  }

  /** What an update that goes through writes. */
  lemma UpdateWrites(
      repo: Repo, s: Store, e: Id, actor: Id, admin: bool, command: UpdateCommand, now: Time, message: Id)
    requires RowsOk(s) && Step(repo, s, Update(e, actor, admin, command, now, message)).1.Detail?
    ensures var s' := Step(repo, s, Update(e, actor, admin, command, now, message)).0;
            && e in s.events && s'.events.Keys == s.events.Keys && s'.regs == s.regs
            && WouldBe(s.events[e], command, now, s'.events[e])
            && (forall f | f in s.events && f != e :: s'.events[f] == s.events[f])
            && |s'.outbox| == |s.outbox| + 1 && s'.outbox[..|s.outbox|] == s.outbox
            && s'.outbox[|s.outbox|].routing == EventUpdated && s'.outbox[|s.outbox|].messageId == message
            && s'.outbox[|s.outbox|].aggregateId == e && s'.outbox[|s.outbox|].occurredAt == now
  {
  }

  // ---------------------------------------------------------------- giving up a registration

  /** Only the organizer or an administrator gives up somebody else's registration; then it is the user's own step. */
  lemma CancelRegistrationIsAnsweredIff(
      repo: Repo, s: Store, e: Id, actor: Id, admin: bool, u: Id, now: Time, message: Id, promotedMessage: Id)
    ensures var (s', outcome) := Step(repo, s, CancelRegistration(e, actor, admin, u, now, message, promotedMessage));
            && (outcome == Failed(NotFound) <==> e !in s.events)
            && (outcome == Failed(Forbidden) <==> e in s.events && !May(s, e, actor, admin))
            && (outcome.Failed? ==> s' == s)
            && (May(s, e, actor, admin) ==>
                  (s', outcome) == Step(repo, s, CancelJoin(e, u, now, message, promotedMessage)))
  {
  }

  lemma GivesUp(repo: Repo, s: Store, e: Id, u: Id, id: Id, now: Time, message: Id, promotedMessage: Id)
    requires Inv(s) && e in s.events && ActiveIds(s.regs, e, u) != {} && id == Pick(ActiveIds(s.regs, e, u))
    ensures var (s', outcome) := Step(repo, s, CancelJoin(e, u, now, message, promotedMessage));
            GaveUp(s, s', outcome, id, now, message)
  {
    var s1 := Release(repo, s, id, now, message);
    if s.regs[id].status == Confirmed && WaitingIds(s1.regs, e) != {} {
      assert FirstWaiting(s1.regs, e) != id;
    }
  }

  /** The first of the two messages tells of the cancelled row, the second of the promoted one. */
  lemma GivingUpIsAnswered(repo: Repo, s: Store, e: Id, u: Id, now: Time, message: Id, promotedMessage: Id)
    requires Inv(s) && e in s.events
    ensures var (s', outcome) := Step(repo, s, CancelJoin(e, u, now, message, promotedMessage));
            && outcome.JoinCancel? && (outcome.noActive <==> ActiveIds(s.regs, e, u) == {})
            && (outcome.noActive ==>
                  && s' == s && outcome.canceled == None == outcome.promoted
                  && outcome.status == (if UserIds(s.regs, e, u) == {} then NotJoined else Canceled))
            && forall id | id in ActiveIds(s.regs, e, u) :: GaveUp(s, s', outcome, id, now, message)
  {
    forall id | id in ActiveIds(s.regs, e, u)
      ensures var (s', outcome) := Step(repo, s, CancelJoin(e, u, now, message, promotedMessage));
              GaveUp(s, s', outcome, id, now, message)
    {
      assert !Rivals(s.regs, id, Pick(ActiveIds(s.regs, e, u)));
      GivesUp(repo, s, e, u, id, now, message, promotedMessage);
    }
  }

  /** Row `id` is cancelled at `now`, the answer carries it, and the first new message tells of it. */
  ghost predicate GaveUp(s: Store, s': Store, outcome: Outcome, id: Id, now: Time, message: Id) {
    && id in s.regs && id in s'.regs && outcome.JoinCancel? && outcome.status == Canceled
    && outcome.canceled == Some(s'.regs[id])
    && s'.regs[id].status == Canceled && s'.regs[id].updatedAt == now
    && s'.regs[id].userId == s.regs[id].userId && s'.regs[id].eventId == s.regs[id].eventId
    && s'.regs[id].createdAt == s.regs[id].createdAt && s'.regs[id].id == id
    && |s'.outbox| > |s.outbox| && s'.outbox[..|s.outbox|] == s.outbox
    && var m := s'.outbox[|s.outbox|];
    && m.messageId == message && m.routing == JoinCanceled && m.aggregateId == id && m.occurredAt == now
    && TellsOf(m, s'.regs[id]) && m.payload.previousStatus == s.regs[id].status
  }

  /** Who is promoted: the first in line, exactly if the one who gave up held a seat and somebody waits. */
  lemma PromotionIsAnsweredIff(repo: Repo, s: Store, e: Id, u: Id, id: Id, now: Time, message: Id, promotedMessage: Id)
    requires Inv(s) && e in s.events && id in ActiveIds(s.regs, e, u)
    ensures var (s', outcome) := Step(repo, s, CancelJoin(e, u, now, message, promotedMessage));
            && outcome.JoinCancel?
            && (outcome.promoted.Some? <==> s.regs[id].status == Confirmed && WaitingIds(s.regs, e) != {})
            && |s'.outbox| == |s.outbox| + (if outcome.promoted.Some? then 2 else 1)
            && (outcome.promoted.Some? ==>
                  var first := FirstWaiting(s.regs, e);
                  && first in s'.regs && outcome.promoted == Some(s'.regs[first])
                  && s'.regs[first] == s.regs[first].(status := Confirmed, waitlistPosition := 0, updatedAt := now)
                  && var m := s'.outbox[|s.outbox| + 1];
                  && m.messageId == promotedMessage && m.routing == JoinPromoted && m.aggregateId == first
                  && m.occurredAt == now && TellsOf(m, s'.regs[first]) && m.payload.previousStatus == Waitlisted)
  {
    var found := Pick(ActiveIds(s.regs, e, u));
    assert !Rivals(s.regs, id, found);
    var s1 := Release(repo, s, id, now, message);
    OneRowMovesLine(s.regs, id, s1.regs[id]);
    if s.regs[id].status == Confirmed && WaitingIds(s.regs, e) != {} {
      FirstIsUnique(s.regs, s1.regs, e);
      assert FirstWaiting(s.regs, e) != id;
    }
  }

  // ---------------------------------------------------------------- what messages tell, over runs

  /** A join message names a row that is there, with its event and its user. */
  predicate NamesItsRow(s: Store, m: Envelope) {
    && m.aggregateId in s.regs && m.payload.Fields? && m.payload.registrationId == m.aggregateId
    && m.payload.eventId == s.regs[m.aggregateId].eventId && m.payload.userId == s.regs[m.aggregateId].userId
  }

  ghost predicate AllNamed(s: Store) { forall m | m in s.outbox && m.routing.IsJoin() :: NamesItsRow(s, m) }

  lemma RowKeepsNames(s: Store, id: Id, reg: Registration, m: Envelope)
    requires AllNamed(s) && m.aggregateId == id == reg.id && TellsOf(m, reg)
    requires id in s.regs ==> s.regs[id].eventId == reg.eventId && s.regs[id].userId == reg.userId
    ensures AllNamed(Store(s.events, s.regs[id := reg], s.outbox + [m]))
  {
    var s' := Store(s.events, s.regs[id := reg], s.outbox + [m]);
    forall x | x in s'.outbox && x.routing.IsJoin() ensures NamesItsRow(s', x) {
      assert x in s.outbox ==> NamesItsRow(s, x);
    }
  }

  lemma GivingUpKeepsNames(repo: Repo, s: Store, e: Id, u: Id, now: Time, message: Id, promotedMessage: Id)
    requires Inv(s) && e in s.events && AllNamed(s)
    ensures AllNamed(CancelStep(repo, s, e, u, now, message, promotedMessage).0)
  {
    if ActiveIds(s.regs, e, u) != {} {
      var id := Pick(ActiveIds(s.regs, e, u));
      var s1 := Release(repo, s, id, now, message);
      RowKeepsNames(s, id, s1.regs[id], s1.outbox[|s.outbox|]);
      if s.regs[id].status == Confirmed && WaitingIds(s1.regs, e) != {} {
        var first := FirstWaiting(s1.regs, e);
        var s2 := Promote(s1, first, now, promotedMessage);
        RowKeepsNames(s1, first, s2.regs[first], s2.outbox[|s1.outbox|]);
      }
    }
  }

  lemma StepKeepsNames(repo: Repo, s: Store, op: Op)
    requires Inv(s) && Fresh(s, op) && AllNamed(s)
    ensures AllNamed(Step(repo, s, op).0)
  {
    match op
    case CancelJoin(e, u, now, message, promotedMessage) =>
      if e in s.events { GivingUpKeepsNames(repo, s, e, u, now, message, promotedMessage); }
    case CancelRegistration(e, _, _, u, now, message, promotedMessage) =>
      if e in s.events { GivingUpKeepsNames(repo, s, e, u, now, message, promotedMessage); }
    case Join(_, _, _, _, registration, _) =>
      var s' := Step(repo, s, op).0;
      if s' != s { RowKeepsNames(s, registration, s'.regs[registration], s'.outbox[|s.outbox|]); }
    case _ =>
  }

  lemma {:induction false} MessagesNameTheirRows(repo: Repo, ops: seq<Op>)
    requires FreshRun(repo, ops)
    ensures AllNamed(Run(repo, ops))
  {
    if ops != [] {
      var before := ops[..|ops| - 1];
      MessagesNameTheirRows(repo, before);
      RunKeeps(repo, before);
      StepKeepsNames(repo, Run(repo, before), ops[|ops| - 1]);
    }
  }
}
