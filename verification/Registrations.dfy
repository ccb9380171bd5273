/**
 * Events, registrations and the transactional outbox: what one repository operation does.
 *
 * Both repositories run the same protocol. They differ in one thing: PostgreSQL clears the waitlist
 * number of a registration its user gives up, the in-memory one lets the row keep it.
 * Each operation is one atomic step; clock readings and new identifiers are part of the operation.
 */
module Registrations {
  import opened Collections
  import opened Messages

  datatype Error =
    | Unauthorized
    | Forbidden
    | NotFound
    | InvalidEvent
    | InvalidCapacity
    | CapacityBelowConfirmed
    | EventIsCanceled
    | EventStarted

  datatype Result<+T> = Ok(value: T) | Err(error: Error)

  datatype Event = Event(id: Id, organizerId: Id, title: string, description: string, city: string, venue: string,
                         startsAt: Time, capacity: int, status: Status, createdAt: Time, updatedAt: Time)

  datatype Registration = Registration(id: Id, eventId: Id, userId: Id, status: Status, waitlistPosition: int,
                                       idempotencyKey: string, createdAt: Time, updatedAt: Time)
  {
    predicate Active() { status == Confirmed || status == Waitlisted }
  }

  type Events = map<Id, Event>
  type Regs = map<Id, Registration>

  datatype Store = Store(events: Events, regs: Regs, outbox: seq<Envelope>)

  datatype Repo = InMemory | Postgres

  // ---------------------------------------------------------------- domain rules

  function Validate(event: Event, now: Time): Option<Error> {
    if Blank(event.organizerId) then Some(Unauthorized)
    else if Blank(event.title) || Blank(event.city) || Blank(event.venue) then Some(InvalidEvent)
    else if event.startsAt <= now then Some(EventStarted)
    else if event.capacity <= 0 then Some(InvalidCapacity)
    else if event.status != Published && event.status != Canceled then Some(InvalidEvent)
    else None
  }

  function ValidateCapacityChange(newCapacity: int, confirmed: int): Option<Error> {
    if newCapacity <= 0 then Some(InvalidCapacity)
    else if newCapacity < confirmed then Some(CapacityBelowConfirmed)
    else None
  }

  function DecideJoinStatus(event: Event, confirmed: int, now: Time): Result<Status> {
    if event.status == Canceled then Err(EventIsCanceled)
    else if event.startsAt <= now then Err(EventStarted)
    else if confirmed < event.capacity then Ok(Confirmed)
    else Ok(Waitlisted)
  }

  // ---------------------------------------------------------------- queries over the registration rows

  function EventIds(regs: Regs, e: Id): set<Id> {
    set id | id in regs && regs[id].eventId == e
  }

  function ConfirmedIds(regs: Regs, e: Id): set<Id> {
    set id | id in regs && regs[id].eventId == e && regs[id].status == Confirmed
  }

  function WaitingIds(regs: Regs, e: Id): set<Id> {
    set id | id in regs && regs[id].eventId == e && regs[id].status == Waitlisted
  }

  function UserIds(regs: Regs, e: Id, u: Id): set<Id> {
    set id | id in regs && regs[id].eventId == e && regs[id].userId == u
  }

  function ActiveIds(regs: Regs, e: Id, u: Id): set<Id> {
    set id | id in regs && regs[id].eventId == e && regs[id].userId == u && regs[id].Active()
  }

  ghost function PositionsUsed(regs: Regs, e: Id): set<int> {
    set id | id in EventIds(regs, e) :: regs[id].waitlistPosition
  }

  ghost function NextPosition(regs: Regs, e: Id): (p: int)
    ensures p > 0
    ensures forall id | id in EventIds(regs, e) :: regs[id].waitlistPosition < p
  {
    assert forall id | id in EventIds(regs, e) :: regs[id].waitlistPosition in PositionsUsed(regs, e);
    MaxOrZero(PositionsUsed(regs, e)) + 1
  }

  ghost predicate IsFirstWaiting(regs: Regs, e: Id, first: Id) {
    && first in WaitingIds(regs, e)
    && forall id | id in WaitingIds(regs, e) :: regs[first].waitlistPosition <= regs[id].waitlistPosition
  }

  /** The waiting registration with the least number. */
  ghost function FirstWaiting(regs: Regs, e: Id): (first: Id)
    requires WaitingIds(regs, e) != {}
    ensures IsFirstWaiting(regs, e, first)
  {
    assert exists id :: IsFirstWaiting(regs, e, id) by {
      var position := (id: Id) => if id in regs then regs[id].waitlistPosition else 0;
      LeastExists(WaitingIds(regs, e), position);
      var first :| first in WaitingIds(regs, e)
                   && forall id | id in WaitingIds(regs, e) :: position(first) <= position(id);
      assert IsFirstWaiting(regs, e, first);
    }
    var first :| IsFirstWaiting(regs, e, first); first
  }

  // ---------------------------------------------------------------- messages

  function EventPayload(event: Event): Payload {
    Fields(event.id, "", "", event.organizerId, event.title, event.city, event.venue, At(event.startsAt),
           event.capacity, event.status, 0, Absent)
  }

  function EventMessage(id: Id, routing: Routing, event: Event, now: Time): Envelope {
    Envelope(id, routing, "event", event.id, now, EventPayload(event))
  }

  function RegistrationPayload(reg: Registration, previousStatus: Status): Payload {
    Fields(reg.eventId, reg.id, reg.userId, "", "", "", "", Missing, 0, reg.status, reg.waitlistPosition,
        previousStatus)
  }

  function JoinMessage(id: Id, routing: Routing, reg: Registration, previousStatus: Status, now: Time): Envelope {
    Envelope(id, routing, "registration", reg.id, now, RegistrationPayload(reg, previousStatus))
  }

  // ---------------------------------------------------------------- operations

  datatype UpdateCommand = UpdateCommand(title: Option<string>, description: Option<string>, city: Option<string>,
                                         venue: Option<string>, startsAt: Option<Time>, capacity: Option<int>)

  datatype Op =
    | Create(event: Event, message: Id)
    | Update(eventId: Id, actor: Id, admin: bool, command: UpdateCommand, now: Time, message: Id)
    | CancelEvent(eventId: Id, actor: Id, admin: bool, now: Time, message: Id)
    | Join(eventId: Id, userId: Id, key: string, now: Time, registration: Id, message: Id)
    | CancelJoin(eventId: Id, userId: Id, now: Time, message: Id, promotedMessage: Id)
    | CancelRegistration(eventId: Id, actor: Id, admin: bool, userId: Id, now: Time, message: Id, promotedMessage: Id)

  datatype Outcome =
    | Failed(error: Error)
    | Detail(event: Event, confirmed: nat)
    | Joined(registration: Registration, existing: bool)
    | JoinCancel(status: Status, canceled: Option<Registration>, promoted: Option<Registration>, noActive: bool)

  function DetailOf(events: Events, regs: Regs, e: Id): Outcome
    requires e in events
  {
    Detail(events[e], |ConfirmedIds(regs, e)|)
  }

  function CreateStep(s: Store, event: Event, message: Id): (Store, Outcome) {
    var s' := Store(s.events[event.id := event], s.regs,
                    s.outbox + [EventMessage(message, EventPublished, event, event.createdAt)]);
    (s', DetailOf(s'.events, s'.regs, event.id))
  }

  function OrElse<T>(change: Option<T>, current: T): T { if change.Some? then change.value else current }

  function Updated(event: Event, command: UpdateCommand, now: Time): Event {
    event.(title := OrElse(command.title, event.title),
           description := OrElse(command.description, event.description),
           city := OrElse(command.city, event.city),
           venue := OrElse(command.venue, event.venue),
           startsAt := OrElse(command.startsAt, event.startsAt),
           capacity := OrElse(command.capacity, event.capacity),
           updatedAt := now)
  }

  function UpdateStep(s: Store, e: Id, actor: Id, admin: bool, command: UpdateCommand, now: Time, message: Id)
    : (Store, Outcome)
  {
    if e !in s.events then (s, Failed(NotFound))
    else if s.events[e].organizerId != actor && !admin then (s, Failed(Forbidden))
    else if s.events[e].status == Canceled then (s, Failed(EventIsCanceled))
    else
      var confirmed := |ConfirmedIds(s.regs, e)|;
      var capacityError := if command.capacity.None? then None
                           else ValidateCapacityChange(command.capacity.value, confirmed);
      if capacityError.Some? then (s, Failed(capacityError.value)) else
      var event := Updated(s.events[e], command, now);
      var invalid := Validate(event, now);
      if invalid.Some? then (s, Failed(invalid.value)) else
      var s' := Store(s.events[e := event], s.regs, s.outbox + [EventMessage(message, EventUpdated, event, now)]);
      (s', DetailOf(s'.events, s'.regs, e))
  }

  function ReleaseAll(regs: Regs, e: Id, now: Time): Regs {
    map id | id in regs ::
      if regs[id].eventId == e && regs[id].Active() then regs[id].(status := Canceled, updatedAt := now) else regs[id]
  }

  function CancelEventStep(s: Store, e: Id, actor: Id, admin: bool, now: Time, message: Id): (Store, Outcome) {
    if e !in s.events then (s, Failed(NotFound))
    else if s.events[e].organizerId != actor && !admin then (s, Failed(Forbidden))
    else if s.events[e].status == Canceled then (s, DetailOf(s.events, s.regs, e))
    else
      var event := s.events[e].(status := Canceled, updatedAt := now);
      var s' := Store(s.events[e := event], ReleaseAll(s.regs, e, now),
                      s.outbox + [EventMessage(message, EventCanceled, event, now)]);
      (s', DetailOf(s'.events, s'.regs, e))
  }

  ghost function JoinStep(s: Store, e: Id, u: Id, key: string, now: Time, registration: Id, message: Id)
    : (Store, Outcome)
  {
    if e !in s.events then (s, Failed(NotFound))
    else if ActiveIds(s.regs, e, u) != {} then (s, Joined(s.regs[Pick(ActiveIds(s.regs, e, u))], true))
    else
      var decision := DecideJoinStatus(s.events[e], |ConfirmedIds(s.regs, e)|, now);
      if decision.Err? then (s, Failed(decision.error)) else
      var position := if decision.value == Waitlisted then NextPosition(s.regs, e) else 0;
      var reg := Registration(registration, e, u, decision.value, position, key, now, now);
      var routing := if decision.value == Waitlisted then JoinWaitlisted else JoinConfirmed;
      (Store(s.events, s.regs[registration := reg], s.outbox + [JoinMessage(message, routing, reg, Absent, now)]),
       Joined(reg, false))
  }

  /** Giving up registration `id`, before anyone is promoted. */
  function Release(repo: Repo, s: Store, id: Id, now: Time, message: Id): Store
    requires id in s.regs
  {
    var was := s.regs[id];
    var reg := was.(status := Canceled, updatedAt := now,
                    waitlistPosition := if repo.Postgres? then 0 else was.waitlistPosition);
    Store(s.events, s.regs[id := reg], s.outbox + [JoinMessage(message, JoinCanceled, reg, was.status, now)])
  }

  function Promote(s: Store, id: Id, now: Time, message: Id): Store
    requires id in s.regs
  {
    var reg := s.regs[id].(status := Confirmed, waitlistPosition := 0, updatedAt := now);
    Store(s.events, s.regs[id := reg], s.outbox + [JoinMessage(message, JoinPromoted, reg, Waitlisted, now)])
  }

  /** Cancelling the registration of user `u`; without an active one only a status is reported. */
  ghost function CancelStep(repo: Repo, s: Store, e: Id, u: Id, now: Time, message: Id, promotedMessage: Id)
    : (Store, Outcome)
  {
    if ActiveIds(s.regs, e, u) == {} then
      (s, JoinCancel(if UserIds(s.regs, e, u) == {} then NotJoined else Canceled, None, None, true))
    else
      var id := Pick(ActiveIds(s.regs, e, u));
      var s1 := Release(repo, s, id, now, message);
      if s.regs[id].status != Confirmed || WaitingIds(s1.regs, e) == {} then
        (s1, JoinCancel(Canceled, Some(s1.regs[id]), None, false))
      else
        var first := FirstWaiting(s1.regs, e);
        var s2 := Promote(s1, first, now, promotedMessage);
        (s2, JoinCancel(Canceled, Some(s1.regs[id]), Some(s2.regs[first]), false))
  }

  ghost function Step(repo: Repo, s: Store, op: Op): (Store, Outcome) {
    match op
    case Create(event, message) => CreateStep(s, event, message)
    case Update(e, actor, admin, command, now, message) => UpdateStep(s, e, actor, admin, command, now, message)
    case CancelEvent(e, actor, admin, now, message) => CancelEventStep(s, e, actor, admin, now, message)
    case Join(e, u, key, now, registration, message) => JoinStep(s, e, u, key, now, registration, message)
    case CancelJoin(e, u, now, message, promotedMessage) =>
      if e !in s.events then (s, Failed(NotFound)) else CancelStep(repo, s, e, u, now, message, promotedMessage)
    case CancelRegistration(e, actor, admin, u, now, message, promotedMessage) =>
      if e !in s.events then (s, Failed(NotFound))
      else if s.events[e].organizerId != actor && !admin then (s, Failed(Forbidden))
      else CancelStep(repo, s, e, u, now, message, promotedMessage)
  }

  // ---------------------------------------------------------------- runs

  const EMPTY := Store(map[], map[], [])

  ghost predicate UnusedMessage(s: Store, message: Id) {
    forall m | m in s.outbox :: m.messageId != message
  }

  /** New identifiers really are new, and an event to create has passed `NewEvent`. */
  ghost predicate Fresh(s: Store, op: Op) {
    && UnusedMessage(s, op.message)
    && (op.CancelJoin? || op.CancelRegistration? ==>
          UnusedMessage(s, op.promotedMessage) && op.promotedMessage != op.message)
    && (op.Join? ==> op.registration !in s.regs)
    && (op.Create? ==> op.event.id !in s.events && op.event.status == Published
                       && Validate(op.event, op.event.createdAt) == None)
  }

  ghost function Run(repo: Repo, ops: seq<Op>): Store {
    if ops == [] then EMPTY else Step(repo, Run(repo, ops[..|ops| - 1]), ops[|ops| - 1]).0
  }

  ghost predicate FreshRun(repo: Repo, ops: seq<Op>) {
    ops == [] || (FreshRun(repo, ops[..|ops| - 1]) && Fresh(Run(repo, ops[..|ops| - 1]), ops[|ops| - 1]))
  }
}
