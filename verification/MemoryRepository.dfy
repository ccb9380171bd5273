/** The mutex-guarded in-memory repository: each method is one critical section over the maps. */
module MemoryRepositories {
  import opened Collections
  import opened Messages
  import opened Registrations
  import opened RegistrationInvariants
  import opened JoinStatus

  /** The active registration of a user is the only one there is to find. */
  lemma ActiveIsUnique(regs: Regs, e: Id, u: Id, id: Id)
    requires OneActive(regs) && id in ActiveIds(regs, e, u)
    ensures id == Pick(ActiveIds(regs, e, u))
  {
    assert !Rivals(regs, id, Pick(ActiveIds(regs, e, u)));
  }

  /** So is the first in line. */
  lemma FirstIsTheOne(regs: Regs, e: Id, id: Id)
    requires Ranked(regs) && IsFirstWaiting(regs, e, id)
    ensures WaitingIds(regs, e) != {} && id == FirstWaiting(regs, e)
  {
    assert !SameNumber(regs, id, FirstWaiting(regs, e));
  }

  lemma OneFewerLeft<T>(s: set<T>, rest: set<T>, x: T)
    requires x in rest
    ensures |s - (rest - {x})| == |s - rest| + if x in s then 1 else 0
  {
    assert s - (rest - {x}) == if x in s then (s - rest) + {x} else s - rest;
  }

  class MemoryRepository {
    var events: Events
    var registrations: Regs
    var outbox: seq<Envelope>

    function State(): Store
      reads this
    {
      Store(events, registrations, outbox)
    }

    ghost predicate Valid()
      reads this
    {
      Inv(State())
    }

    constructor ()
      ensures Valid() && State() == EMPTY
    {
      events, registrations, outbox := map[], map[], [];
      new;
      EmptyIsFine();
    }

    method AddOutbox(m: Envelope)
      modifies this`outbox
      ensures outbox == old(outbox) + [m]
    {
      outbox := outbox + [m];
    }

    method CreateEvent(event: Event, message: Id) returns (result: Outcome)
      requires Valid() && Fresh(State(), Create(event, message))
      modifies this
      ensures (State(), result) == Step(InMemory, old(State()), Create(event, message))
      ensures Valid()
    {
      StepKeeps(InMemory, State(), Create(event, message));
      events := events[event.id := event];
      AddOutbox(EventMessage(message, EventPublished, event, event.createdAt));
      result := DetailLocked(event.id);
    }

    method UpdateEvent(e: Id, actor: Id, admin: bool, command: UpdateCommand, now: Time, message: Id)
      returns (result: Outcome)
      requires Valid() && Fresh(State(), Update(e, actor, admin, command, now, message))
      modifies this
      ensures (State(), result) == UpdateStep(old(State()), e, actor, admin, command, now, message)
      ensures Valid()
    {
      UpdateKeeps(State(), e, actor, admin, command, now, message);
      if e !in events {
        return Outcome.Failed(NotFound);
      }
      var event := events[e];
      if event.organizerId != actor && !admin {
        return Outcome.Failed(Forbidden);
      }
      if event.status == Canceled {
        return Outcome.Failed(EventIsCanceled);
      }
      var confirmed := ConfirmedCountLocked(e);
      var changed := ApplyCommand(event, command, confirmed, now);
      if changed.Err? {
        return Outcome.Failed(changed.error);
      }
      event := changed.value;
      events := events[e := event];
      AddOutbox(EventMessage(message, EventUpdated, event, now));
      result := DetailLocked(e);
    }

    /** The part of the update that works on its own copy of the event. */
    static method ApplyCommand(was: Event, command: UpdateCommand, confirmed: int, now: Time)
      returns (result: Result<Event>)
      ensures var capacityError := if command.capacity.None? then None
                                   else ValidateCapacityChange(command.capacity.value, confirmed);
              var event := Updated(was, command, now);
              result == if capacityError.Some? then Err(capacityError.value)
                        else if Validate(event, now).Some? then Err(Validate(event, now).value)
                        else Ok(event)
    {
      var event := was;
      if command.title.Some? { event := event.(title := command.title.value); }
      if command.description.Some? { event := event.(description := command.description.value); }
      if command.city.Some? { event := event.(city := command.city.value); }
      if command.venue.Some? { event := event.(venue := command.venue.value); }
      if command.startsAt.Some? { event := event.(startsAt := command.startsAt.value); }
      if command.capacity.Some? {
        var invalid := ValidateCapacityChange(command.capacity.value, confirmed);
        if invalid.Some? {
          return Err(invalid.value);
        }
        event := event.(capacity := command.capacity.value);
      }
      event := event.(updatedAt := now);
      assert event == Updated(was, command, now);
      var invalid := Validate(event, now);
      if invalid.Some? {
        return Err(invalid.value);
      }
      return Ok(event);
    }

    method CancelEvent(e: Id, actor: Id, admin: bool, now: Time, message: Id) returns (result: Outcome)
      requires Valid() && Fresh(State(), Op.CancelEvent(e, actor, admin, now, message))
      modifies this
      ensures (State(), result) == Step(InMemory, old(State()), Op.CancelEvent(e, actor, admin, now, message))
      ensures Valid()
    {
      StepKeeps(InMemory, State(), Op.CancelEvent(e, actor, admin, now, message));
      if e !in events {
        return Outcome.Failed(NotFound);
      }
      var event := events[e];
      if event.organizerId != actor && !admin {
        return Outcome.Failed(Forbidden);
      }
      if event.status == Canceled {
        result := DetailLocked(e);
        return;
      }
      event := event.(status := Canceled, updatedAt := now);
      events := events[e := event];
      ReleaseAllLocked(e, now);
      AddOutbox(EventMessage(message, Routing.EventCanceled, event, now));
      result := DetailLocked(e);
    }

    method ReleaseAllLocked(e: Id, now: Time)
      modifies this`registrations
      ensures registrations == ReleaseAll(old(registrations), e, now)
    {
      ghost var before := registrations;
      var rest := registrations.Keys;
      while rest != {}
        invariant rest <= registrations.Keys == before.Keys
        invariant forall id | id in rest :: registrations[id] == before[id]
        invariant forall id | id in before && id !in rest :: registrations[id] == ReleaseAll(before, e, now)[id]
        decreases |rest|
      {
        var id :| id in rest;
        rest := rest - {id};
        var reg := registrations[id];
        if reg.eventId == e && (reg.status == Confirmed || reg.status == Waitlisted) {
          registrations := registrations[id := reg.(status := Canceled, updatedAt := now)];
        }
      }
    }

    method JoinEvent(e: Id, u: Id, key: string, now: Time, registration: Id, message: Id) returns (result: Outcome)
      requires Valid() && Fresh(State(), Join(e, u, key, now, registration, message))
      modifies this
      ensures (State(), result) == Step(InMemory, old(State()), Join(e, u, key, now, registration, message))
      ensures Valid()
    {
      StepKeeps(InMemory, State(), Join(e, u, key, now, registration, message));
      if e !in events {
        return Outcome.Failed(NotFound);
      }
      var existing := ActiveRegistrationLocked(e, u);
      if existing.Some? {
        return Joined(existing.value, true);
      }
      var confirmed := ConfirmedCountLocked(e);
      var decision := DecideJoinStatus(events[e], confirmed, now);
      if decision.Err? {
        return Outcome.Failed(decision.error);
      }
      var reg := Registration(registration, e, u, decision.value, 0, key, now, now);
      if decision.value == Waitlisted {
        var position := NextWaitlistPositionLocked(e);
        reg := reg.(waitlistPosition := position);
      }
      registrations := registrations[reg.id := reg];
      var routing := JoinConfirmed;
      if decision.value == Waitlisted {
        routing := JoinWaitlisted;
      }
      AddOutbox(JoinMessage(message, routing, reg, Absent, now));
      return Joined(reg, false);
    }

    method CancelJoin(e: Id, u: Id, now: Time, message: Id, promotedMessage: Id) returns (result: Outcome)
      requires Valid() && Fresh(State(), Op.CancelJoin(e, u, now, message, promotedMessage))
      modifies this
      ensures (State(), result) == Step(InMemory, old(State()), Op.CancelJoin(e, u, now, message, promotedMessage))
      ensures Valid()
    {
      StepKeeps(InMemory, State(), Op.CancelJoin(e, u, now, message, promotedMessage));
      if e !in events {
        return Outcome.Failed(NotFound);
      }
      result := CancelRegistrationLocked(e, u, now, message, promotedMessage);
    }

    method CancelRegistration(e: Id, actor: Id, admin: bool, u: Id, now: Time, message: Id, promotedMessage: Id)
      returns (result: Outcome)
      requires Valid() && Fresh(State(), Op.CancelRegistration(e, actor, admin, u, now, message, promotedMessage))
      modifies this
      ensures (State(), result)
           == Step(InMemory, old(State()), Op.CancelRegistration(e, actor, admin, u, now, message, promotedMessage))
      ensures Valid()
    {
      StepKeeps(InMemory, State(), Op.CancelRegistration(e, actor, admin, u, now, message, promotedMessage));
      if e !in events {
        return Outcome.Failed(NotFound);
      }
      if events[e].organizerId != actor && !admin {
        return Outcome.Failed(Forbidden);
      }
      result := CancelRegistrationLocked(e, u, now, message, promotedMessage);
    }

    method CancelRegistrationLocked(e: Id, u: Id, now: Time, message: Id, promotedMessage: Id) returns (result: Outcome)
      requires Valid()
      modifies this
      ensures (State(), result) == CancelStep(InMemory, old(State()), e, u, now, message, promotedMessage)
    {
      var active := ActiveRegistrationLocked(e, u);
      if active.None? {
        var status := LatestStatusLocked(e, u);
        InactiveReport(registrations, e, u, status);
        return JoinCancel(status, None, None, true);
      }
      var reg := active.value;
      var oldStatus := reg.status;
      reg := reg.(status := Canceled, updatedAt := now);
      ReleaseKeeps(InMemory, State(), reg.id, now, message);
      registrations := registrations[reg.id := reg];
      AddOutbox(JoinMessage(message, JoinCanceled, reg, oldStatus, now));
      assert State() == Release(InMemory, old(State()), reg.id, now, message);
      result := JoinCancel(Canceled, Some(reg), None, false);
      if oldStatus == Confirmed {
        var first := FirstWaitlistedLocked(e);
        if first.Some? {
          ghost var released := State();
          var promoted := first.value.(status := Confirmed, waitlistPosition := 0, updatedAt := now);
          registrations := registrations[promoted.id := promoted];
          AddOutbox(JoinMessage(promotedMessage, JoinPromoted, promoted, Waitlisted, now));
          assert State() == Promote(released, promoted.id, now, promotedMessage);
          result := result.(promoted := Some(promoted));
        }
      }
    }

    method GetJoinStatus(e: Id, u: Id) returns (result: Result<Status>)
      ensures e !in events ==> result == Err(NotFound)
      ensures e in events ==> result.Ok? && MemoryReports(registrations, e, u, result.value)
    {
      if e !in events {
        return Err(NotFound);
      }
      var status := LatestStatusLocked(e, u);
      return Ok(status);
    }

    method DetailLocked(e: Id) returns (detail: Outcome)
      requires e in events
      ensures detail == DetailOf(events, registrations, e)
    {
      var confirmed := ConfirmedCountLocked(e);
      return Detail(events[e], confirmed);
    }

    method ConfirmedCountLocked(e: Id) returns (count: nat)
      ensures count == |ConfirmedIds(registrations, e)|
    {
      count := 0;
      ghost var confirmed := ConfirmedIds(registrations, e);
      var rest := registrations.Keys;
      while rest != {}
        invariant rest <= registrations.Keys
        invariant count == |confirmed - rest|
        decreases |rest|
      {
        var id :| id in rest;
        OneFewerLeft(confirmed, rest, id);
        rest := rest - {id};
        if registrations[id].eventId == e && registrations[id].status == Confirmed {
          count := count + 1;
        }
      }
      assert confirmed - rest == confirmed;
    }

    method ActiveRegistrationLocked(e: Id, u: Id) returns (found: Option<Registration>)
      requires Valid()
      ensures found.None? <==> ActiveIds(registrations, e, u) == {}
      ensures found.Some? ==> found.value == registrations[Pick(ActiveIds(registrations, e, u))]
                              && found.value.id == Pick(ActiveIds(registrations, e, u))
    {
      var rest := registrations.Keys;
      while rest != {}
        invariant rest <= registrations.Keys
        invariant ActiveIds(registrations, e, u) <= rest
        decreases |rest|
      {
        var id :| id in rest;
        rest := rest - {id};
        var reg := registrations[id];
        if reg.eventId == e && reg.userId == u && (reg.status == Confirmed || reg.status == Waitlisted) {
          ActiveIsUnique(registrations, e, u, id);
          return Some(reg);
        }
      }
      return None;
    }

    method LatestStatusLocked(e: Id, u: Id) returns (status: Status)
      ensures MemoryReports(registrations, e, u, status)
    {
      var latest: Option<Registration> := None;
      var rest := registrations.Keys;
      ghost var last: Id := "";
      while rest != {}
        invariant rest <= registrations.Keys
        invariant latest.None? ==> UserIds(registrations, e, u) <= rest
        invariant latest.Some? ==> last in UserIds(registrations, e, u) && latest.value == registrations[last]
        invariant latest.Some? ==>
                    forall x | x in UserIds(registrations, e, u) && x !in rest ::
                      registrations[x].updatedAt <= latest.value.updatedAt
        decreases |rest|
      {
        var id :| id in rest;
        rest := rest - {id};
        var reg := registrations[id];
        if reg.eventId == e && reg.userId == u {
          if latest.None? || reg.updatedAt > latest.value.updatedAt {
            latest := Some(reg);
            last := id;
          }
        }
      }
      if latest.None? {
        return NotJoined;
      }
      return latest.value.status;
    }

    method NextWaitlistPositionLocked(e: Id) returns (position: int)
      ensures position == NextPosition(registrations, e)
    {
      var maxPosition := 0;
      var rest := registrations.Keys;
      while rest != {}
        invariant rest <= registrations.Keys
        invariant maxPosition == 0 || (maxPosition > 0 && maxPosition in PositionsUsed(registrations, e))
        invariant forall id | id in EventIds(registrations, e) && id !in rest ::
                    registrations[id].waitlistPosition <= maxPosition
        decreases |rest|
      {
        var id :| id in rest;
        rest := rest - {id};
        var reg := registrations[id];
        if reg.eventId == e && reg.waitlistPosition > maxPosition {
          assert id in EventIds(registrations, e);
          maxPosition := reg.waitlistPosition;
        }
      }
      assert forall p | p in PositionsUsed(registrations, e) :: p <= maxPosition;
      return maxPosition + 1;
    }

    /** One pass for the least number stands for sorting the waiting rows and taking the first. */
    method FirstWaitlistedLocked(e: Id) returns (found: Option<Registration>)
      requires RowsOk(State()) && Ranked(registrations)
      ensures found.None? <==> WaitingIds(registrations, e) == {}
      ensures found.Some? ==> found.value == registrations[FirstWaiting(registrations, e)]
                              && found.value.id == FirstWaiting(registrations, e)
    {
      found := None;
      var rest := registrations.Keys;
      while rest != {}
        invariant rest <= registrations.Keys
        invariant found.None? ==> WaitingIds(registrations, e) <= rest
        invariant found.Some? ==> found.value.id in WaitingIds(registrations, e)
                                  && found.value == registrations[found.value.id]
        invariant found.Some? ==>
                    forall x | x in WaitingIds(registrations, e) && x !in rest ::
                      found.value.waitlistPosition <= registrations[x].waitlistPosition
        decreases |rest|
      {
        var id :| id in rest;
        rest := rest - {id};
        var reg := registrations[id];
        if reg.eventId == e && reg.status == Waitlisted {
          if found.None? || reg.waitlistPosition < found.value.waitlistPosition
             || (reg.waitlistPosition == found.value.waitlistPosition && reg.createdAt < found.value.createdAt) {
            found := Some(reg);
          }
        }
      }
      if found.Some? {
        FirstIsTheOne(registrations, e, found.value.id);
      }
    }
  }
}
