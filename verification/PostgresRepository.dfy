/**
 * The PostgreSQL repository: each method is one committed transaction over the tables, holding the event row.
 * A NULL waitlist number reads as 0. A transaction that fails leaves the tables as they were and is no step.
 */
module PostgresRepositories {
  import opened Collections
  import opened Messages
  import opened Registrations
  import opened RegistrationInvariants
  import opened JoinStatus
  import opened MemoryRepositories

  class PostgresRepository {
    var events: Events
    var eventRegistrations: Regs
    var outboxMessages: seq<Envelope>

    function State(): Store
      reads this
    {
      Store(events, eventRegistrations, outboxMessages)
    }

    ghost predicate Valid()
      reads this
    {
      Inv(State())
    }

    constructor ()
      ensures Valid() && State() == EMPTY
    {
      events, eventRegistrations, outboxMessages := map[], map[], [];
      new;
      EmptyIsFine();
    }

    method InsertOutbox(m: Envelope)
      modifies this`outboxMessages
      ensures outboxMessages == old(outboxMessages) + [m]
    {
      outboxMessages := outboxMessages + [m];
    }

    method CreateEvent(event: Event, message: Id) returns (result: Outcome)
      requires Valid() && Fresh(State(), Create(event, message))
      modifies this
      ensures (State(), result) == Step(Postgres, old(State()), Create(event, message))
      ensures Valid()
    {
      StepKeeps(Postgres, State(), Create(event, message));
      events := events[event.id := event];
      InsertOutbox(EventMessage(message, EventPublished, event, event.createdAt));
      result := DetailOf(events, eventRegistrations, event.id);
    }

    method UpdateEvent(e: Id, actor: Id, admin: bool, command: UpdateCommand, now: Time, message: Id)
      returns (result: Outcome)
      requires Valid() && Fresh(State(), Update(e, actor, admin, command, now, message))
      modifies this
      ensures (State(), result) == UpdateStep(old(State()), e, actor, admin, command, now, message)
      ensures Valid()
    {
      UpdateKeeps(State(), e, actor, admin, command, now, message);
      if e !in events {
        return Outcome.Failed(NotFound);
      }
      var event := events[e];
      if event.organizerId != actor && !admin {
        return Outcome.Failed(Forbidden);
      }
      if event.status == Canceled {
        return Outcome.Failed(EventIsCanceled);
      }
      var changed := MemoryRepository.ApplyCommand(event, command, |ConfirmedIds(eventRegistrations, e)|, now);
      if changed.Err? {
        return Outcome.Failed(changed.error);
      }
      event := changed.value;
      events := events[e := event];
      InsertOutbox(EventMessage(message, EventUpdated, event, now));
      result := DetailOf(events, eventRegistrations, e);
    }

    method CancelEvent(e: Id, actor: Id, admin: bool, now: Time, message: Id) returns (result: Outcome)
      requires Valid() && Fresh(State(), Op.CancelEvent(e, actor, admin, now, message))
      modifies this
      ensures (State(), result) == Step(Postgres, old(State()), Op.CancelEvent(e, actor, admin, now, message))
      ensures Valid()
    {
      StepKeeps(Postgres, State(), Op.CancelEvent(e, actor, admin, now, message));
      if e !in events {
        return Outcome.Failed(NotFound);
      }
      var event := events[e];
      if event.organizerId != actor && !admin {
        return Outcome.Failed(Forbidden);
      }
      if event.status != Canceled {
        event := event.(status := Canceled, updatedAt := now);
        events := events[e := event];
        eventRegistrations := ReleaseAll(eventRegistrations, e, now);
        InsertOutbox(EventMessage(message, Routing.EventCanceled, event, now));
      }
      result := DetailOf(events, eventRegistrations, e);
    }

    method JoinEvent(e: Id, u: Id, key: string, now: Time, registration: Id, message: Id) returns (result: Outcome)
      requires Valid() && Fresh(State(), Join(e, u, key, now, registration, message))
      modifies this
      ensures (State(), result) == Step(Postgres, old(State()), Join(e, u, key, now, registration, message))
      ensures Valid()
    {
      StepKeeps(Postgres, State(), Join(e, u, key, now, registration, message));
      if e !in events {
        return Outcome.Failed(NotFound);
      }
      var existing := ActiveRegistrationTx(e, u);
      if existing.Some? {
        return Joined(existing.value, true);
      }
      var decision := DecideJoinStatus(events[e], |ConfirmedIds(eventRegistrations, e)|, now);
      if decision.Err? {
        return Outcome.Failed(decision.error);
      }
      var reg := Registration(registration, e, u, decision.value, 0, key, now, now);
      if decision.value == Waitlisted {
        var position := NextWaitlistPositionTx(e);
        reg := reg.(waitlistPosition := position);
      }
      eventRegistrations := eventRegistrations[reg.id := reg];
      var routing := JoinConfirmed;
      if decision.value == Waitlisted {
        routing := JoinWaitlisted;
      }
      InsertOutbox(JoinMessage(message, routing, reg, Absent, now));
      return Joined(reg, false);
    }

    method CancelJoin(e: Id, u: Id, now: Time, message: Id, promotedMessage: Id) returns (result: Outcome)
      requires Valid() && Fresh(State(), Op.CancelJoin(e, u, now, message, promotedMessage))
      modifies this
      ensures (State(), result) == Step(Postgres, old(State()), Op.CancelJoin(e, u, now, message, promotedMessage))
      ensures Valid()
    {
      StepKeeps(Postgres, State(), Op.CancelJoin(e, u, now, message, promotedMessage));
      if e !in events {
        return Outcome.Failed(NotFound);
      }
      result := CancelRegistrationTx(e, u, now, message, promotedMessage);
    }

    method CancelRegistration(e: Id, actor: Id, admin: bool, u: Id, now: Time, message: Id, promotedMessage: Id)
      returns (result: Outcome)
      requires Valid() && Fresh(State(), Op.CancelRegistration(e, actor, admin, u, now, message, promotedMessage))
      modifies this
      ensures (State(), result)
           == Step(Postgres, old(State()), Op.CancelRegistration(e, actor, admin, u, now, message, promotedMessage))
      ensures Valid()
    {
      StepKeeps(Postgres, State(), Op.CancelRegistration(e, actor, admin, u, now, message, promotedMessage));
      if e !in events {
        return Outcome.Failed(NotFound);
      }
      if events[e].organizerId != actor && !admin {
        return Outcome.Failed(Forbidden);
      }
      result := CancelRegistrationTx(e, u, now, message, promotedMessage);
    }

    method CancelRegistrationTx(e: Id, u: Id, now: Time, message: Id, promotedMessage: Id) returns (result: Outcome)
      requires Valid()
      modifies this
      ensures (State(), result) == CancelStep(Postgres, old(State()), e, u, now, message, promotedMessage)
    {
      var active := ActiveRegistrationTx(e, u);
      if active.None? {
        var status := LatestStatusTx(e, u);
        InactiveReport(eventRegistrations, e, u, status);
        return JoinCancel(status, None, None, true);
      }
      var reg := active.value;
      var oldStatus := reg.status;
      reg := reg.(status := Canceled, updatedAt := now, waitlistPosition := 0);
      ReleaseKeeps(Postgres, State(), reg.id, now, message);
      eventRegistrations := eventRegistrations[reg.id := reg];
      InsertOutbox(JoinMessage(message, JoinCanceled, reg, oldStatus, now));
      assert State() == Release(Postgres, old(State()), reg.id, now, message);
      result := JoinCancel(Canceled, Some(reg), None, false);
      if oldStatus == Confirmed {
        var first := FirstWaitlistedTx(e);
        if first.Some? {
          ghost var released := State();
          var promoted := first.value.(status := Confirmed, waitlistPosition := 0, updatedAt := now);
          eventRegistrations := eventRegistrations[promoted.id := promoted];
          InsertOutbox(JoinMessage(promotedMessage, JoinPromoted, promoted, Waitlisted, now));
          assert State() == Promote(released, promoted.id, now, promotedMessage);
          result := result.(promoted := Some(promoted));
        }
      }
    }

    method GetJoinStatus(e: Id, u: Id) returns (result: Result<Status>)
      ensures e !in events ==> result == Err(NotFound)
      ensures e in events ==> result.Ok? && PostgresReports(eventRegistrations, e, u, result.value)
    {
      if e !in events {
        return Err(NotFound);
      }
      var status := LatestStatusTx(e, u);
      return Ok(status);
    }

    method ActiveRegistrationTx(e: Id, u: Id) returns (found: Option<Registration>)
      requires Valid()
      ensures found.None? <==> ActiveIds(eventRegistrations, e, u) == {}
      ensures found.Some? ==> found.value == eventRegistrations[Pick(ActiveIds(eventRegistrations, e, u))]
                              && found.value.id == Pick(ActiveIds(eventRegistrations, e, u))
    {
      var rows := ActiveIds(eventRegistrations, e, u);
      if rows == {} {
        return None;
      }
      ghost var regs := eventRegistrations;
      LeastExists(rows, (id: Id) => if id in regs then regs[id].createdAt else 0);
      var id :| id in rows
                && forall x | x in rows :: eventRegistrations[id].createdAt <= eventRegistrations[x].createdAt;
      ActiveIsUnique(eventRegistrations, e, u, id);
      return Some(eventRegistrations[id]);
    }

    method LatestStatusTx(e: Id, u: Id) returns (status: Status)
      ensures PostgresReports(eventRegistrations, e, u, status)
    {
      var rows := UserIds(eventRegistrations, e, u);
      if rows == {} {
        return NotJoined;
      }
      LastRowExists(eventRegistrations, rows);
      var id :| id in rows && IsLast(eventRegistrations, rows, id);
      return eventRegistrations[id].status;
    }

    method NextWaitlistPositionTx(e: Id) returns (position: int)
      requires RowsOk(State())
      ensures position == NextPosition(eventRegistrations, e)
    {
      var used := set id | id in EventIds(eventRegistrations, e) :: eventRegistrations[id].waitlistPosition;
      assert used == PositionsUsed(eventRegistrations, e);
      if used == {} {
        return 1;
      }
      ghost var largest := MaxOrZero(used);
      assert forall p | p in used :: 0 <= p <= largest;
      assert largest in used by {
        assert Pick(used) in used;
      }
      var max :| max in used && forall p | p in used :: p <= max;
      return max + 1;
    }

    method FirstWaitlistedTx(e: Id) returns (found: Option<Registration>)
      requires RowsOk(State()) && Ranked(eventRegistrations)
      ensures found.None? <==> WaitingIds(eventRegistrations, e) == {}
      ensures found.Some? ==> found.value == eventRegistrations[FirstWaiting(eventRegistrations, e)]
                              && found.value.id == FirstWaiting(eventRegistrations, e)
    {
      var rows := WaitingIds(eventRegistrations, e);
      if rows == {} {
        return None;
      }
      ghost var first := FirstWaiting(eventRegistrations, e);
      var id :| id in rows && forall x | x in rows ::
        eventRegistrations[id].waitlistPosition <= eventRegistrations[x].waitlistPosition;
      FirstIsTheOne(eventRegistrations, e, id);
      return Some(eventRegistrations[id]);
    }
  }
}
