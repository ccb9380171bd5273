/** The shortest story with a cancellation: a published event, a user who joins, leaves, and perhaps comes back. */
module Visits {
  import opened Collections
  import opened Messages
  import opened Registrations
  import opened RegistrationTheorems
  import opened JoinStatus
  import opened Pipeline

  /** A published event, a user who joins and leaves, and the identifiers used on the way. */
  datatype Visit = Visit(event: Event, user: Id, joinAt: Time, leaveAt: Time, registration: Id,
                         published: Id, joined: Id, left: Id, promoted: Id)

  predicate Plausible(v: Visit) {
    && v.event.status == Status.Published && Validate(v.event, v.event.createdAt) == None
    && ZERO_TIME < v.event.createdAt < v.joinAt < v.event.startsAt && v.event.createdAt < v.leaveAt
    && !Blank(v.event.id) && v.registration != ""
    && v.published != "" && v.joined != "" && v.left != "" && v.promoted != ""
    && v.published != v.joined && v.published != v.left && v.joined != v.left
    && v.promoted != v.published && v.promoted != v.joined && v.promoted != v.left
  }

  function Ops(v: Visit): seq<Op> {
    [Create(v.event, v.published), Join(v.event.id, v.user, "", v.joinAt, v.registration, v.joined),
     Op.CancelJoin(v.event.id, v.user, v.leaveAt, v.left, v.promoted)]
  }

  function Seat(v: Visit, status: Status, updatedAt: Time): Registration {
    Registration(v.registration, v.event.id, v.user, status, 0, "", v.joinAt, updatedAt)
  }

  function EventOut(v: Visit): Envelope { EventMessage(v.published, EventPublished, v.event, v.event.createdAt) }

  function JoinOut(v: Visit): Envelope {
    JoinMessage(v.joined, JoinConfirmed, Seat(v, Confirmed, v.joinAt), Absent, v.joinAt)
  }

  function LeaveOut(v: Visit): Envelope {
    JoinMessage(v.left, JoinCanceled, Seat(v, Status.Canceled, v.leaveAt), Confirmed, v.leaveAt)
  }

  lemma CreateRuns(repo: Repo, v: Visit)
    requires Plausible(v)
    ensures FreshRun(repo, Ops(v)[..1])
    ensures Run(repo, Ops(v)[..1]) == Store(map[v.event.id := v.event], map[], [EventOut(v)])
  {
    RunExtends(repo, [], Ops(v)[0]);
    assert [] + [Ops(v)[0]] == Ops(v)[..1];
  }

  lemma FreeSeatIsTaken(repo: Repo, s: Store, e: Id, u: Id, now: Time, registration: Id, message: Id)
    requires e in s.events && s.events[e].status == Status.Published && now < s.events[e].startsAt
             && s.events[e].capacity > 0
    requires ActiveIds(s.regs, e, u) == {} && ConfirmedIds(s.regs, e) == {}
    ensures var reg := Registration(registration, e, u, Confirmed, 0, "", now, now);
            Step(repo, s, Join(e, u, "", now, registration, message)).0
            == Store(s.events, s.regs[registration := reg],
                     s.outbox + [JoinMessage(message, JoinConfirmed, reg, Absent, now)])
  {
  }

  lemma LastOneLeaves(repo: Repo, s: Store, e: Id, u: Id, id: Id, now: Time, message: Id, promotedMessage: Id)
    requires e in s.events && ActiveIds(s.regs, e, u) == {id}
    requires WaitingIds(Release(repo, s, id, now, message).regs, e) == {}
    ensures Step(repo, s, Op.CancelJoin(e, u, now, message, promotedMessage)).0 == Release(repo, s, id, now, message)
  {
  }

  lemma JoinRuns(repo: Repo, v: Visit)
    requires Plausible(v)
    ensures FreshRun(repo, Ops(v)[..2])
    ensures Run(repo, Ops(v)[..2])
         == Store(map[v.event.id := v.event], map[v.registration := Seat(v, Confirmed, v.joinAt)],
             [EventOut(v), JoinOut(v)])
  {
    CreateRuns(repo, v);
    var s1 := Run(repo, Ops(v)[..1]);
    assert ConfirmedIds(s1.regs, v.event.id) == {} && ActiveIds(s1.regs, v.event.id, v.user) == {};
    FreeSeatIsTaken(repo, s1, v.event.id, v.user, v.joinAt, v.registration, v.joined);
    RunExtends(repo, Ops(v)[..1], Ops(v)[1]);
    assert Ops(v)[..1] + [Ops(v)[1]] == Ops(v)[..2];
  }

  lemma LeaveRuns(repo: Repo, v: Visit)
    requires Plausible(v)
    ensures FreshRun(repo, Ops(v))
    ensures Run(repo, Ops(v))
         == Store(map[v.event.id := v.event], map[v.registration := Seat(v, Status.Canceled, v.leaveAt)],
                  [EventOut(v), JoinOut(v), LeaveOut(v)])
  {
    var ops := Ops(v);
    var s2 := Run(repo, ops[..2]);
    JoinRuns(repo, v);
    assert ActiveIds(s2.regs, v.event.id, v.user) == {v.registration};
    assert WaitingIds(Release(repo, s2, v.registration, v.leaveAt, v.left).regs, v.event.id) == {};
    LastOneLeaves(repo, s2, v.event.id, v.user, v.registration, v.leaveAt, v.left, v.promoted);
    RunExtends(repo, ops[..2], ops[2]);
    assert ops[..2] + [ops[2]] == ops;
  }

  /** The visit is a run of either repository; afterwards nobody holds a seat. */
  lemma VisitRuns(repo: Repo, v: Visit)
    requires Plausible(v)
    ensures FreshRun(repo, Ops(v)) && forall op | op in Ops(v) :: WellNamed(op)
    ensures Run(repo, Ops(v)).outbox == [EventOut(v), JoinOut(v), LeaveOut(v)]
    ensures TrueCount(Run(repo, Ops(v)), v.event.id) == 0
  {
    LeaveRuns(repo, v);
    assert ConfirmedIds(Run(repo, Ops(v)).regs, v.event.id) == {};
  }

  // ---------------------------------------------------------------- the organizer cancels instead

  /** Instead of the user leaving, the organizer cancels the event. */
  function Cancellation(v: Visit): Op {
    Op.CancelEvent(v.event.id, v.event.organizerId, false, v.leaveAt, v.left)
  }

  lemma CancellationRuns(repo: Repo, v: Visit)
    requires Plausible(v)
    ensures var ops := Ops(v)[..2];
            && Cancels(Run(repo, ops), Cancellation(v), v.event.id) && FreshRun(repo, ops + [Cancellation(v)])
            && TrueCount(Run(repo, ops), v.event.id) == 1
            && forall op | op in ops + [Cancellation(v)] :: WellNamed(op)
  {
    JoinRuns(repo, v);
    var s := Run(repo, Ops(v)[..2]);
    assert ConfirmedIds(s.regs, v.event.id) == {v.registration};
    RunExtends(repo, Ops(v)[..2], Cancellation(v));
  }

  /** The event is cancelled before anybody joined. */
  lemma EarlyCancellationRuns(repo: Repo, v: Visit)
    requires Plausible(v)
    ensures var ops := Ops(v)[..1] + [Cancellation(v)];
            var canceled := v.event.(status := Status.Canceled, updatedAt := v.leaveAt);
            && FreshRun(repo, ops) && Run(repo, ops).events == map[v.event.id := canceled]
            && Run(repo, ops).outbox == [EventOut(v), EventMessage(v.left, EventCanceled, canceled, v.leaveAt)]
  {
    CreateRuns(repo, v);
    RunExtends(repo, Ops(v)[..1], Cancellation(v));
  }

  // ---------------------------------------------------------------- coming back at once

  /** The user joins once more, at a time the service read as `at`. */
  function Rejoin(v: Visit, at: Time, again: Id, message: Id): Op {
    Join(v.event.id, v.user, "", at, again, message)
  }

  lemma RejoinRuns(repo: Repo, v: Visit, at: Time, again: Id, message: Id)
    requires Plausible(v) && at < v.event.startsAt && again != v.registration
    requires message != v.published && message != v.joined && message != v.left
    ensures FreshRun(repo, Ops(v) + [Rejoin(v, at, again, message)])
    ensures Run(repo, Ops(v) + [Rejoin(v, at, again, message)]).regs
         == map[v.registration := Seat(v, Status.Canceled, v.leaveAt),
                again := Registration(again, v.event.id, v.user, Confirmed, 0, "", at, at)]
  {
    LeaveRuns(repo, v);
    var s := Run(repo, Ops(v));
    assert ConfirmedIds(s.regs, v.event.id) == {} && ActiveIds(s.regs, v.event.id, v.user) == {};
    FreeSeatIsTaken(repo, s, v.event.id, v.user, at, again, message);
    RunExtends(repo, Ops(v), Rejoin(v, at, again, message));
  }

  /** A cancelled row `a` and an active row `b` of one user. */
  predicate CanceledAndActive(regs: Regs, e: Id, u: Id, a: Id, b: Id) {
    && regs.Keys == {a, b} && a != b
    && regs[a].eventId == regs[b].eventId == e && regs[a].userId == regs[b].userId == u
    && regs[a].status == Status.Canceled && regs[b].status == Confirmed
  }

  /** Both updated at the same time, the active one created later. */
  lemma TiedRowsConfuse(regs: Regs, e: Id, u: Id, a: Id, b: Id)
    requires CanceledAndActive(regs, e, u, a, b)
    requires regs[a].updatedAt == regs[b].updatedAt && regs[a].createdAt < regs[b].createdAt
    ensures ExpectedStatus(regs, e, u) == Confirmed
    ensures MemoryReports(regs, e, u, Confirmed) && MemoryReports(regs, e, u, Status.Canceled)
    ensures !PostgresReports(regs, e, u, Status.Canceled)
  {
    assert UserIds(regs, e, u) == {a, b};
    assert ActiveIds(regs, e, u) == {b};
  }

  /** The cancelled one updated later. */
  lemma ReversedRowsConfuse(regs: Regs, e: Id, u: Id, a: Id, b: Id, status: Status)
    requires CanceledAndActive(regs, e, u, a, b) && regs[b].updatedAt < regs[a].updatedAt
    ensures ExpectedStatus(regs, e, u) == Confirmed
    ensures MemoryReports(regs, e, u, status) <==> status == Status.Canceled
    ensures PostgresReports(regs, e, u, status) <==> status == Status.Canceled
  {
    assert UserIds(regs, e, u) == {a, b};
    assert ActiveIds(regs, e, u) == {b};
  }

  /**
   * A user leaves and joins again at the same instant. In memory both statuses may be reported, CONFIRMED being
   * right; PostgreSQL is certain as long as the first registration was created earlier.
   */
  lemma TiedRejoinConfusesMemory(repo: Repo, v: Visit, again: Id, message: Id)
    requires Plausible(v) && v.joinAt < v.leaveAt < v.event.startsAt && again != v.registration
    requires message != v.published && message != v.joined && message != v.left
    ensures FreshRun(repo, Ops(v) + [Rejoin(v, v.leaveAt, again, message)])
    ensures var regs := Run(repo, Ops(v) + [Rejoin(v, v.leaveAt, again, message)]).regs;
            && ExpectedStatus(regs, v.event.id, v.user) == Confirmed
            && MemoryReports(regs, v.event.id, v.user, Confirmed)
            && MemoryReports(regs, v.event.id, v.user, Status.Canceled)
            && !PostgresReports(regs, v.event.id, v.user, Status.Canceled)
  {
    RejoinRuns(repo, v, v.leaveAt, again, message);
    var regs := Run(repo, Ops(v) + [Rejoin(v, v.leaveAt, again, message)]).regs;
    TiedRowsConfuse(regs, v.event.id, v.user, v.registration, again);
  }

  /** With clock readings in the wrong order both repositories report CANCELED to a user who holds a seat. */
  lemma ReversedRejoinConfusesBoth(repo: Repo, v: Visit, at: Time, again: Id, message: Id, status: Status)
    requires Plausible(v) && at < v.leaveAt && at < v.event.startsAt && again != v.registration
    requires message != v.published && message != v.joined && message != v.left
    ensures FreshRun(repo, Ops(v) + [Rejoin(v, at, again, message)])
    ensures var regs := Run(repo, Ops(v) + [Rejoin(v, at, again, message)]).regs;
            && ExpectedStatus(regs, v.event.id, v.user) == Confirmed
            && (MemoryReports(regs, v.event.id, v.user, status) <==> status == Status.Canceled)
            && (PostgresReports(regs, v.event.id, v.user, status) <==> status == Status.Canceled)
  {
    RejoinRuns(repo, v, at, again, message);
    var regs := Run(repo, Ops(v) + [Rejoin(v, at, again, message)]).regs;
    ReversedRowsConfuse(regs, v.event.id, v.user, v.registration, again, status);
  }
}
