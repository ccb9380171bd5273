/** What every registration operation of either repository keeps, and what then holds in every run. */
module RegistrationInvariants {
  import opened Collections
  import opened Messages
  import opened JoinLog
  import opened Registrations

  // ---------------------------------------------------------------- the invariant

  ghost predicate RowsOk(s: Store) {
    && (forall e | e in s.events :: s.events[e].id == e && s.events[e].status in {Published, Canceled})
    && (forall id | id in s.regs ::
          && s.regs[id].id == id
          && s.regs[id].eventId in s.events
          && s.regs[id].waitlistPosition >= 0
          && s.regs[id].status in {Confirmed, Waitlisted, Canceled})
  }

  /** Two active registrations of one user for one event. */
  predicate Rivals(regs: Regs, a: Id, b: Id)
    requires a in regs && b in regs
  {
    && a != b && regs[a].Active() && regs[b].Active()
    && regs[a].eventId == regs[b].eventId && regs[a].userId == regs[b].userId
  }

  /** A user holds at most one active registration per event. */
  ghost predicate OneActive(regs: Regs) {
    forall a, b {:trigger Rivals(regs, a, b)} | a in regs && b in regs :: !Rivals(regs, a, b)
  }

  predicate IsWaiting(regs: Regs, a: Id)
    requires a in regs
  {
    regs[a].status == Waitlisted
  }

  predicate SameNumber(regs: Regs, a: Id, b: Id)
    requires a in regs && b in regs
  {
    && a != b && IsWaiting(regs, a) && IsWaiting(regs, b)
    && regs[a].eventId == regs[b].eventId && regs[a].waitlistPosition == regs[b].waitlistPosition
  }

  /** Waiting registrations of an event carry positive, distinct numbers. */
  ghost predicate Ranked(regs: Regs) {
    && (forall a {:trigger IsWaiting(regs, a)} | a in regs && IsWaiting(regs, a) :: regs[a].waitlistPosition > 0)
    && (forall a, b {:trigger SameNumber(regs, a, b)} | a in regs && b in regs :: !SameNumber(regs, a, b))
  }

  ghost predicate WithinCapacity(s: Store) {
    forall e | e in s.events :: |ConfirmedIds(s.regs, e)| <= s.events[e].capacity && s.events[e].capacity > 0
  }

  ghost predicate CanceledIsEmpty(s: Store) {
    forall id | id in s.regs && s.regs[id].Active() && s.regs[id].eventId in s.events ::
      s.events[s.regs[id].eventId].status == Published
  }

  predicate Live(s: Store, e: Id) { e in s.events ==> s.events[e].status == Published }

  /** The outbox accounts for every confirmed seat of an event that is not cancelled. */
  ghost predicate Conserved(s: Store) {
    forall e: Id | Live(s, e) :: DeltaSum(s.outbox, e) == |ConfirmedIds(s.regs, e)|
  }

  function LifeOf(reg: Registration): Life {
    if reg.status == Confirmed then Holding(reg.eventId)
    else if reg.status == Waitlisted then Waiting(reg.eventId)
    else Released(reg.eventId)
  }

  /** The messages of a registration trace its life, up to its present status while its event lives. */
  ghost predicate Traced(s: Store, r: Id) {
    var life := Lifecycle(LogOf(s.outbox, r));
    if r !in s.regs then LogOf(s.outbox, r) == []
    else if Live(s, s.regs[r].eventId) then life == LifeOf(s.regs[r])
    else life in {Waiting(s.regs[r].eventId), Holding(s.regs[r].eventId), Released(s.regs[r].eventId)}
  }

  ghost predicate Inv(s: Store) {
    && RowsOk(s)
    && OneActive(s.regs)
    && Ranked(s.regs)
    && WithinCapacity(s)
    && CanceledIsEmpty(s)
    && Conserved(s)
    && forall r: Id :: Traced(s, r)
  }

  // ---------------------------------------------------------------- the steps keep it

  /** An event message changes no registration log and no sum. */
  lemma EventMessageIsSilent(outbox: seq<Envelope>, m: Envelope)
    requires m.routing.IsEvent()
    ensures forall e: Id :: DeltaSum(outbox + [m], e) == DeltaSum(outbox, e)
    ensures forall r: Id :: LogOf(outbox + [m], r) == LogOf(outbox, r)
  {
    OneMore(outbox, m);
    assert forall e: Id :: Delta(m, e) == 0;
    assert forall r: Id :: !About(m, r);
  }

  /** The rows and events part of the invariant, without the outbox. */
  ghost predicate TableInv(s: Store) {
    RowsOk(s) && OneActive(s.regs) && Ranked(s.regs) && WithinCapacity(s) && CanceledIsEmpty(s)
  }

  ghost predicate LedgerInv(s: Store) {
    Conserved(s) && forall r: Id :: Traced(s, r)
  }

  lemma CreateKeeps(s: Store, event: Event, message: Id)
    requires Inv(s) && event.id !in s.events && event.status == Published
    requires Validate(event, event.createdAt) == None
    ensures Inv(CreateStep(s, event, message).0)
  {
    EventMessageIsSilent(s.outbox, EventMessage(message, EventPublished, event, event.createdAt));
    var s' := CreateStep(s, event, message).0;
    assert ConfirmedIds(s.regs, event.id) == {};
    forall r: Id ensures Traced(s', r) {
      assert Traced(s, r);
    }
    forall e: Id | Live(s', e) ensures DeltaSum(s'.outbox, e) == |ConfirmedIds(s'.regs, e)| {
      assert Live(s, e);
    }
  }

  lemma UpdateKeeps(s: Store, e: Id, actor: Id, admin: bool, command: UpdateCommand, now: Time, message: Id)
    requires Inv(s)
    ensures Inv(UpdateStep(s, e, actor, admin, command, now, message).0)
  {
    var s' := UpdateStep(s, e, actor, admin, command, now, message).0;
    if s' != s {
      EventMessageIsSilent(s.outbox, EventMessage(message, EventUpdated, s'.events[e], now));
      forall r: Id ensures Traced(s', r) {
        assert Traced(s, r);
      }
      forall e': Id | Live(s', e') ensures DeltaSum(s'.outbox, e') == |ConfirmedIds(s'.regs, e')| {
        assert Live(s, e');
      }
    }
  }

  lemma ReleaseAllTables(s: Store, e: Id, now: Time)
    ensures forall e' | e' != e :: ConfirmedIds(ReleaseAll(s.regs, e, now), e') == ConfirmedIds(s.regs, e')
    ensures ConfirmedIds(ReleaseAll(s.regs, e, now), e) == {}
  {
  }

  lemma ReleaseAllKeepsRanks(regs: Regs, e: Id, now: Time)
    requires OneActive(regs) && Ranked(regs)
    ensures OneActive(ReleaseAll(regs, e, now)) && Ranked(ReleaseAll(regs, e, now))
  {
    var regs' := ReleaseAll(regs, e, now);
    forall a, b | a in regs' && b in regs' ensures !Rivals(regs', a, b) && !SameNumber(regs', a, b) {
      assert !Rivals(regs, a, b) && !SameNumber(regs, a, b);
    }
    forall a | a in regs' && IsWaiting(regs', a) ensures regs'[a].waitlistPosition > 0 {
      assert IsWaiting(regs, a);
    }
  }

  lemma CancelEventKeepsTables(s: Store, e: Id, actor: Id, admin: bool, now: Time, message: Id)
    requires TableInv(s)
    ensures TableInv(CancelEventStep(s, e, actor, admin, now, message).0)
  {
    var s' := CancelEventStep(s, e, actor, admin, now, message).0;
    if s' != s {
      ReleaseAllTables(s, e, now);
      ReleaseAllKeepsRanks(s.regs, e, now);
    }
  }

  lemma CancelEventKeeps(s: Store, e: Id, actor: Id, admin: bool, now: Time, message: Id)
    requires Inv(s)
    ensures Inv(CancelEventStep(s, e, actor, admin, now, message).0)
  {
    var s' := CancelEventStep(s, e, actor, admin, now, message).0;
    CancelEventKeepsTables(s, e, actor, admin, now, message);
    if s' != s {
      var m := EventMessage(message, EventCanceled, s'.events[e], now);
      ReleaseAllTables(s, e, now);
      EventMessageIsSilent(s.outbox, m);
      forall r: Id ensures Traced(s', r) {
        assert Traced(s, r) && LogOf(s.outbox + [m], r) == LogOf(s.outbox, r);
      }
      forall e': Id | Live(s', e') ensures DeltaSum(s'.outbox, e') == |ConfirmedIds(s'.regs, e')| {
        assert Live(s, e') && e' != e;
      }
    }
  }

  /** Writing row `id` moves that one registration between its event's sets and leaves other events alone. */
  lemma OneRowMoves(regs: Regs, id: Id, reg: Registration)
    requires id in regs ==> regs[id].eventId == reg.eventId
    ensures forall e | e != reg.eventId :: ConfirmedIds(regs[id := reg], e) == ConfirmedIds(regs, e)
    ensures var was := ConfirmedIds(regs, reg.eventId);
            ConfirmedIds(regs[id := reg], reg.eventId) == if reg.status == Confirmed then was + {id} else was - {id}
  {
  }

  lemma OneRowMovesLine(regs: Regs, id: Id, reg: Registration)
    requires id in regs ==> regs[id].eventId == reg.eventId
    ensures forall e | e != reg.eventId :: WaitingIds(regs[id := reg], e) == WaitingIds(regs, e)
    ensures var was := WaitingIds(regs, reg.eventId);
            WaitingIds(regs[id := reg], reg.eventId) == if reg.status == Waitlisted then was + {id} else was - {id}
  {
  }

  function LifeBefore(s: Store, id: Id): Life {
    if id in s.regs then LifeOf(s.regs[id]) else Unborn
  }

  /** Message `m` moves the life of registration `id` on to what row `reg` says. */
  predicate Records(s: Store, id: Id, reg: Registration, m: Envelope) {
    && About(m, id) && m.payload.EventId() == reg.eventId
    && reg.eventId in s.events && Live(s, reg.eventId)
    && (id in s.regs ==> s.regs[id].eventId == reg.eventId)
    && reg.status in {Confirmed, Waitlisted, Canceled}
    && Next(LifeBefore(s, id), m) == LifeOf(reg)
  }

  lemma OneRowKeepsTrace(s: Store, id: Id, reg: Registration, m: Envelope, r: Id)
    requires Traced(s, r) && Records(s, id, reg, m)
    ensures Traced(Store(s.events, s.regs[id := reg], s.outbox + [m]), r)
  {
    OneMore(s.outbox, m);
    OneMore(LogOf(s.outbox, r), m);
  }

  lemma SizeMoves(before: set<Id>, after: set<Id>, id: Id)
    requires after == before + {id} || after == before - {id}
    ensures |after| == |before| + (if id in after then 1 else 0) - (if id in before then 1 else 0)
  {
    if after != before && id in before { assert before == after + {id}; }
  }

  lemma OwnCountMoves(regs: Regs, id: Id, reg: Registration)
    requires id in regs ==> regs[id].eventId == reg.eventId
    ensures var before := ConfirmedIds(regs, reg.eventId);
            |ConfirmedIds(regs[id := reg], reg.eventId)|
            == |before| + (if reg.status == Confirmed then 1 else 0) - (if id in before then 1 else 0)
  {
    OneRowMoves(regs, id, reg);
    SizeMoves(ConfirmedIds(regs, reg.eventId), ConfirmedIds(regs[id := reg], reg.eventId), id);
  }

  lemma ConfirmedCountMoves(s: Store, id: Id, reg: Registration, e: Id)
    requires RowsOk(s) && reg.status in {Confirmed, Waitlisted, Canceled}
    requires id in s.regs ==> s.regs[id].eventId == reg.eventId
    ensures |ConfirmedIds(s.regs[id := reg], e)|
         == |ConfirmedIds(s.regs, e)| + Held(LifeOf(reg), e) - Held(LifeBefore(s, id), e)
  {
    if e == reg.eventId {
      OwnCountMoves(s.regs, id, reg);
    } else {
      OneRowMoves(s.regs, id, reg);
    }
  }

  lemma OneRowKeepsConservation(s: Store, id: Id, reg: Registration, m: Envelope, e: Id)
    requires RowsOk(s) && Records(s, id, reg, m)
    requires Live(s, e) && DeltaSum(s.outbox, e) == |ConfirmedIds(s.regs, e)|
    ensures DeltaSum(s.outbox + [m], e) == |ConfirmedIds(s.regs[id := reg], e)|
  {
    OneMore(s.outbox, m);
    DeltaIsSeatChange(LifeBefore(s, id), m, e);
    ConfirmedCountMoves(s, id, reg, e);
  }

  /** One row written together with the message that records it keeps the outbox accounts. */
  lemma OneRowKeepsLedger(s: Store, id: Id, reg: Registration, m: Envelope)
    requires RowsOk(s) && LedgerInv(s) && Records(s, id, reg, m)
    ensures LedgerInv(Store(s.events, s.regs[id := reg], s.outbox + [m]))
  {
    var s' := Store(s.events, s.regs[id := reg], s.outbox + [m]);
    forall r: Id ensures Traced(s', r) {
      assert Traced(s, r);
      OneRowKeepsTrace(s, id, reg, m, r);
    }
    forall e: Id | Live(s', e) ensures DeltaSum(s'.outbox, e) == |ConfirmedIds(s'.regs, e)| {
      assert Live(s, e);
      OneRowKeepsConservation(s, id, reg, m, e);
    }
  }

  lemma OneRowKeepsOneActive(s: Store, id: Id, reg: Registration)
    requires OneActive(s.regs)
    requires reg.Active() ==> ActiveIds(s.regs, reg.eventId, reg.userId) <= {id}
    ensures OneActive(s.regs[id := reg])
  {
    var regs := s.regs[id := reg];
    forall a, b | a in regs && b in regs ensures !Rivals(regs, a, b) {
      if a != id && b != id {
        assert !Rivals(s.regs, a, b);
      } else if a != b {
        var other := if a == id then b else a;
        assert other in ActiveIds(s.regs, reg.eventId, reg.userId) || !Rivals(regs, a, b);
      }
    }
  }

  lemma OneRowKeepsRanked(s: Store, id: Id, reg: Registration)
    requires Ranked(s.regs)
    requires reg.status == Waitlisted ==>
               reg.waitlistPosition > 0
               && forall w | w in WaitingIds(s.regs, reg.eventId) :: s.regs[w].waitlistPosition != reg.waitlistPosition
    ensures Ranked(s.regs[id := reg])
  {
    var regs := s.regs[id := reg];
    forall a | a in regs && IsWaiting(regs, a) ensures regs[a].waitlistPosition > 0 {
      assert a == id || IsWaiting(s.regs, a);
    }
    forall a, b | a in regs && b in regs ensures !SameNumber(regs, a, b) {
      if a != id && b != id {
        assert !SameNumber(s.regs, a, b);
      } else if a != b {
        var other := if a == id then b else a;
        assert other in WaitingIds(s.regs, reg.eventId) || !SameNumber(regs, a, b);
      }
    }
  }

  lemma OneRowKeepsCapacity(s: Store, id: Id, reg: Registration, outbox: seq<Envelope>)
    requires WithinCapacity(s) && reg.eventId in s.events
    requires id in s.regs ==> s.regs[id].eventId == reg.eventId
    requires reg.status == Confirmed ==> |ConfirmedIds(s.regs, reg.eventId)| < s.events[reg.eventId].capacity
    ensures WithinCapacity(Store(s.events, s.regs[id := reg], outbox))
  {
    OneRowMoves(s.regs, id, reg);
    forall e | e in s.events
      ensures |ConfirmedIds(s.regs[id := reg], e)| <= s.events[e].capacity && s.events[e].capacity > 0
    {
      assert |ConfirmedIds(s.regs, e)| <= s.events[e].capacity;
    }
  }

  /** One row written under the table rules keeps the tables. */
  lemma OneRowKeepsTables(s: Store, id: Id, reg: Registration, outbox: seq<Envelope>)
    requires TableInv(s)
    requires reg.id == id && reg.eventId in s.events && s.events[reg.eventId].status == Published
    requires reg.waitlistPosition >= 0 && reg.status in {Confirmed, Waitlisted, Canceled}
    requires id in s.regs ==> s.regs[id].eventId == reg.eventId
    requires reg.Active() ==> ActiveIds(s.regs, reg.eventId, reg.userId) <= {id}
    requires reg.status == Waitlisted ==>
               reg.waitlistPosition > 0
               && forall w | w in WaitingIds(s.regs, reg.eventId) :: s.regs[w].waitlistPosition != reg.waitlistPosition
    requires reg.status == Confirmed ==> |ConfirmedIds(s.regs, reg.eventId)| < s.events[reg.eventId].capacity
    ensures TableInv(Store(s.events, s.regs[id := reg], outbox))
  {
    OneRowKeepsOneActive(s, id, reg);
    OneRowKeepsRanked(s, id, reg);
    OneRowKeepsCapacity(s, id, reg, outbox);
  }

  lemma JoinKeepsTables(s: Store, e: Id, u: Id, key: string, now: Time, registration: Id, message: Id)
    requires TableInv(s) && registration !in s.regs
    ensures TableInv(JoinStep(s, e, u, key, now, registration, message).0)
  {
    var s' := JoinStep(s, e, u, key, now, registration, message).0;
    if s' != s {
      assert WaitingIds(s.regs, e) <= EventIds(s.regs, e);
      OneRowKeepsTables(s, registration, s'.regs[registration], s'.outbox);
    }
  }

  lemma JoinKeepsLedger(s: Store, e: Id, u: Id, key: string, now: Time, registration: Id, message: Id)
    requires TableInv(s) && LedgerInv(s) && registration !in s.regs
    ensures LedgerInv(JoinStep(s, e, u, key, now, registration, message).0)
  {
    var s' := JoinStep(s, e, u, key, now, registration, message).0;
    if s' != s {
      OneRowKeepsLedger(s, registration, s'.regs[registration], s'.outbox[|s.outbox|]);
    }
  }

  lemma JoinKeeps(s: Store, e: Id, u: Id, key: string, now: Time, registration: Id, message: Id)
    requires Inv(s) && registration !in s.regs
    ensures Inv(JoinStep(s, e, u, key, now, registration, message).0)
  {
    var s' := JoinStep(s, e, u, key, now, registration, message).0;
    if s' != s {
      JoinKeepsTables(s, e, u, key, now, registration, message);
      JoinKeepsLedger(s, e, u, key, now, registration, message);
    }
  }

  lemma ReleaseKeepsTables(repo: Repo, s: Store, id: Id, now: Time, message: Id)
    requires TableInv(s) && id in s.regs && s.regs[id].Active()
    ensures TableInv(Release(repo, s, id, now, message))
  {
    var s' := Release(repo, s, id, now, message);
    OneRowKeepsTables(s, id, s'.regs[id], s'.outbox);
  }

  lemma ReleaseKeeps(repo: Repo, s: Store, id: Id, now: Time, message: Id)
    requires Inv(s) && id in s.regs && s.regs[id].Active()
    ensures Inv(Release(repo, s, id, now, message))
  {
    var s' := Release(repo, s, id, now, message);
    ReleaseKeepsTables(repo, s, id, now, message);
    OneRowKeepsLedger(s, id, s'.regs[id], s'.outbox[|s.outbox|]);
  }

  lemma PromoteKeeps(s: Store, id: Id, now: Time, message: Id)
    requires Inv(s) && id in s.regs && s.regs[id].status == Waitlisted
    requires |ConfirmedIds(s.regs, s.regs[id].eventId)| < s.events[s.regs[id].eventId].capacity
    ensures Inv(Promote(s, id, now, message))
  {
    var s' := Promote(s, id, now, message);
    forall a | a in ActiveIds(s.regs, s.regs[id].eventId, s.regs[id].userId) ensures a == id {
      assert !Rivals(s.regs, a, id);
    }
    OneRowKeepsTables(s, id, s'.regs[id], s'.outbox);
    OneRowKeepsLedger(s, id, s'.regs[id], s'.outbox[|s.outbox|]);
  }

  lemma CancelKeeps(repo: Repo, s: Store, e: Id, u: Id, now: Time, message: Id, promotedMessage: Id)
    requires Inv(s) && e in s.events
    ensures Inv(CancelStep(repo, s, e, u, now, message, promotedMessage).0)
  {
    if ActiveIds(s.regs, e, u) != {} {
      var id := Pick(ActiveIds(s.regs, e, u));
      ReleaseKeeps(repo, s, id, now, message);
      var s1 := Release(repo, s, id, now, message);
      if s.regs[id].status == Confirmed && WaitingIds(s1.regs, e) != {} {
        OneRowMoves(s.regs, id, s1.regs[id]);
        assert ConfirmedIds(s1.regs, e) == ConfirmedIds(s.regs, e) - {id};
        assert id in ConfirmedIds(s.regs, e);
        PromoteKeeps(s1, FirstWaiting(s1.regs, e), now, promotedMessage);
      }
    }
  }

  /** Every operation of either repository keeps the invariant. */
  lemma StepKeeps(repo: Repo, s: Store, op: Op)
    requires Inv(s) && Fresh(s, op)
    ensures Inv(Step(repo, s, op).0)
  {
    match op
    case Create(event, message) => CreateKeeps(s, event, message);
    case Update(e, actor, admin, command, now, message) => UpdateKeeps(s, e, actor, admin, command, now, message);
    case CancelEvent(e, actor, admin, now, message) => CancelEventKeeps(s, e, actor, admin, now, message);
    case Join(e, u, key, now, registration, message) => JoinKeeps(s, e, u, key, now, registration, message);
    case CancelJoin(e, u, now, message, promotedMessage) =>
      if e in s.events { CancelKeeps(repo, s, e, u, now, message, promotedMessage); }
    case CancelRegistration(e, actor, admin, u, now, message, promotedMessage) =>
      if e in s.events { CancelKeeps(repo, s, e, u, now, message, promotedMessage); }
  }

  lemma EmptyIsFine()
    ensures Inv(EMPTY)
  {
    assert forall e: Id :: ConfirmedIds(EMPTY.regs, e) == {};
  }

  /** Safety over whole runs: capacity, one active registration, distinct numbers, conservation, traced lives. */
  lemma {:induction false} RunKeeps(repo: Repo, ops: seq<Op>)
    requires FreshRun(repo, ops)
    ensures Inv(Run(repo, ops))
  {
    if ops == [] {
      EmptyIsFine();
    } else {
      RunKeeps(repo, ops[..|ops| - 1]);
      StepKeeps(repo, Run(repo, ops[..|ops| - 1]), ops[|ops| - 1]);
    }
  }
}
