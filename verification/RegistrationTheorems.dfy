/** What whole runs of the registration protocol guarantee, and where natural expectations fail. */
module RegistrationTheorems {
  import opened Collections
  import opened Messages
  import opened JoinLog
  import opened Registrations
  import opened RegistrationInvariants
  import opened WaitlistSpec

  // ---------------------------------------------------------------- the two repositories agree

  ghost function OutcomeAt(repo: Repo, ops: seq<Op>, i: nat): Outcome
    requires i < |ops|
  {
    Step(repo, Run(repo, ops[..i]), ops[i]).1
  }

  /** Two stores that one board represents look the same once waitlist numbers are forgotten. */
  ghost predicate Alike(m: Store, p: Store) {
    && m.events == p.events
    && PlainRegs(m.regs) == PlainRegs(p.regs)
    && |m.outbox| == |p.outbox|
    && (forall i | 0 <= i < |m.outbox| :: PlainMessage(m.outbox[i]) == PlainMessage(p.outbox[i]))
    && (forall e: Id, a, b | a in WaitingIds(m.regs, e) && b in WaitingIds(m.regs, e) ::
          a in p.regs && b in p.regs && (Before(m.regs, a, b) <==> Before(p.regs, a, b)))
  }

  lemma LinesAgree(m: Regs, p: Regs, e: Id, queue: seq<Id>, a: Id, b: Id)
    requires InLine(m, e, queue) && InLine(p, e, queue)
    requires a in WaitingIds(m, e) && b in WaitingIds(m, e)
    ensures a in p && b in p && (Before(m, a, b) <==> Before(p, a, b))
  {
    assert a in queue && b in queue;
    var i :| 0 <= i < |queue| && queue[i] == a;
    var j :| 0 <= j < |queue| && queue[j] == b;
    if i < j {
      assert Before(m, queue[i], queue[j]) && Before(p, queue[i], queue[j]);
    } else if j < i {
      assert Before(m, queue[j], queue[i]) && Before(p, queue[j], queue[i]);
    }
  }

  lemma RepresentedAlike(m: Store, p: Store, board: Board)
    requires Represents(m, board) && Represents(p, board)
    ensures Alike(m, p)
  {
    forall e: Id, a, b | a in WaitingIds(m.regs, e) && b in WaitingIds(m.regs, e)
      ensures a in p.regs && b in p.regs && (Before(m.regs, a, b) <==> Before(p.regs, a, b))
    {
      assert InLine(m.regs, e, QueueOf(board.queues, e)) && InLine(p.regs, e, QueueOf(board.queues, e));
      LinesAgree(m.regs, p.regs, e, QueueOf(board.queues, e), a, b);
    }
  }

  lemma AlikeStoresFindTheSameFresh(m: Store, p: Store, op: Op)
    requires Alike(m, p) && Fresh(m, op)
    ensures Fresh(p, op)
  {
    assert m.regs.Keys == PlainRegs(m.regs).Keys == p.regs.Keys;
    forall id | UnusedMessage(m, id) ensures UnusedMessage(p, id) {
      forall x | x in p.outbox ensures x.messageId != id {
        var i :| 0 <= i < |p.outbox| && p.outbox[i] == x;
        assert m.outbox[i] in m.outbox && PlainMessage(m.outbox[i]).messageId == PlainMessage(x).messageId;
      }
    }
  }

  lemma {:induction false} FreshnessTransfers(ops: seq<Op>)
    requires FreshRun(InMemory, ops)
    ensures FreshRun(Postgres, ops)
  {
    if ops != [] {
      var before := ops[..|ops| - 1];
      FreshnessTransfers(before);
      RunRefines(InMemory, before);
      RunRefines(Postgres, before);
      RepresentedAlike(Run(InMemory, before), Run(Postgres, before), BoardRun(before));
      AlikeStoresFindTheSameFresh(Run(InMemory, before), Run(Postgres, before), ops[|ops| - 1]);
    }
  }

  lemma RunExtends(repo: Repo, ops: seq<Op>, op: Op)
    requires FreshRun(repo, ops) && Fresh(Run(repo, ops), op)
    ensures FreshRun(repo, ops + [op]) && Run(repo, ops + [op]) == Step(repo, Run(repo, ops), op).0
  {
    assert (ops + [op])[..|ops + [op]| - 1] == ops;
  }

  lemma {:induction false} FreshPrefix(repo: Repo, ops: seq<Op>, i: nat)
    requires FreshRun(repo, ops) && i <= |ops|
    ensures FreshRun(repo, ops[..i])
    ensures i < |ops| ==> Fresh(Run(repo, ops[..i]), ops[i])
  {
    if i < |ops| - 1 {
      FreshPrefix(repo, ops[..|ops| - 1], i);
      assert ops[..|ops| - 1][..i] == ops[..i];
    } else if i == |ops| {
      assert ops[..i] == ops;
    }
  }

  lemma AnswerIsTheBoards(repo: Repo, ops: seq<Op>, i: nat)
    requires FreshRun(repo, ops) && i < |ops|
    ensures PlainOutcome(OutcomeAt(repo, ops, i)) == BoardStep(BoardRun(ops[..i]), ops[i]).1
  {
    FreshPrefix(repo, ops, i);
    RunKeeps(repo, ops[..i]);
    RunRefines(repo, ops[..i]);
    StepRefines(repo, Run(repo, ops[..i]), BoardRun(ops[..i]), ops[i]);
  }

  /**
   * The in-memory and the PostgreSQL repository simulate each other: after the same operations they hold the
   * same events, the same registrations and the same messages, rank waiting users alike, and have answered
   * every call alike; only the waitlist numbers themselves may differ.
   */
  lemma RepositoriesAgree(ops: seq<Op>)
    requires FreshRun(InMemory, ops)
    ensures FreshRun(Postgres, ops)
    ensures Alike(Run(InMemory, ops), Run(Postgres, ops))
    ensures forall i | 0 <= i < |ops| ::
              PlainOutcome(OutcomeAt(InMemory, ops, i)) == PlainOutcome(OutcomeAt(Postgres, ops, i))
  {
    FreshnessTransfers(ops);
    RunRefines(InMemory, ops);
    RunRefines(Postgres, ops);
    RepresentedAlike(Run(InMemory, ops), Run(Postgres, ops), BoardRun(ops));
    forall i | 0 <= i < |ops|
      ensures PlainOutcome(OutcomeAt(InMemory, ops, i)) == PlainOutcome(OutcomeAt(Postgres, ops, i))
    {
      AnswerIsTheBoards(InMemory, ops, i);
      AnswerIsTheBoards(Postgres, ops, i);
    }
  }

  // ---------------------------------------------------------------- waiting in line

  lemma FirstIsUnique(regs: Regs, regs': Regs, e: Id)
    requires Ranked(regs) && WaitingIds(regs, e) == WaitingIds(regs', e) != {}
    requires forall id | id in WaitingIds(regs, e) :: regs'[id].waitlistPosition == regs[id].waitlistPosition
    ensures FirstWaiting(regs, e) == FirstWaiting(regs', e)
  {
    var a, b := FirstWaiting(regs, e), FirstWaiting(regs', e);
    assert !SameNumber(regs, a, b);
  }

  /** After cancelling a confirmed registration exactly the first in line holds a seat, and nobody else moved. */
  lemma CancelPromotesTheHead(repo: Repo, s: Store, e: Id, u: Id, now: Time, message: Id, promotedMessage: Id)
    requires Inv(s) && e in s.events && ActiveIds(s.regs, e, u) != {}
    ensures var id := Pick(ActiveIds(s.regs, e, u));
            var s' := CancelStep(repo, s, e, u, now, message, promotedMessage).0;
            var line := WaitingIds(s.regs, e);
            if s.regs[id].status == Confirmed && line != {} then
              && ConfirmedIds(s'.regs, e) == ConfirmedIds(s.regs, e) - {id} + {FirstWaiting(s.regs, e)}
              && WaitingIds(s'.regs, e) == line - {FirstWaiting(s.regs, e)}
            else
              && ConfirmedIds(s'.regs, e) == ConfirmedIds(s.regs, e) - {id}
              && WaitingIds(s'.regs, e) == line - {id}
  {
    var id := Pick(ActiveIds(s.regs, e, u));
    var s1 := Release(repo, s, id, now, message);
    OneRowMoves(s.regs, id, s1.regs[id]);
    OneRowMovesLine(s.regs, id, s1.regs[id]);
    if s.regs[id].status == Confirmed && WaitingIds(s.regs, e) != {} {
      FirstIsUnique(s.regs, s1.regs, e);
      var first := FirstWaiting(s1.regs, e);
      OneRowMoves(s1.regs, first, Promote(s1, first, now, promotedMessage).regs[first]);
      OneRowMovesLine(s1.regs, first, Promote(s1, first, now, promotedMessage).regs[first]);
    }
  }

  /** The line of an event is full-house whenever somebody waits. */
  ghost predicate FullHouse(s: Store) {
    forall e | e in s.events && WaitingIds(s.regs, e) != {} :: |ConfirmedIds(s.regs, e)| == s.events[e].capacity
  }

  /** An update that goes through and raises the capacity of an event somebody is waiting for. */
  ghost predicate AcceptedRaise(s: Store, op: Op) {
    && op.Update? && op.command.capacity.Some?
    && op.eventId in s.events && WaitingIds(s.regs, op.eventId) != {}
    && op.command.capacity.value > s.events[op.eventId].capacity
    && (s.events[op.eventId].organizerId == op.actor || op.admin)
    && Validate(Updated(s.events[op.eventId], op.command, op.now), op.now) == None
  }

  ghost predicate NeverRaisesWhileWaiting(repo: Repo, ops: seq<Op>) {
    ops == [] || (NeverRaisesWhileWaiting(repo, ops[..|ops| - 1])
                  && !AcceptedRaise(Run(repo, ops[..|ops| - 1]), ops[|ops| - 1]))
  }

  ghost predicate AlwaysFullHouse(repo: Repo, ops: seq<Op>) {
    FullHouse(Run(repo, ops)) && (ops == [] || AlwaysFullHouse(repo, ops[..|ops| - 1]))
  }

  lemma CancelTouchesOneEvent(repo: Repo, s: Store, e: Id, u: Id, now: Time, message: Id, promotedMessage: Id, e': Id)
    requires Inv(s) && e' != e
    ensures var s' := CancelStep(repo, s, e, u, now, message, promotedMessage).0;
            WaitingIds(s'.regs, e') == WaitingIds(s.regs, e') && ConfirmedIds(s'.regs, e') == ConfirmedIds(s.regs, e')
  {
    if ActiveIds(s.regs, e, u) != {} {
      var id := Pick(ActiveIds(s.regs, e, u));
      var s1 := Release(repo, s, id, now, message);
      OneRowMoves(s.regs, id, s1.regs[id]);
      OneRowMovesLine(s.regs, id, s1.regs[id]);
      if WaitingIds(s1.regs, e) != {} {
        var first := FirstWaiting(s1.regs, e);
        OneRowMoves(s1.regs, first, Promote(s1, first, now, promotedMessage).regs[first]);
        OneRowMovesLine(s1.regs, first, Promote(s1, first, now, promotedMessage).regs[first]);
      }
    }
  }

  lemma CancelEventKeepsFullHouse(s: Store, e: Id, actor: Id, admin: bool, now: Time, message: Id)
    requires FullHouse(s)
    ensures FullHouse(CancelEventStep(s, e, actor, admin, now, message).0)
  {
    ReleaseAllTables(s, e, now);
    var regs' := ReleaseAll(s.regs, e, now);
    assert WaitingIds(regs', e) == {};
    forall e' | e' != e ensures WaitingIds(regs', e') == WaitingIds(s.regs, e') {
    }
  }

  lemma UpdateKeepsFullHouseIff(s: Store, op: Op)
    requires WithinCapacity(s) && CanceledIsEmpty(s) && FullHouse(s) && op.Update?
    ensures FullHouse(UpdateStep(s, op.eventId, op.actor, op.admin, op.command, op.now, op.message).0)
            <==> !AcceptedRaise(s, op)
  {
    if AcceptedRaise(s, op) {
      var s' := UpdateStep(s, op.eventId, op.actor, op.admin, op.command, op.now, op.message).0;
      var id :| id in WaitingIds(s.regs, op.eventId);
      assert s.events[op.eventId].status == Published;
      assert |ConfirmedIds(s'.regs, op.eventId)| < s'.events[op.eventId].capacity;
    }
  }

  lemma JoinKeepsFullHouse(s: Store, e: Id, u: Id, key: string, now: Time, registration: Id, message: Id)
    requires FullHouse(s) && WithinCapacity(s) && registration !in s.regs
    ensures FullHouse(JoinStep(s, e, u, key, now, registration, message).0)
  {
    var s' := JoinStep(s, e, u, key, now, registration, message).0;
    if s' != s {
      var reg := s'.regs[registration];
      OneRowMoves(s.regs, registration, reg);
      OneRowMovesLine(s.regs, registration, reg);
      assert registration !in ConfirmedIds(s.regs, e) && registration !in WaitingIds(s.regs, e);
      forall f | f in s.events && WaitingIds(s'.regs, f) != {}
        ensures |ConfirmedIds(s'.regs, f)| == s.events[f].capacity
      {
        assert f != e || reg.status == Confirmed ==> WaitingIds(s.regs, f) != {};
      }
    }
  }

  lemma CancelKeepsEventFull(repo: Repo, s: Store, e: Id, u: Id, now: Time, message: Id, promotedMessage: Id)
    requires Inv(s) && FullHouse(s) && e in s.events && ActiveIds(s.regs, e, u) != {}
    ensures var s' := CancelStep(repo, s, e, u, now, message, promotedMessage).0;
            WaitingIds(s'.regs, e) != {} ==> |ConfirmedIds(s'.regs, e)| == s.events[e].capacity
  {
    var id := Pick(ActiveIds(s.regs, e, u));
    CancelPromotesTheHead(repo, s, e, u, now, message, promotedMessage);
    assert id in ConfirmedIds(s.regs, e) <==> s.regs[id].status == Confirmed;
    if WaitingIds(s.regs, e) != {} {
      assert FirstWaiting(s.regs, e) !in ConfirmedIds(s.regs, e);
    }
  }

  lemma CancelKeepsFullHouse(repo: Repo, s: Store, e: Id, u: Id, now: Time, message: Id, promotedMessage: Id)
    requires Inv(s) && FullHouse(s) && e in s.events
    ensures FullHouse(CancelStep(repo, s, e, u, now, message, promotedMessage).0)
  {
    if ActiveIds(s.regs, e, u) != {} {
      var s' := CancelStep(repo, s, e, u, now, message, promotedMessage).0;
      CancelKeepsEventFull(repo, s, e, u, now, message, promotedMessage);
      forall e' | e' in s.events && WaitingIds(s'.regs, e') != {}
        ensures |ConfirmedIds(s'.regs, e')| == s.events[e'].capacity
      {
        if e' != e { CancelTouchesOneEvent(repo, s, e, u, now, message, promotedMessage, e'); }
      }
    }
  }

  /** Exactly an accepted raise leaves free seats beside a waiting line. */
  lemma StepKeepsFullHouseIff(repo: Repo, s: Store, op: Op)
    requires Inv(s) && FullHouse(s) && Fresh(s, op)
    ensures FullHouse(Step(repo, s, op).0) <==> !AcceptedRaise(s, op)
  {
    match op
    case Create(event, _) =>
      assert WaitingIds(s.regs, event.id) == {};
    case Update(_, _, _, _, _, _) =>
      UpdateKeepsFullHouseIff(s, op);
    case CancelEvent(e, actor, admin, now, message) =>
      CancelEventKeepsFullHouse(s, e, actor, admin, now, message);
    case Join(e, u, key, now, registration, message) =>
      JoinKeepsFullHouse(s, e, u, key, now, registration, message);
    case CancelJoin(e, u, now, message, promotedMessage) =>
      if e in s.events { CancelKeepsFullHouse(repo, s, e, u, now, message, promotedMessage); }
    case CancelRegistration(e, _, _, u, now, message, promotedMessage) =>
      if e in s.events { CancelKeepsFullHouse(repo, s, e, u, now, message, promotedMessage); }
  }

  /** A waiting line has meant exactly full all along if and only if no update raised capacity while people waited. */
  lemma {:induction false} WaitingMeansFullIff(repo: Repo, ops: seq<Op>)
    requires FreshRun(repo, ops)
    ensures AlwaysFullHouse(repo, ops) <==> NeverRaisesWhileWaiting(repo, ops)
  {
    if ops != [] {
      var before := ops[..|ops| - 1];
      WaitingMeansFullIff(repo, before);
      RunKeeps(repo, before);
      if AlwaysFullHouse(repo, before) {
        StepKeepsFullHouseIff(repo, Run(repo, before), ops[|ops| - 1]);
      }
    }
  }

  /**
   * Raising capacity promotes nobody: everybody in line is still in line, and the next newcomer is
   * confirmed ahead of all of them.
   */
  lemma RaisedCapacityLetsANewcomerPass(
      repo: Repo, s: Store, e: Id, capacity: int, now: Time, m1: Id, u: Id, key: string, later: Time, registration: Id,
      m2: Id)
    requires Inv(s) && e in s.events && s.events[e].status == Published
    requires WaitingIds(s.regs, e) != {} && capacity > s.events[e].capacity
    requires Validate(s.events[e].(capacity := capacity), now) == None
    requires ActiveIds(s.regs, e, u) == {} && registration !in s.regs && later < s.events[e].startsAt
    ensures var raise := Update(e, s.events[e].organizerId, false,
                                UpdateCommand(None, None, None, None, None, Some(capacity)), now, m1);
            var s1 := Step(repo, s, raise).0;
            var (s2, outcome) := Step(repo, s1, Join(e, u, key, later, registration, m2));
            && outcome.Joined? && outcome.registration.status == Confirmed
            && s1.regs == s.regs && s2.regs == s.regs[registration := outcome.registration]
            && |s1.outbox| == |s.outbox| + 1 && s1.outbox[..|s.outbox|] == s.outbox
            && s1.outbox[|s.outbox|].messageId == m1
            && registration in ConfirmedIds(s2.regs, e)
            && WaitingIds(s2.regs, e) == WaitingIds(s.regs, e)
  {
  }

  // ---------------------------------------------------------------- cancelling an event

  predicate IsCanceled(s: Store, e: Id) { e in s.events && s.events[e].status == Canceled }

  lemma StepKeepsCanceled(repo: Repo, s: Store, op: Op, e: Id)
    requires Fresh(s, op) && IsCanceled(s, e)
    ensures IsCanceled(Step(repo, s, op).0, e)
  {
  }

  lemma EventOpsAreSilent(repo: Repo, s: Store, op: Op, e: Id)
    requires op.Create? || op.Update? || op.CancelEvent?
    ensures DeltaSum(Step(repo, s, op).0.outbox, e) == DeltaSum(s.outbox, e)
  {
    var s' := Step(repo, s, op).0;
    if s'.outbox != s.outbox { EventMessageIsSilent(s.outbox, s'.outbox[|s.outbox|]); }
  }

  lemma JoinIsSilentAbout(s: Store, f: Id, u: Id, key: string, now: Time, registration: Id, message: Id, e: Id)
    requires IsCanceled(s, e)
    ensures DeltaSum(JoinStep(s, f, u, key, now, registration, message).0.outbox, e) == DeltaSum(s.outbox, e)
  {
    var s' := JoinStep(s, f, u, key, now, registration, message).0;
    if s' != s { OneMore(s.outbox, s'.outbox[|s.outbox|]); }
  }

  lemma ForeignMessageIsSilent(outbox: seq<Envelope>, m: Envelope, e: Id)
    requires m.payload.EventId() != e
    ensures DeltaSum(outbox + [m], e) == DeltaSum(outbox, e)
  {
    OneMore(outbox, m);
  }

  lemma CancelIsSilentAbout(repo: Repo, s: Store, f: Id, u: Id, now: Time, message: Id, promotedMessage: Id, e: Id)
    requires Inv(s) && f in s.events && IsCanceled(s, e)
    ensures DeltaSum(CancelStep(repo, s, f, u, now, message, promotedMessage).0.outbox, e) == DeltaSum(s.outbox, e)
  {
    if ActiveIds(s.regs, f, u) != {} {
      var id := Pick(ActiveIds(s.regs, f, u));
      assert f != e;
      var s1 := Release(repo, s, id, now, message);
      ForeignMessageIsSilent(s.outbox, s1.outbox[|s.outbox|], e);
      if s.regs[id].status == Confirmed && WaitingIds(s1.regs, f) != {} {
        var s2 := Promote(s1, FirstWaiting(s1.regs, f), now, promotedMessage);
        ForeignMessageIsSilent(s1.outbox, s2.outbox[|s1.outbox|], e);
      }
    }
  }

  lemma StepKeepsCanceledFrozen(repo: Repo, s: Store, op: Op, e: Id)
    requires Inv(s) && Fresh(s, op) && IsCanceled(s, e)
    ensures DeltaSum(Step(repo, s, op).0.outbox, e) == DeltaSum(s.outbox, e)
  {
    match op
    case CancelJoin(f, u, now, message, promotedMessage) =>
      if f in s.events { CancelIsSilentAbout(repo, s, f, u, now, message, promotedMessage, e); }
    case CancelRegistration(f, _, _, u, now, message, promotedMessage) =>
      if f in s.events { CancelIsSilentAbout(repo, s, f, u, now, message, promotedMessage, e); }
    case Join(f, u, key, now, registration, message) => JoinIsSilentAbout(s, f, u, key, now, registration, message, e);
    case _ => EventOpsAreSilent(repo, s, op, e);
  }

  /** Once an event is cancelled no message ever changes its count again. */
  lemma {:induction false} CanceledCountIsFrozen(repo: Repo, ops: seq<Op>, more: seq<Op>, e: Id)
    requires FreshRun(repo, ops + more) && IsCanceled(Run(repo, ops), e)
    ensures IsCanceled(Run(repo, ops + more), e)
    ensures DeltaSum(Run(repo, ops + more).outbox, e) == DeltaSum(Run(repo, ops).outbox, e)
  {
    if more == [] {
      assert ops + more == ops;
    } else {
      var before := ops + more[..|more| - 1];
      assert (ops + more)[..|ops + more| - 1] == before;
      CanceledCountIsFrozen(repo, ops, more[..|more| - 1], e);
      RunKeeps(repo, before);
      StepKeepsCanceled(repo, Run(repo, before), more[|more| - 1], e);
      StepKeepsCanceledFrozen(repo, Run(repo, before), more[|more| - 1], e);
    }
  }

  /** Cancelling an event sends nothing about its registrations: the outbox still counts every seat it emptied. */
  lemma CancellingLeavesTheCountBehind(
      repo: Repo, s: Store, e: Id, actor: Id, admin: bool, now: Time, message: Id)
    requires Inv(s) && e in s.events && s.events[e].status == Published
    requires s.events[e].organizerId == actor || admin
    ensures var s' := Step(repo, s, CancelEvent(e, actor, admin, now, message)).0;
            && ConfirmedIds(s'.regs, e) == {} && WaitingIds(s'.regs, e) == {}
            && DeltaSum(s'.outbox, e) == |ConfirmedIds(s.regs, e)|
  {
    var s' := Step(repo, s, CancelEvent(e, actor, admin, now, message)).0;
    EventMessageIsSilent(s.outbox, s'.outbox[|s.outbox|]);
    assert Live(s, e);
  }
}
