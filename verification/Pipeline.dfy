/**
 * The whole RSVP pipeline: registration operations write the outbox, some of its messages reach the projector
 * in some order any number of times, and the projected count is compared with the authoritative one.
 */
module Pipeline {
  import opened Collections
  import opened Messages
  import opened JoinLog
  import opened Registrations
  import opened RegistrationInvariants
  import opened RegistrationTheorems
  import opened JoinStatus
  import opened FeedProjection

  /** Every registration's messages all took effect, in whatever order. */
  ghost predicate AllDelivered(log: seq<Envelope>, outbox: seq<Envelope>) {
    forall r: Id :: multiset(LogOf(log, r)) == multiset(LogOf(outbox, r))
  }

  /** Each registration's own messages took effect in the order written, up to some point; nothing else is said. */
  ghost predicate InOrder(log: seq<Envelope>, outbox: seq<Envelope>) {
    forall r: Id :: LogOf(log, r) <= LogOf(outbox, r)
  }

  ghost predicate AllDeliveredInOrder(log: seq<Envelope>, outbox: seq<Envelope>) {
    forall r: Id :: LogOf(log, r) == LogOf(outbox, r)
  }

  lemma InOrderIsDelivered(log: seq<Envelope>, outbox: seq<Envelope>)
    requires AllDeliveredInOrder(log, outbox)
    ensures AllDelivered(log, outbox) && InOrder(log, outbox)
  {
    forall r: Id ensures LogOf(log, r) <= LogOf(outbox, r) && multiset(LogOf(log, r)) == multiset(LogOf(outbox, r)) {
      assert LogOf(log, r) == LogOf(outbox, r);
    }
  }

  function ProjectedCount(deliveries: seq<Delivery>, e: Id): int { CountOf(FeedAfter(deliveries).rows, e) }

  ghost function TrueCount(s: Store, e: Id): int { |ConfirmedIds(s.regs, e)| }

  lemma OutboxLivesAreUnbroken(s: Store)
    requires Inv(s)
    ensures forall r: Id :: Lifecycle(LogOf(s.outbox, r)) != Broken
  {
    forall r: Id ensures Lifecycle(LogOf(s.outbox, r)) != Broken {
      assert Traced(s, r);
    }
  }

  /** Messages that keep each registration's order never let the running count fall below zero. */
  lemma InOrderNeverClamps(log: seq<Envelope>, outbox: seq<Envelope>, e: Id)
    requires InOrder(log, outbox) && forall r: Id :: Lifecycle(LogOf(outbox, r)) != Broken
    ensures Deficit(log, e) == 0
  {
    DeficitIsWorstPrefix(log, e);
    forall n | 0 <= n <= |log| ensures DeltaSum(log[..n], e) >= 0 {
      var prefix := log[..n];
      forall r: Id ensures Lifecycle(LogOf(prefix, r)) != Broken {
        LogOfPrefix(log, n, r);
        assert LogOf(log, r) <= LogOf(outbox, r);
        assert LogOf(prefix, r) == LogOf(outbox, r)[..|LogOf(prefix, r)|];
        PrefixIsUnbroken(LogOf(outbox, r), |LogOf(prefix, r)|);
      }
      UnbrokenLivesSumUp(prefix, e);
    }
  }

  /**
   * Any order, any duplication: once all messages of the registrations took effect, the feed shows the true
   * count plus the deepest deficit on the way. So it never shows too few, and it is exact if and only if no
   * prefix of the first effective deliveries sums below zero.
   */
  lemma FeedNeverUndercounts(repo: Repo, ops: seq<Op>, deliveries: seq<Delivery>, e: Id)
    requires FreshRun(repo, ops) && Live(Run(repo, ops), e)
    requires AllDelivered(Effective(deliveries), Run(repo, ops).outbox)
    ensures ProjectedCount(deliveries, e) == TrueCount(Run(repo, ops), e) + Deficit(Effective(deliveries), e)
    ensures ProjectedCount(deliveries, e) == TrueCount(Run(repo, ops), e)
            <==> forall n | 0 <= n <= |Effective(deliveries)| :: DeltaSum(Effective(deliveries)[..n], e) >= 0
  {
    var log := Effective(deliveries);
    RunKeeps(repo, ops);
    OnlyEffectiveDeliveriesCount(deliveries);
    SumFromLogs(log, Run(repo, ops).outbox, e);
    CountIsSumPlusDeficit(log, e);
    CountIsExactIff(log, e);
  }

  /**
   * For every run of registration operations and every delivery of its outbox that keeps each registration's own
   * messages in order (interleaved across registrations at will, repeated and failing at will), the projected
   * count of every event that is not cancelled ends equal to its confirmed registrations.
   */
  lemma FeedAgrees(repo: Repo, ops: seq<Op>, deliveries: seq<Delivery>, e: Id)
    requires FreshRun(repo, ops) && Live(Run(repo, ops), e)
    requires AllDeliveredInOrder(Effective(deliveries), Run(repo, ops).outbox)
    ensures ProjectedCount(deliveries, e) == TrueCount(Run(repo, ops), e)
  {
    RunKeeps(repo, ops);
    OutboxLivesAreUnbroken(Run(repo, ops));
    InOrderIsDelivered(Effective(deliveries), Run(repo, ops).outbox);
    FeedNeverUndercounts(repo, ops, deliveries, e);
    InOrderNeverClamps(Effective(deliveries), Run(repo, ops).outbox, e);
  }

  /** Midway through such a delivery the count is that of the messages handled so far. */
  lemma FeedFollows(repo: Repo, ops: seq<Op>, deliveries: seq<Delivery>, e: Id)
    requires FreshRun(repo, ops) && InOrder(Effective(deliveries), Run(repo, ops).outbox)
    ensures ProjectedCount(deliveries, e) == DeltaSum(Effective(deliveries), e)
  {
    RunKeeps(repo, ops);
    OutboxLivesAreUnbroken(Run(repo, ops));
    OnlyEffectiveDeliveriesCount(deliveries);
    InOrderNeverClamps(Effective(deliveries), Run(repo, ops).outbox, e);
    CountIsSumPlusDeficit(Effective(deliveries), e);
  }

  /** The operation cancels event `e`: it is published and the actor may. */
  ghost predicate Cancels(s: Store, op: Op, e: Id) {
    && op.CancelEvent? && op.eventId == e && e in s.events && s.events[e].status == Published
    && (s.events[e].organizerId == op.actor || op.admin)
  }

  lemma CanceledEventIsEmpty(s: Store, e: Id)
    requires CanceledIsEmpty(s) && IsCanceled(s, e)
    ensures TrueCount(s, e) == 0
  {
    assert ConfirmedIds(s.regs, e) == {};
  }

  /**
   * A cancelled event is the exception: whatever happens afterwards, nobody holds a seat any more, but the feed goes
   * on showing the count of the moment before the cancellation. It is right if and only if nobody held a seat then.
   */
  lemma CanceledFeedIsStale(repo: Repo, ops: seq<Op>, cancel: Op, more: seq<Op>, deliveries: seq<Delivery>, e: Id)
    requires Cancels(Run(repo, ops), cancel, e) && FreshRun(repo, ops + [cancel] + more)
    requires AllDeliveredInOrder(Effective(deliveries), Run(repo, ops + [cancel] + more).outbox)
    ensures ProjectedCount(deliveries, e) == TrueCount(Run(repo, ops), e)
    ensures var s := Run(repo, ops + [cancel] + more);
            && TrueCount(s, e) == 0
            && (ProjectedCount(deliveries, e) == TrueCount(s, e) <==> TrueCount(Run(repo, ops), e) == 0)
  {
    var mid, all := ops + [cancel], ops + [cancel] + more;
    FreshPrefix(repo, all, |mid|);
    FreshPrefix(repo, all, |ops|);
    assert all[..|mid|] == mid && all[..|ops|] == ops && mid[..|mid| - 1] == ops;
    RunKeeps(repo, ops);
    RunKeeps(repo, all);
    CancellingLeavesTheCountBehind(repo, Run(repo, ops), e, cancel.actor, cancel.admin, cancel.now, cancel.message);
    CanceledCountIsFrozen(repo, mid, more, e);
    CanceledEventIsEmpty(Run(repo, all), e);
    InOrderIsDelivered(Effective(deliveries), Run(repo, all).outbox);
    FeedFollows(repo, all, deliveries, e);
    SumFromLogs(Effective(deliveries), Run(repo, all).outbox, e);
  }

  // ---------------------------------------------------------------- the projector can carry out every message

  /** Generated identifiers are not blank and the clock is set. */
  predicate WellNamed(op: Op) {
    && TimeOf(op) != ZERO_TIME && op.message != ""
    && (op.CancelJoin? || op.CancelRegistration? ==> op.promotedMessage != "")
    && (op.Join? ==> op.registration != "")
    && (op.Create? ==> !Blank(op.event.id))
  }

  ghost predicate Projectable(s: Store) {
    && (forall e | e in s.events :: !Blank(e))
    && (forall id | id in s.regs :: id != "")
    && (forall m | m in s.outbox :: Applicable(m))
  }

  lemma RowIsProjectable(s: Store, id: Id, reg: Registration, m: Envelope)
    requires Projectable(s) && id != "" && reg.id == id && reg.eventId in s.events
    requires m.messageId != "" && m.occurredAt != ZERO_TIME && m.routing.IsJoin()
    requires m == JoinMessage(m.messageId, m.routing, reg, m.payload.PreviousStatus(), m.occurredAt)
    ensures Projectable(Store(s.events, s.regs[id := reg], s.outbox + [m]))
  {
    assert Applicable(m);
  }

  lemma CancelIsProjectable(repo: Repo, s: Store, e: Id, u: Id, now: Time, message: Id, promotedMessage: Id)
    requires Inv(s) && Projectable(s) && now != ZERO_TIME && message != "" && promotedMessage != ""
    ensures Projectable(CancelStep(repo, s, e, u, now, message, promotedMessage).0)
  {
    if ActiveIds(s.regs, e, u) != {} {
      var id := Pick(ActiveIds(s.regs, e, u));
      var s1 := Release(repo, s, id, now, message);
      RowIsProjectable(s, id, s1.regs[id], s1.outbox[|s.outbox|]);
      if s.regs[id].status == Confirmed && WaitingIds(s1.regs, e) != {} {
        var first := FirstWaiting(s1.regs, e);
        var s2 := Promote(s1, first, now, promotedMessage);
        RowIsProjectable(s1, first, s2.regs[first], s2.outbox[|s1.outbox|]);
      }
    }
  }

  lemma EventIsProjectable(s: Store, op: Op)
    requires Inv(s) && Projectable(s) && Fresh(s, op) && WellNamed(op)
    requires op.Create? || op.Update? || op.CancelEvent?
    ensures Projectable(Step(InMemory, s, op).0)
  {
    var s' := Step(InMemory, s, op).0;
    if s' != s {
      var m := s'.outbox[|s.outbox|];
      assert s'.outbox == s.outbox + [m];
      assert m.payload.capacity > 0;
      assert Applicable(m);
    }
  }

  lemma StepIsProjectable(repo: Repo, s: Store, op: Op)
    requires Inv(s) && Projectable(s) && Fresh(s, op) && WellNamed(op)
    ensures Projectable(Step(repo, s, op).0)
  {
    match op
    case CancelJoin(e, u, now, message, promotedMessage) =>
      CancelIsProjectable(repo, s, e, u, now, message, promotedMessage);
    case CancelRegistration(e, _, _, u, now, message, promotedMessage) =>
      CancelIsProjectable(repo, s, e, u, now, message, promotedMessage);
    case Join(_, _, _, _, registration, _) =>
      var s' := Step(repo, s, op).0;
      if s' != s { RowIsProjectable(s, registration, s'.regs[registration], s'.outbox[|s.outbox|]); }
    case _ => EventIsProjectable(s, op);
  }

  /** Nothing the operations write is refused by the projector. */
  lemma {:induction false} RunIsProjectable(repo: Repo, ops: seq<Op>)
    requires FreshRun(repo, ops) && forall op | op in ops :: WellNamed(op)
    ensures Projectable(Run(repo, ops))
  {
    if ops != [] {
      var before, op := ops[..|ops| - 1], ops[|ops| - 1];
      assert op in ops;
      RunIsProjectable(repo, before);
      RunKeeps(repo, before);
      StepIsProjectable(repo, Run(repo, before), op);
    }
  }

  // ---------------------------------------------------------------- the straight delivery

  function Straight(outbox: seq<Envelope>): (deliveries: seq<Delivery>)
    ensures |deliveries| == |outbox|
  {
    seq(|outbox|, i requires 0 <= i < |outbox| => Delivery(outbox[i], NoFault))
  }

  ghost predicate DistinctIds(log: seq<Envelope>) {
    forall i, j | 0 <= i < j < |log| :: log[i].messageId != log[j].messageId
  }

  lemma DistinctIdsGrow(s: Store, m: Envelope)
    requires DistinctIds(s.outbox) && UnusedMessage(s, m.messageId)
    ensures DistinctIds(s.outbox + [m])
  {
    forall i | 0 <= i < |s.outbox| ensures s.outbox[i].messageId != m.messageId {
      assert s.outbox[i] in s.outbox;
    }
  }

  lemma CancelKeepsDistinctIds(repo: Repo, s: Store, e: Id, u: Id, now: Time, message: Id, promotedMessage: Id)
    requires DistinctIds(s.outbox) && UnusedMessage(s, message) && UnusedMessage(s, promotedMessage)
    requires message != promotedMessage
    ensures DistinctIds(CancelStep(repo, s, e, u, now, message, promotedMessage).0.outbox)
  {
    if ActiveIds(s.regs, e, u) != {} {
      var s1 := Release(repo, s, Pick(ActiveIds(s.regs, e, u)), now, message);
      DistinctIdsGrow(s, s1.outbox[|s.outbox|]);
      if WaitingIds(s1.regs, e) != {} {
        var s2 := Promote(s1, FirstWaiting(s1.regs, e), now, promotedMessage);
        DistinctIdsGrow(s1, s2.outbox[|s1.outbox|]);
      }
    }
  }

  lemma StepKeepsDistinctIds(repo: Repo, s: Store, op: Op)
    requires DistinctIds(s.outbox) && Fresh(s, op)
    ensures DistinctIds(Step(repo, s, op).0.outbox)
  {
    match op
    case CancelJoin(e, u, now, message, promotedMessage) =>
      CancelKeepsDistinctIds(repo, s, e, u, now, message, promotedMessage);
    case CancelRegistration(e, _, _, u, now, message, promotedMessage) =>
      CancelKeepsDistinctIds(repo, s, e, u, now, message, promotedMessage);
    case _ =>
      var s' := Step(repo, s, op).0;
      if s'.outbox != s.outbox { DistinctIdsGrow(s, s'.outbox[|s.outbox|]); }
  }

  lemma {:induction false} OutboxIdsAreDistinct(repo: Repo, ops: seq<Op>)
    requires FreshRun(repo, ops)
    ensures DistinctIds(Run(repo, ops).outbox)
  {
    if ops != [] {
      OutboxIdsAreDistinct(repo, ops[..|ops| - 1]);
      StepKeepsDistinctIds(repo, Run(repo, ops[..|ops| - 1]), ops[|ops| - 1]);
    }
  }

  lemma {:induction false} StraightIsEffective(outbox: seq<Envelope>)
    requires DistinctIds(outbox) && forall m | m in outbox :: Applicable(m)
    ensures Effective(Straight(outbox)) == outbox
  {
    if outbox != [] {
      var shorter, last := outbox[..|outbox| - 1], outbox[|outbox| - 1];
      StraightIsEffective(shorter);
      assert Straight(outbox)[..|outbox| - 1] == Straight(shorter);
      assert forall m | m in shorter :: m.messageId != last.messageId;
      assert shorter + [last] == outbox;
    }
  }

  /** In particular publishing the outbox once, in the order written, gives the true counts. */
  lemma StraightDeliveryAgrees(repo: Repo, ops: seq<Op>, e: Id)
    requires FreshRun(repo, ops) && Live(Run(repo, ops), e)
    requires forall op | op in ops :: WellNamed(op)
    ensures ProjectedCount(Straight(Run(repo, ops).outbox), e) == TrueCount(Run(repo, ops), e)
  {
    OutboxIdsAreDistinct(repo, ops);
    RunIsProjectable(repo, ops);
    StraightIsEffective(Run(repo, ops).outbox);
    FeedAgrees(repo, ops, Straight(Run(repo, ops).outbox), e);
  }
}
