/**
 * In which order messages take effect in the feed: each registration's own messages do so in the order written if
 * and only if every message waits until the earlier ones about its registration have been processed.
 */
module EffectOrder {
  import opened Messages
  import opened JoinLog
  import opened FeedProjection
  import opened Pipeline

  // ---------------------------------------------------------------- logs in time order

  predicate EarlierIn(log: seq<Envelope>, i: nat, j: nat) {
    i < j < |log| ==> log[i].occurredAt < log[j].occurredAt
  }

  ghost predicate Increasing(log: seq<Envelope>) {
    forall i, j | 0 <= i < j < |log| :: EarlierIn(log, i, j)
  }

  /** Each registration's messages carry strictly increasing times. */
  ghost predicate TimedLogs(log: seq<Envelope>) { forall r: Id :: Increasing(LogOf(log, r)) }

  lemma TimesRise(log: seq<Envelope>)
    requires Increasing(log)
    ensures forall i, j | 0 <= i < j < |log| :: log[i].occurredAt < log[j].occurredAt
  {
    forall i, j | 0 <= i < j < |log| ensures log[i].occurredAt < log[j].occurredAt {
      assert EarlierIn(log, i, j);
    }
  }

  lemma {:induction false} LogMembers(log: seq<Envelope>, r: Id)
    ensures forall m :: m in LogOf(log, r) <==> m in log && About(m, r)
  {
    if log != [] {
      LogMembers(log[..|log| - 1], r);
      assert log == log[..|log| - 1] + [log[|log| - 1]];
    }
  }

  /** `a` is an earlier message of the same registration as `b`. */
  predicate Sibling(a: Envelope, b: Envelope) {
    a.routing.IsJoin() && b.routing.IsJoin() && a.aggregateId == b.aggregateId && a.occurredAt < b.occurredAt
  }

  // ---------------------------------------------------------------- in order, or closed

  /** Every message stands after the earlier siblings there are in `all`. */
  ghost predicate Closed(log: seq<Envelope>, all: seq<Envelope>) {
    forall j, a | 0 <= j < |log| && a in all && Sibling(a, log[j]) :: a in log[..j]
  }

  ghost predicate NoneTwice(log: seq<Envelope>) { forall j | 0 <= j < |log| :: log[j] !in log[..j] }

  lemma ShorterIsClosed(log: seq<Envelope>, all: seq<Envelope>)
    requires log != []
    ensures Closed(log, all) ==> Closed(log[..|log| - 1], all)
    ensures NoneTwice(log) ==> NoneTwice(log[..|log| - 1])
  {
    var shorter := log[..|log| - 1];
    assert forall j | 0 <= j < |shorter| :: shorter[..j] == log[..j] && shorter[j] == log[j];
  }

  lemma RestIsNew(done: seq<Envelope>, whole: seq<Envelope>)
    requires Increasing(whole) && done <= whole
    ensures done == whole || (|done| < |whole| && whole[|done|] !in done)
  {
    TimesRise(whole);
  }

  lemma EarlierAreThere(before: seq<Envelope>, m: Envelope, all: seq<Envelope>, r: Id, p: nat)
    requires Increasing(LogOf(all, r)) && p < |LogOf(all, r)| && LogOf(all, r)[p] == m
    requires forall a | a in all && Sibling(a, m) :: a in before
    ensures forall k | 0 <= k < p :: LogOf(all, r)[k] in LogOf(before, r)
  {
    var whole := LogOf(all, r);
    LogMembers(before, r);
    LogMembers(all, r);
    assert m in whole;
    forall k | 0 <= k < p ensures whole[k] in LogOf(before, r) {
      assert whole[k] in whole && EarlierIn(whole, k, p);
    }
  }

  lemma PrefixGrows(done: seq<Envelope>, whole: seq<Envelope>, p: nat)
    requires done <= whole && p < |whole| && whole[p] !in done && forall k | 0 <= k < p :: whole[k] in done
    requires done == whole || (|done| < |whole| && whole[|done|] !in done)
    ensures done + [whole[p]] <= whole
  {
    assert forall k | 0 <= k < |done| :: whole[k] == done[k] && done[k] in done;
  }

  /** A message all of whose earlier siblings are there is the next one of its registration. */
  lemma NextOfRegistration(before: seq<Envelope>, m: Envelope, all: seq<Envelope>, r: Id)
    requires Increasing(LogOf(all, r)) && LogOf(before, r) <= LogOf(all, r)
    requires m in all && About(m, r) && m !in before && forall a | a in all && Sibling(a, m) :: a in before
    ensures LogOf(before, r) + [m] <= LogOf(all, r)
  {
    var done, whole := LogOf(before, r), LogOf(all, r);
    LogMembers(before, r);
    LogMembers(all, r);
    var p :| 0 <= p < |whole| && whole[p] == m;
    EarlierAreThere(before, m, all, r, p);
    RestIsNew(done, whole);
    PrefixGrows(done, whole, p);
  }

  lemma {:induction false} ClosedIsInOrder(log: seq<Envelope>, all: seq<Envelope>, r: Id)
    requires TimedLogs(all) && Closed(log, all) && NoneTwice(log) && forall m | m in log :: m in all
    ensures LogOf(log, r) <= LogOf(all, r)
  {
    if log != [] {
      var before, m := log[..|log| - 1], log[|log| - 1];
      assert log == before + [m];
      ShorterIsClosed(log, all);
      ClosedIsInOrder(before, all, r);
      if About(m, r) {
        assert Increasing(LogOf(all, r));
        NextOfRegistration(before, m, all, r);
      }
    }
  }

  lemma EarlierSiblingIsThere(log: seq<Envelope>, all: seq<Envelope>, j: nat, a: Envelope)
    requires TimedLogs(all) && InOrder(log, all) && j < |log| && a in all && Sibling(a, log[j])
    ensures a in log[..j]
  {
    var r := a.aggregateId;
    var before, done, whole := log[..j], LogOf(log[..j], r), LogOf(all, r);
    assert log[..j + 1] == before + [log[j]];
    OneMore(before, log[j]);
    LogOfPrefix(log, j + 1, r);
    assert LogOf(log, r) <= whole && Increasing(whole);
    assert whole[|done|] == log[j] && done == whole[..|done|];
    LogMembers(all, r);
    LogMembers(before, r);
    TimesRise(whole);
    var p :| 0 <= p < |whole| && whole[p] == a;
    assert p < |done| && done[p] == a;
  }

  lemma InOrderIsClosed(log: seq<Envelope>, all: seq<Envelope>)
    requires TimedLogs(all) && InOrder(log, all)
    ensures Closed(log, all)
  {
    forall j, a | 0 <= j < |log| && a in all && Sibling(a, log[j]) ensures a in log[..j] {
      EarlierSiblingIsThere(log, all, j, a);
    }
  }

  // ---------------------------------------------------------------- what the projector does

  lemma {:induction false} EffectiveIsOnce(deliveries: seq<Delivery>)
    ensures NoneTwice(Effective(deliveries))
    ensures forall m | m in Effective(deliveries) :: exists d :: d in deliveries && d.envelope == m
  {
    if deliveries != [] {
      var before, d := deliveries[..|deliveries| - 1], deliveries[|deliveries| - 1];
      EffectiveIsOnce(before);
      assert deliveries == before + [d];
      var log := Effective(before);
      if Effective(deliveries) != log {
        assert d.envelope !in log;
        assert forall j | 0 <= j < |log| :: (log + [d.envelope])[..j] == log[..j];
        assert (log + [d.envelope])[..|log|] == log;
      }
    }
  }

  /**
   * However deliveries fail, repeat and interleave: each registration's messages take effect in the order written
   * if and only if each takes effect after all earlier ones of its registration.
   */
  lemma OrderOfEffectsIff(deliveries: seq<Delivery>, all: seq<Envelope>)
    requires TimedLogs(all) && forall m | m in Effective(deliveries) :: m in all
    ensures InOrder(Effective(deliveries), all) <==> Closed(Effective(deliveries), all)
  {
    EffectiveIsOnce(deliveries);
    if Closed(Effective(deliveries), all) {
      forall r: Id ensures LogOf(Effective(deliveries), r) <= LogOf(all, r) {
        ClosedIsInOrder(Effective(deliveries), all, r);
      }
    } else if InOrder(Effective(deliveries), all) {
      InOrderIsClosed(Effective(deliveries), all);
    }
  }

  ghost predicate OneEnvelopePerId(all: seq<Envelope>) {
    forall a, b | a in all && b in all && a.messageId == b.messageId :: a == b
  }

  predicate TakesEffect(before: seq<Delivery>, d: Delivery) {
    Commits(d) && d.envelope.messageId !in FeedAfter(before).processed
  }

  /** What a projector could check: a message takes effect only once every earlier sibling has been processed. */
  ghost predicate EachWaits(deliveries: seq<Delivery>, all: seq<Envelope>) {
    deliveries == [] ||
    var before, d := deliveries[..|deliveries| - 1], deliveries[|deliveries| - 1];
    && EachWaits(before, all)
    && (TakesEffect(before, d) ==>
          forall a | a in all && Sibling(a, d.envelope) :: a.messageId in FeedAfter(before).processed)
  }

  lemma ProcessedIsEffective(deliveries: seq<Delivery>, all: seq<Envelope>, a: Envelope)
    requires OneEnvelopePerId(all) && a in all && forall m | m in Effective(deliveries) :: m in all
    ensures a.messageId in FeedAfter(deliveries).processed <==> a in Effective(deliveries)
  {
    OnlyEffectiveDeliveriesCount(deliveries);
  }

  lemma LongerIsClosedIff(log: seq<Envelope>, m: Envelope, all: seq<Envelope>)
    ensures Closed(log + [m], all) <==> Closed(log, all) && forall a | a in all && Sibling(a, m) :: a in log
  {
    var longer := log + [m];
    assert forall j | 0 <= j < |log| :: longer[..j] == log[..j] && longer[j] == log[j];
    assert longer[..|log|] == log && longer[|log|] == m;
    if Closed(longer, all) {
      forall j, a | 0 <= j < |log| && a in all && Sibling(a, log[j]) ensures a in log[..j] {
        assert Sibling(a, longer[j]);
      }
    }
  }

  /** Waiting is what keeps the effects closed. */
  lemma {:induction false} WaitingIsClosedIff(deliveries: seq<Delivery>, all: seq<Envelope>)
    requires OneEnvelopePerId(all) && forall m | m in Effective(deliveries) :: m in all
    ensures EachWaits(deliveries, all) <==> Closed(Effective(deliveries), all)
  {
    if deliveries != [] {
      var before, d := deliveries[..|deliveries| - 1], deliveries[|deliveries| - 1];
      WaitingIsClosedIff(before, all);
      OnlyEffectiveDeliveriesCount(before);
      if TakesEffect(before, d) {
        LongerIsClosedIff(Effective(before), d.envelope, all);
        forall a | a in all ensures a.messageId in FeedAfter(before).processed <==> a in Effective(before) {
          ProcessedIsEffective(before, all, a);
        }
      }
    }
  }

  lemma WholePrefix(log: seq<Envelope>, all: seq<Envelope>, r: Id)
    requires LogOf(log, r) <= LogOf(all, r) && Increasing(LogOf(all, r)) && forall m | m in all :: m in log
    ensures LogOf(log, r) == LogOf(all, r)
  {
    var done, whole := LogOf(log, r), LogOf(all, r);
    LogMembers(log, r);
    LogMembers(all, r);
    RestIsNew(done, whole);
  }

  /** If all messages took effect, and each waited, they took effect in the order written. */
  lemma AllInOrder(deliveries: seq<Delivery>, all: seq<Envelope>)
    requires TimedLogs(all) && OneEnvelopePerId(all) && EachWaits(deliveries, all)
    requires forall m :: m in Effective(deliveries) <==> m in all
    ensures AllDeliveredInOrder(Effective(deliveries), all)
  {
    WaitingIsClosedIff(deliveries, all);
    OrderOfEffectsIff(deliveries, all);
    forall r: Id ensures LogOf(Effective(deliveries), r) == LogOf(all, r) {
      WholePrefix(Effective(deliveries), all, r);
    }
  }
}
