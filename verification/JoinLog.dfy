/**
 * What a sequence of messages says about registrations: the count change each one carries, the
 * messages of one registration, and the life cycle that those messages trace out.
 */
module JoinLog {
  import opened Messages

  /** The change a message makes to the confirmed count of event `e`. */
  function Delta(m: Envelope, e: Id): int {
    if m.payload.EventId() != e then 0
    else match m.routing
      case JoinConfirmed => 1
      case JoinPromoted => 1
      case JoinCanceled => if m.payload.PreviousStatus() == Confirmed then -1 else 0
      case _ => 0
  }

  function DeltaSum(log: seq<Envelope>, e: Id): int {
    if log == [] then 0 else DeltaSum(log[..|log| - 1], e) + Delta(log[|log| - 1], e)
  }

  predicate About(m: Envelope, r: Id) { m.routing.IsJoin() && m.aggregateId == r }

  /** The join messages of registration `r`, in the order they appear. */
  function LogOf(log: seq<Envelope>, r: Id): seq<Envelope> {
    if log == [] then [] else
    var rest := LogOf(log[..|log| - 1], r);
    if About(log[|log| - 1], r) then rest + [log[|log| - 1]] else rest
  }

  function Without(log: seq<Envelope>, r: Id): (rest: seq<Envelope>)
    ensures |rest| <= |log|
  {
    if log == [] then [] else
    var rest := Without(log[..|log| - 1], r);
    if About(log[|log| - 1], r) then rest else rest + [log[|log| - 1]]
  }

  // ---------------------------------------------------------------- life cycle

  /** What the messages of one registration amount to. */
  datatype Life = Unborn | Waiting(event: Id) | Holding(event: Id) | Released(event: Id) | Broken

  function Next(life: Life, m: Envelope): Life {
    var e := m.payload.EventId();
    match (life, m.routing)
    case (Unborn, JoinConfirmed) => Holding(e)
    case (Unborn, JoinWaitlisted) => Waiting(e)
    case (Waiting(was), JoinPromoted) => if was == e then Holding(e) else Broken
    case (Waiting(was), JoinCanceled) =>
      if was == e && m.payload.PreviousStatus() == Waitlisted then Released(e) else Broken
    case (Holding(was), JoinCanceled) =>
      if was == e && m.payload.PreviousStatus() == Confirmed then Released(e) else Broken
    case _ => Broken
  }

  function Lifecycle(log: seq<Envelope>): Life {
    if log == [] then Unborn else Next(Lifecycle(log[..|log| - 1]), log[|log| - 1])
  }

  function Held(life: Life, e: Id): int { if life == Holding(e) then 1 else 0 }

  /** A message that fits the life changes the count by exactly what happens to the seat. */
  lemma DeltaIsSeatChange(life: Life, m: Envelope, e: Id)
    requires Next(life, m) != Broken
    ensures Delta(m, e) == Held(Next(life, m), e) - Held(life, e)
  {
  }

  /** Along an unbroken life the deltas add up to one exactly while the seat is held. */
  lemma {:induction false} LifeIsItsSum(log: seq<Envelope>, e: Id)
    requires Lifecycle(log) != Broken
    ensures DeltaSum(log, e) == Held(Lifecycle(log), e)
  {
    if log != [] {
      LifeIsItsSum(log[..|log| - 1], e);
      DeltaIsSeatChange(Lifecycle(log[..|log| - 1]), log[|log| - 1], e);
    }
  }

  lemma {:induction false} PrefixIsUnbroken(log: seq<Envelope>, n: nat)
    requires Lifecycle(log) != Broken && n <= |log|
    ensures Lifecycle(log[..n]) != Broken
  {
    if n < |log| {
      PrefixIsUnbroken(log[..|log| - 1], n);
      assert log[..|log| - 1][..n] == log[..n];
    } else {
      assert log[..n] == log;
    }
  }

  /** What one more message does to the sums and to the logs. */
  lemma OneMore(log: seq<Envelope>, m: Envelope)
    ensures forall e: Id :: DeltaSum(log + [m], e) == DeltaSum(log, e) + Delta(m, e)
    ensures forall r: Id :: LogOf(log + [m], r) == if About(m, r) then LogOf(log, r) + [m] else LogOf(log, r)
    ensures Lifecycle(log + [m]) == Next(Lifecycle(log), m)
  {
    assert (log + [m])[..|log + [m]| - 1] == log;
  }

  // ---------------------------------------------------------------- splitting a log by registration

  lemma {:induction false} SumSplits(log: seq<Envelope>, r: Id, e: Id)
    ensures DeltaSum(log, e) == DeltaSum(LogOf(log, r), e) + DeltaSum(Without(log, r), e)
  {
    if log != [] {
      SumSplits(log[..|log| - 1], r, e);
    }
  }

  lemma {:induction false} LogsWithout(log: seq<Envelope>, r: Id, q: Id)
    ensures LogOf(Without(log, r), q) == if q == r then [] else LogOf(log, q)
  {
    if log != [] {
      LogsWithout(log[..|log| - 1], r, q);
    }
  }

  lemma {:induction false} LogOfPrefix(log: seq<Envelope>, n: nat, r: Id)
    requires n <= |log|
    ensures |LogOf(log[..n], r)| <= |LogOf(log, r)|
    ensures LogOf(log[..n], r) == LogOf(log, r)[..|LogOf(log[..n], r)|]
  {
    if n < |log| {
      LogOfPrefix(log[..|log| - 1], n, r);
      assert log[..|log| - 1][..n] == log[..n];
    } else {
      assert log[..n] == log;
    }
  }

  lemma {:induction false} SumOfConcat(a: seq<Envelope>, b: seq<Envelope>, e: Id)
    ensures DeltaSum(a + b, e) == DeltaSum(a, e) + DeltaSum(b, e)
  {
    if b == [] {
      assert a + b == a;
    } else {
      assert (a + b)[..|a + b| - 1] == a + b[..|b| - 1];
      SumOfConcat(a, b[..|b| - 1], e);
    }
  }

  /** Taking one message out of a log takes out its delta and one copy of it. */
  lemma SumTakesOutOne(log: seq<Envelope>, k: nat, e: Id)
    requires k < |log|
    ensures multiset(log[..k] + log[k + 1..]) == multiset(log) - multiset{log[k]}
    ensures DeltaSum(log, e) == DeltaSum(log[..k] + log[k + 1..], e) + Delta(log[k], e)
  {
    var m, before, after := log[k], log[..k], log[k + 1..];
    assert log == before + ([m] + after);
    SumOfConcat(before, [m] + after, e);
    SumOfConcat([m], after, e);
    SumOfConcat(before, after, e);
    assert [m][..0] == [];
    assert DeltaSum([m], e) == Delta(m, e);
  }

  lemma PlaceIn(a: seq<Envelope>, b: seq<Envelope>) returns (k: nat)
    requires a != [] && multiset(a) == multiset(b)
    ensures k < |b| && b[k] == a[0]
  {
    assert a[0] in multiset(b);
    k :| 0 <= k < |b| && b[k] == a[0];
  }

  /** The sum of a log does not depend on its order. */
  lemma {:induction false} SumIgnoresOrder(a: seq<Envelope>, b: seq<Envelope>, e: Id)
    requires multiset(a) == multiset(b)
    ensures DeltaSum(a, e) == DeltaSum(b, e)
    decreases |a|
  {
    if a == [] {
      assert |multiset(b)| == 0;
    } else {
      var k := PlaceIn(a, b);
      SumTakesOutOne(a, 0, e);
      SumTakesOutOne(b, k, e);
      SumIgnoresOrder(a[..0] + a[1..], b[..k] + b[k + 1..], e);
    }
  }

  /** Two logs with the same messages for every registration have the same sums. */
  lemma {:induction false} SumFromLogs(a: seq<Envelope>, b: seq<Envelope>, e: Id)
    requires forall r: Id :: multiset(LogOf(a, r)) == multiset(LogOf(b, r))
    ensures DeltaSum(a, e) == DeltaSum(b, e)
    decreases |a| + |b|
  {
    if a != [] && !a[|a| - 1].routing.IsJoin() {
      SumFromLogs(a[..|a| - 1], b, e);
    } else if b != [] && !b[|b| - 1].routing.IsJoin() {
      SumFromLogs(a, b[..|b| - 1], e);
    } else if a != [] || b != [] {
      var r := if a != [] then a[|a| - 1].aggregateId else b[|b| - 1].aggregateId;
      forall q: Id ensures multiset(LogOf(Without(a, r), q)) == multiset(LogOf(Without(b, r), q)) {
        LogsWithout(a, r, q);
        LogsWithout(b, r, q);
      }
      SumFromLogs(Without(a, r), Without(b, r), e);
      SumSplits(a, r, e);
      SumSplits(b, r, e);
      SumIgnoresOrder(LogOf(a, r), LogOf(b, r), e);
    }
  }

  /** If every registration's own messages trace an unbroken life, no sum is negative. */
  lemma {:induction false} UnbrokenLivesSumUp(log: seq<Envelope>, e: Id)
    requires forall r: Id :: Lifecycle(LogOf(log, r)) != Broken
    ensures DeltaSum(log, e) >= 0
    decreases |log|
  {
    if log != [] {
      var last := log[|log| - 1];
      if last.routing.IsJoin() {
        var r := last.aggregateId;
        forall q: Id ensures Lifecycle(LogOf(Without(log, r), q)) != Broken {
          LogsWithout(log, r, q);
        }
        UnbrokenLivesSumUp(Without(log, r), e);
        SumSplits(log, r, e);
        LifeIsItsSum(LogOf(log, r), e);
      } else {
        var shorter := log[..|log| - 1];
        forall q: Id ensures Lifecycle(LogOf(shorter, q)) != Broken {
          assert LogOf(log, q) == LogOf(shorter, q);
        }
        UnbrokenLivesSumUp(shorter, e);
      }
    }
  }
}
