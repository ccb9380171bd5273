/** The feed projector: one transaction per delivery, a claim per message id, a counter clamped at zero. */
module FeedProjection {
  import opened Collections
  import opened Messages
  import opened JoinLog

  datatype Details = Details(title: string, city: string, venue: string, startsAt: Option<Time>, capacity: int,
                             status: Status)

  /** What the columns of a feed row hold before any event message arrived. */
  const DEFAULT_DETAILS := Details("", "", "", None, 0, Published)

  datatype FeedRow = FeedRow(details: Details, confirmedCount: int)

  type Rows = map<Id, FeedRow>

  datatype Feed = Feed(processed: set<Id>, rows: Rows)

  /** How the database treats one delivery: fine, rolled back, or committed although an error is reported. */
  datatype Fault = NoFault | RolledBack | AnswerLost

  datatype Delivery = Delivery(envelope: Envelope, fault: Fault)

  datatype Handled = Processed | Duplicate | Failed

  function RowOf(rows: Rows, e: Id): FeedRow { if e in rows then rows[e] else FeedRow(DEFAULT_DETAILS, 0) }

  function CountOf(rows: Rows, e: Id): int { RowOf(rows, e).confirmedCount }

  function DetailsIn(m: Envelope): Details
    requires m.payload.Fields?
  {
    Details(m.payload.title, m.payload.city, m.payload.venue,
            if m.payload.startsAt.At? then Some(m.payload.startsAt.time) else None,
            m.payload.capacity, m.payload.status)
  }

  function ChangesCount(m: Envelope): bool {
    m.routing.JoinConfirmed? || m.routing.JoinPromoted?
    || (m.routing.JoinCanceled? && m.payload.PreviousStatus() == Confirmed)
  }

  /** Messages `apply` carries out; the rest fail every time they are delivered. */
  predicate Applicable(m: Envelope) {
    && m.Valid()
    && (m.routing.IsEvent() || m.routing.IsJoin())
    && (m.routing.IsEvent() ==> m.payload.eventId != "" && m.payload.startsAt != Malformed && m.payload.capacity >= 0)
    && (ChangesCount(m) ==> !Blank(m.payload.eventId))
  }

  function ApplyTo(rows: Rows, m: Envelope): Rows
    requires Applicable(m)
  {
    var e := m.payload.eventId;
    if m.routing.IsEvent() then rows[e := RowOf(rows, e).(details := DetailsIn(m))]
    else if ChangesCount(m) then
      rows[e := RowOf(rows, e).(confirmedCount := Max(CountOf(rows, e) + Delta(m, e), 0))]
    else rows
  }

  predicate Commits(d: Delivery) { Applicable(d.envelope) && d.fault != RolledBack }

  function Handle(feed: Feed, d: Delivery): Feed {
    if !Commits(d) || d.envelope.messageId in feed.processed then feed
    else Feed(feed.processed + {d.envelope.messageId}, ApplyTo(feed.rows, d.envelope))
  }

  function FeedAfter(deliveries: seq<Delivery>): Feed {
    if deliveries == [] then Feed({}, map[])
    else Handle(FeedAfter(deliveries[..|deliveries| - 1]), deliveries[|deliveries| - 1])
  }

  // ---------------------------------------------------------------- the projector

  class Projector {
    var processed: set<Id>
    var rows: Rows

    function Contents(): Feed
      reads this
    {
      Feed(processed, rows)
    }

    constructor ()
      ensures Contents() == FeedAfter([])
    {
      processed, rows := {}, map[];
    }

    /** The claim and the projection change happen in one transaction; an error before the commit undoes both. */
    method HandleEnvelope(envelope: Envelope, fault: Fault) returns (result: Handled)
      modifies this
      ensures Contents() == Handle(old(Contents()), Delivery(envelope, fault))
      ensures result == Processed <==>
                Applicable(envelope) && fault == NoFault && envelope.messageId !in old(processed)
      ensures result == Duplicate <==>
                envelope.Valid() && fault == NoFault && envelope.messageId in old(processed)
    {
      if !envelope.Valid() {
        return Failed;
      }
      var txProcessed, txRows := processed, rows;
      var claimed := envelope.messageId !in txProcessed;
      txProcessed := txProcessed + {envelope.messageId};
      if !claimed {
        return if fault == NoFault then Duplicate else Failed;
      }
      var ok;
      ok, txRows := Apply(txRows, envelope);
      if !ok || fault == RolledBack {
        return Failed;
      }
      processed, rows := txProcessed, txRows;
      return if fault == NoFault then Processed else Failed;
    }

    static method Apply(rows: Rows, m: Envelope) returns (ok: bool, rows': Rows)
      requires m.Valid()
      ensures ok <==> Applicable(m)
      ensures rows' == if ok then ApplyTo(rows, m) else rows
    {
      match m.routing
      case EventPublished | EventUpdated | EventCanceled =>
        ok, rows' := UpsertEvent(rows, m);
      case JoinConfirmed =>
        ok, rows' := ChangeConfirmedCount(rows, m.payload.eventId, 1);
      case JoinWaitlisted =>
        ok, rows' := true, rows;
      case JoinCanceled =>
        if m.payload.previousStatus != Confirmed {
          ok, rows' := true, rows;
        } else {
          ok, rows' := ChangeConfirmedCount(rows, m.payload.eventId, -1);
        }
      case JoinPromoted =>
        ok, rows' := ChangeConfirmedCount(rows, m.payload.eventId, 1);
      case Other(_) =>
        ok, rows' := false, rows;
    }

    static method UpsertEvent(rows: Rows, m: Envelope) returns (ok: bool, rows': Rows)
      requires m.payload.Fields?
      ensures ok <==> m.payload.eventId != "" && m.payload.startsAt != Malformed && m.payload.capacity >= 0
      ensures rows' == if !ok then rows else
                       rows[m.payload.eventId := RowOf(rows, m.payload.eventId).(details := DetailsIn(m))]
    {
      var e := m.payload.eventId;
      if e == "" || m.payload.startsAt == Malformed || m.payload.capacity < 0 {
        return false, rows;
      }
      if e in rows {
        return true, rows[e := rows[e].(details := DetailsIn(m))];
      }
      return true, rows[e := FeedRow(DetailsIn(m), 0)];
    }

    static method ChangeConfirmedCount(rows: Rows, e: Id, delta: int) returns (ok: bool, rows': Rows)
      ensures ok <==> !Blank(e)
      ensures rows' == if !ok then rows else
                       rows[e := RowOf(rows, e).(confirmedCount := Max(CountOf(rows, e) + delta, 0))]
    {
      if Blank(e) {
        return false, rows;
      }
      if e in rows {
        return true, rows[e := rows[e].(confirmedCount := Max(rows[e].confirmedCount + delta, 0))];
      }
      return true, rows[e := FeedRow(DEFAULT_DETAILS, Max(delta, 0))];
    }
  }

  // ---------------------------------------------------------------- duplicates and failures leave no trace

  function IdsOf(log: seq<Envelope>): set<Id> { set m | m in log :: m.messageId }

  /** The deliveries that count: the first of each message id whose transaction commits. */
  function Effective(deliveries: seq<Delivery>): (log: seq<Envelope>)
    ensures forall m | m in log :: Applicable(m)
    ensures |log| <= |deliveries|
  {
    if deliveries == [] then [] else
    var before := Effective(deliveries[..|deliveries| - 1]);
    var d := deliveries[|deliveries| - 1];
    if Commits(d) && d.envelope.messageId !in IdsOf(before) then before + [d.envelope] else before
  }

  function RowsAfter(log: seq<Envelope>): Rows
    requires forall m | m in log :: Applicable(m)
  {
    if log == [] then map[] else ApplyTo(RowsAfter(log[..|log| - 1]), log[|log| - 1])
  }

  lemma RowsAfterOneMore(log: seq<Envelope>, m: Envelope)
    requires Applicable(m) && forall x | x in log :: Applicable(x)
    ensures forall x | x in log + [m] :: Applicable(x)
    ensures RowsAfter(log + [m]) == ApplyTo(RowsAfter(log), m)
    ensures IdsOf(log + [m]) == IdsOf(log) + {m.messageId}
  {
    assert (log + [m])[..|log + [m]| - 1] == log;
  }

  /** Handling any sequence of deliveries is handling the effective ones, each once. */
  lemma {:induction false} OnlyEffectiveDeliveriesCount(deliveries: seq<Delivery>)
    ensures FeedAfter(deliveries) == Feed(IdsOf(Effective(deliveries)), RowsAfter(Effective(deliveries)))
  {
    if deliveries != [] {
      var d := deliveries[|deliveries| - 1];
      var before := Effective(deliveries[..|deliveries| - 1]);
      OnlyEffectiveDeliveriesCount(deliveries[..|deliveries| - 1]);
      if Commits(d) && d.envelope.messageId !in IdsOf(before) {
        RowsAfterOneMore(before, d.envelope);
      }
    }
  }

  /** Delivering again what was already processed, at any point, changes nothing that follows. */
  lemma {:induction false} RepeatIsInvisible(before: seq<Delivery>, again: Delivery, after: seq<Delivery>)
    requires again.envelope.messageId in FeedAfter(before).processed
    ensures FeedAfter(before + [again] + after) == FeedAfter(before + after)
  {
    if after == [] {
      assert (before + [again] + after)[..|before|] == before && before + after == before;
    } else {
      var shorter := after[..|after| - 1];
      RepeatIsInvisible(before, again, shorter);
      assert (before + [again] + after)[..|before| + |after|] == before + [again] + shorter;
      assert (before + after)[..|before + after| - 1] == before + shorter;
    }
  }

  /** A delivery that fails leaves no trace, neither a claim nor an effect. */
  lemma {:induction false} FailureIsInvisible(before: seq<Delivery>, failed: Delivery, after: seq<Delivery>)
    requires !Commits(failed)
    ensures FeedAfter(before + [failed] + after) == FeedAfter(before + after)
  {
    if after == [] {
      assert (before + [failed] + after)[..|before|] == before && before + after == before;
    } else {
      var shorter := after[..|after| - 1];
      FailureIsInvisible(before, failed, shorter);
      assert (before + [failed] + after)[..|before| + |after|] == before + [failed] + shorter;
      assert (before + after)[..|before + after| - 1] == before + shorter;
    }
  }

  /** Exactly which messages have an effect; the others fail however often they are delivered. */
  lemma ApplicableIff(m: Envelope)
    ensures Applicable(m)
       <==> && m.messageId != "" && m.aggregateType != "" && m.aggregateId != "" && m.occurredAt != ZERO_TIME
            && m.payload.Fields?
            && match m.routing
               case EventPublished | EventUpdated | EventCanceled =>
                 m.payload.eventId != "" && m.payload.startsAt != Malformed && m.payload.capacity >= 0
               case JoinConfirmed | JoinPromoted => !Blank(m.payload.eventId)
               case JoinCanceled => m.payload.previousStatus == Confirmed ==> !Blank(m.payload.eventId)
               case JoinWaitlisted => true
               case Other(_) => false
  {
  }

  /** A lost answer changes nothing about the effect: the message is redelivered and found to be processed. */
  lemma LostAnswerStillCounts(before: seq<Delivery>, m: Envelope)
    ensures FeedAfter(before + [Delivery(m, AnswerLost)]) == FeedAfter(before + [Delivery(m, NoFault)])
    ensures Applicable(m) ==> m.messageId in FeedAfter(before + [Delivery(m, AnswerLost)]).processed
  {
    assert (before + [Delivery(m, AnswerLost)])[..|before|] == before;
    assert (before + [Delivery(m, NoFault)])[..|before|] == before;
  }

  // ---------------------------------------------------------------- the clamped counter

  /** How far the running sum ever falls below zero. */
  function Deficit(log: seq<Envelope>, e: Id): (d: int)
    ensures d >= 0 && d >= -DeltaSum(log, e)
  {
    if log == [] then 0 else Max(Deficit(log[..|log| - 1], e), -DeltaSum(log, e))
  }

  lemma {:induction false} DeficitIsWorstPrefix(log: seq<Envelope>, e: Id)
    ensures forall n | 0 <= n <= |log| :: DeltaSum(log[..n], e) >= -Deficit(log, e)
    ensures exists n :: 0 <= n <= |log| && DeltaSum(log[..n], e) == -Deficit(log, e)
  {
    assert log[..|log|] == log;
    if log == [] {
      assert DeltaSum(log[..0], e) == 0;
    } else {
      var shorter := log[..|log| - 1];
      DeficitIsWorstPrefix(shorter, e);
      assert forall n | 0 <= n < |log| :: shorter[..n] == log[..n];
      if Deficit(log, e) != -DeltaSum(log, e) {
        var n :| 0 <= n <= |shorter| && DeltaSum(shorter[..n], e) == -Deficit(shorter, e);
        assert DeltaSum(log[..n], e) == -Deficit(log, e);
      } else {
        assert DeltaSum(log[..|log|], e) == -Deficit(log, e);
      }
    }
  }

  lemma OneMessageClamps(rows: Rows, m: Envelope, e: Id)
    requires Applicable(m) && CountOf(rows, e) >= 0
    ensures CountOf(ApplyTo(rows, m), e) == Max(CountOf(rows, e) + Delta(m, e), 0)
  {
  }

  /** The projected count is the sum of all deltas plus the deepest deficit on the way. */
  lemma {:induction false} CountIsSumPlusDeficit(log: seq<Envelope>, e: Id)
    requires forall m | m in log :: Applicable(m)
    ensures CountOf(RowsAfter(log), e) == DeltaSum(log, e) + Deficit(log, e)
  {
    if log != [] {
      CountIsSumPlusDeficit(log[..|log| - 1], e);
      OneMessageClamps(RowsAfter(log[..|log| - 1]), log[|log| - 1], e);
    }
  }

  /** The count is exact if and only if no prefix of the effective deliveries sums below zero. */
  lemma CountIsExactIff(log: seq<Envelope>, e: Id)
    requires forall m | m in log :: Applicable(m)
    ensures CountOf(RowsAfter(log), e) >= DeltaSum(log, e)
    ensures CountOf(RowsAfter(log), e) == DeltaSum(log, e)
            <==> forall n | 0 <= n <= |log| :: DeltaSum(log[..n], e) >= 0
  {
    CountIsSumPlusDeficit(log, e);
    DeficitIsWorstPrefix(log, e);
  }

  // ---------------------------------------------------------------- event and join messages commute

  function Joins(log: seq<Envelope>): (joins: seq<Envelope>)
    ensures forall m | m in joins :: m in log
  {
    if log == [] then [] else
    var rest := Joins(log[..|log| - 1]);
    if log[|log| - 1].routing.IsJoin() then rest + [log[|log| - 1]] else rest
  }

  function EventsIn(log: seq<Envelope>): (events: seq<Envelope>)
    ensures forall m | m in events :: m in log
  {
    if log == [] then [] else
    var rest := EventsIn(log[..|log| - 1]);
    if log[|log| - 1].routing.IsEvent() then rest + [log[|log| - 1]] else rest
  }

  /** The count depends on the join messages alone, the details on the event messages alone. */
  lemma {:induction false} RowsFactor(log: seq<Envelope>, e: Id)
    requires forall m | m in log :: Applicable(m)
    ensures var joins, events := RowsAfter(Joins(log)), RowsAfter(EventsIn(log));
            && (e in RowsAfter(log) <==> e in joins || e in events)
            && RowOf(RowsAfter(log), e) == FeedRow(RowOf(events, e).details, CountOf(joins, e))
  {
    if log != [] {
      var shorter, m := log[..|log| - 1], log[|log| - 1];
      RowsFactor(shorter, e);
      if m.routing.IsJoin() {
        RowsAfterOneMore(Joins(shorter), m);
      } else {
        RowsAfterOneMore(EventsIn(shorter), m);
      }
    }
  }

  /** However event.* and join.* messages interleave, the same rows come out. */
  lemma InterleavingIsInvisible(a: seq<Envelope>, b: seq<Envelope>)
    requires forall m | m in a + b :: Applicable(m)
    requires Joins(a) == Joins(b) && EventsIn(a) == EventsIn(b)
    ensures RowsAfter(a) == RowsAfter(b)
  {
    assert forall m | m in a :: m in a + b;
    assert forall m | m in b :: m in a + b;
    forall e: Id
      ensures (e in RowsAfter(a) <==> e in RowsAfter(b)) && RowOf(RowsAfter(a), e) == RowOf(RowsAfter(b), e)
    {
      RowsFactor(a, e);
      RowsFactor(b, e);
    }
  }

  /** Join messages do not commute with each other: the clamp makes the count depend on their order. */
  lemma JoinMessagesDoNotCommute(confirmed: Envelope, canceled: Envelope, e: Id)
    requires Applicable(confirmed) && confirmed.routing == JoinConfirmed && confirmed.payload.eventId == e
    requires Applicable(canceled) && canceled.routing == JoinCanceled && canceled.payload.eventId == e
    requires canceled.payload.previousStatus == Confirmed
    ensures CountOf(ApplyTo(ApplyTo(map[], confirmed), canceled), e) == 0
    ensures CountOf(ApplyTo(ApplyTo(map[], canceled), confirmed), e) == 1
  {
  }
}
