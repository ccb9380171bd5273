/**
 * Notification delivery: workers claim a row under a lease, send, and report. The lease deadline doubles as
 * the fencing token, and different workers' clocks need not agree.
 */
module Notifications {
  import opened Collections
  import opened Messages

  const DEFAULT_DELIVERY_LEASE := 30
  const MAX_DELIVERY_ATTEMPTS := 5
  const DELIVERY_RETRY_BACKOFFS: seq<int> := [5, 30, 120, 600]

  datatype DeliveryStatus = Pending | Processing | Sent | Failed

  datatype Notification = Notification(status: DeliveryStatus, attempts: int, nextAttemptAt: Time,
                                       lockedUntil: Option<Time>, createdAt: Time)

  type Table = map<Id, Notification>

  /** A worker's copy of the row it claimed. */
  datatype Claim = Claim(id: Id, claimedAt: Time, lockedUntil: Time, attempts: int, nextAttemptAt: Time)

  datatype DeliveryRow = DeliveryRow(notificationId: Id, sent: bool)

  function EffectiveLease(lease: int): int { if lease <= 0 then DEFAULT_DELIVERY_LEASE else lease }

  function DeliveryBackoff(attempts: int): int {
    if attempts <= 0 then DELIVERY_RETRY_BACKOFFS[0]
    else if attempts > |DELIVERY_RETRY_BACKOFFS| then DELIVERY_RETRY_BACKOFFS[|DELIVERY_RETRY_BACKOFFS| - 1]
    else DELIVERY_RETRY_BACKOFFS[attempts - 1]
  }

  // ---------------------------------------------------------------- transactions

  predicate Claimable(n: Notification, now: Time) {
    && n.attempts < MAX_DELIVERY_ATTEMPTS
    && (((n.status == Pending || n.status == Failed) && n.nextAttemptAt <= now)
        || (n.status == Processing && n.lockedUntil.Some? && n.lockedUntil.value <= now))
  }

  predicate Older(table: Table, a: Id, b: Id)
    requires a in table && b in table
  {
    table[a].createdAt < table[b].createdAt || (table[a].createdAt == table[b].createdAt && TextLess(a, b))
  }

  /** The row the claim query picks: claimable, not locked by another transaction, the oldest of those. */
  predicate Picked(table: Table, now: Time, busy: set<Id>, id: Id) {
    && id in table && id !in busy && Claimable(table[id], now)
    && forall x | x in table && x !in busy && x != id && Claimable(table[x], now) :: Older(table, id, x)
  }

  lemma OlderIsLinear(table: Table, a: Id, b: Id, c: Id)
    requires a in table && b in table && c in table
    ensures a != b ==> Older(table, a, b) || Older(table, b, a)
    ensures Older(table, a, b) && Older(table, b, c) ==> Older(table, a, c)
  {
    TextLessIsTotal(a, b);
    if TextLess(a, b) && TextLess(b, c) { TextLessIsTransitive(a, b, c); }
  }

  predicate IsOldest(table: Table, rows: set<Id>, id: Id)
    requires rows <= table.Keys
  {
    id in rows && forall x | x in rows && x != id :: Older(table, id, x)
  }

  lemma {:induction false} OldestExists(table: Table, rows: set<Id>)
    requires rows != {} && rows <= table.Keys
    ensures exists id :: IsOldest(table, rows, id)
  {
    var a :| a in rows;
    var rest := rows - {a};
    if rest == {} {
      assert rows == {a};
      assert IsOldest(table, rows, a);
    } else {
      OldestExists(table, rest);
      var b :| IsOldest(table, rest, b);
      var first := if Older(table, a, b) then a else b;
      forall x | x in rows && x != first ensures Older(table, first, x) {
        OlderIsLinear(table, a, b, x);
      }
      assert IsOldest(table, rows, first);
    }
  }

  /** Whenever some free row is claimable the query picks one. */
  lemma SomeRowIsPicked(table: Table, now: Time, busy: set<Id>)
    ensures (exists id :: Picked(table, now, busy, id))
       <==> (exists x :: x in table && x !in busy && Claimable(table[x], now))
  {
    var rows := set x | x in table && x !in busy && Claimable(table[x], now);
    assert forall x :: x in rows <==> x in table && x !in busy && Claimable(table[x], now);
    assert forall id | Picked(table, now, busy, id) :: id in rows;
    if rows != {} {
      OldestExists(table, rows);
      var id :| IsOldest(table, rows, id);
      assert Picked(table, now, busy, id);
    }
  }

  function Claimed(n: Notification, now: Time, lease: int): Notification {
    n.(status := Processing, attempts := n.attempts + 1, lockedUntil := Some(now + EffectiveLease(lease)))
  }

  function ClaimOf(id: Id, n: Notification, now: Time, lease: int): Claim {
    Claim(id, now, now + EffectiveLease(lease), n.attempts + 1, n.nextAttemptAt)
  }

  /** The fence: a report goes through only while the row still carries the claim's own deadline. */
  predicate Holds(table: Table, claim: Claim) {
    claim.id in table && table[claim.id].status == Processing && table[claim.id].lockedUntil == Some(claim.lockedUntil)
  }

  function Reported(n: Notification, claim: Claim, sent: bool, now: Time): Notification {
    if sent then n.(status := Sent, nextAttemptAt := claim.nextAttemptAt, lockedUntil := None)
    else
      var next := if claim.attempts >= MAX_DELIVERY_ATTEMPTS then now else now + DeliveryBackoff(claim.attempts);
      n.(status := Failed, nextAttemptAt := next, lockedUntil := None)
  }

  function AfterReport(table: Table, claim: Claim, sent: bool, now: Time): Table
    requires claim.id in table
  {
    table[claim.id := Reported(table[claim.id], claim, sent, now)]
  }

  class Repository {
    var notifications: Table
    var deliveries: seq<DeliveryRow>

    constructor ()
      ensures notifications == map[] && deliveries == []
    {
      notifications, deliveries := map[], [];
    }

    method ClaimNextDelivery(now: Time, lease: int, busy: set<Id>) returns (claim: Option<Claim>)
      modifies this`notifications
      ensures claim.None? ==> notifications == old(notifications)
                              && forall id | id in notifications && id !in busy :: !Claimable(notifications[id], now)
      ensures claim.Some? ==>
                var id := claim.value.id;
                && Picked(old(notifications), now, busy, id)
                && claim.value == ClaimOf(id, old(notifications)[id], now, lease)
                && notifications == old(notifications)[id := Claimed(old(notifications)[id], now, lease)]
    {
      if exists id | id in notifications :: Picked(notifications, now, busy, id) {
        var id :| id in notifications && Picked(notifications, now, busy, id);
        var notification := notifications[id];
        var lockedUntil := now + EffectiveLease(lease);
        claim := Some(Claim(id, now, lockedUntil, notification.attempts + 1, notification.nextAttemptAt));
        notifications := notifications[id := notification.(status := Processing, attempts := notification.attempts + 1,
                                                           lockedUntil := Some(lockedUntil))];
      } else {
        SomeRowIsPicked(notifications, now, busy);
        claim := None;
      }
    }

    method UpdateDeliveryState(claim: Claim, status: DeliveryStatus, nextAttemptAt: Time) returns (ok: bool)
      modifies this`notifications
      ensures ok <==> Holds(old(notifications), claim)
      ensures notifications == if !ok then old(notifications) else
                var row := old(notifications)[claim.id];
                old(notifications)[claim.id := row.(status := status, nextAttemptAt := nextAttemptAt,
                                                    lockedUntil := None)]
    {
      if claim.id !in notifications {
        return false;
      }
      var row := notifications[claim.id];
      if row.status != Processing || row.lockedUntil != Some(claim.lockedUntil) {
        return false;
      }
      row := row.(status := status, nextAttemptAt := nextAttemptAt, lockedUntil := None);
      notifications := notifications[claim.id := row];
      return true;
    }

    method MarkDeliverySent(claim: Claim, now: Time) returns (ok: bool)
      modifies this
      ensures ok <==> Holds(old(notifications), claim)
      ensures !ok ==> notifications == old(notifications) && deliveries == old(deliveries)
      ensures ok ==> notifications == AfterReport(old(notifications), claim, true, now)
                     && deliveries == old(deliveries) + [DeliveryRow(claim.id, true)]
    {
      ok := UpdateDeliveryState(claim, Sent, claim.nextAttemptAt);
      if ok {
        deliveries := deliveries + [DeliveryRow(claim.id, true)];
      }
    }

    method MarkDeliveryFailed(claim: Claim, now: Time) returns (ok: bool)
      modifies this
      ensures ok <==> Holds(old(notifications), claim)
      ensures !ok ==> notifications == old(notifications) && deliveries == old(deliveries)
      ensures ok ==> notifications == AfterReport(old(notifications), claim, false, now)
                     && deliveries == old(deliveries) + [DeliveryRow(claim.id, false)]
    {
      var nextAttemptAt := now + DeliveryBackoff(claim.attempts);
      if claim.attempts >= MAX_DELIVERY_ATTEMPTS {
        nextAttemptAt := now;
      }
      ok := UpdateDeliveryState(claim, Failed, nextAttemptAt);
      if ok {
        deliveries := deliveries + [DeliveryRow(claim.id, false)];
      }
    }
  }

  // ---------------------------------------------------------------- runs of many workers

  /** The tables, and every claim ever taken, in the order taken. */
  datatype World = World(table: Table, deliveries: seq<DeliveryRow>, claims: seq<Claim>)

  datatype Event =
    | Arrive(id: Id, at: Time)
    | Take(id: Id, now: Time, busy: set<Id>)
    | Report(claim: nat, sent: bool, now: Time)

  predicate Possible(w: World, event: Event) {
    match event
    case Arrive(id, _) => id !in w.table
    case Take(id, now, busy) => Picked(w.table, now, busy, id)
    case Report(k, _, now) => k < |w.claims| && w.claims[k].claimedAt <= now
  }

  function After(w: World, event: Event, lease: int): World
    requires Possible(w, event)
  {
    match event
    case Arrive(id, at) => w.(table := w.table[id := Notification(Pending, 0, at, None, at)])
    case Take(id, now, _) =>
      World(w.table[id := Claimed(w.table[id], now, lease)], w.deliveries,
            w.claims + [ClaimOf(id, w.table[id], now, lease)])
    case Report(k, sent, now) =>
      var claim := w.claims[k];
      if !Holds(w.table, claim) then w
      else World(AfterReport(w.table, claim, sent, now),
                 w.deliveries + [DeliveryRow(claim.id, sent)], w.claims)
  }

  ghost predicate PossibleRun(events: seq<Event>, lease: int)
    decreases |events|, 0
  {
    events == [] || (PossibleRun(events[..|events| - 1], lease)
                     && Possible(RunOf(events[..|events| - 1], lease), events[|events| - 1]))
  }

  ghost function RunOf(events: seq<Event>, lease: int): World
    requires PossibleRun(events, lease)
    decreases |events|, 1
  {
    if events == [] then World(map[], [], [])
    else After(RunOf(events[..|events| - 1], lease), events[|events| - 1], lease)
  }

  // ---------------------------------------------------------------- the invariant

  /** Claims are numbered by attempt, end one lease after they were taken, and every later one ends later. */
  predicate ClaimOk(w: World, lease: int, k: nat)
    requires k < |w.claims|
  {
    var claim := w.claims[k];
    && claim.id in w.table
    && 1 <= claim.attempts <= w.table[claim.id].attempts
    && claim.lockedUntil == claim.claimedAt + EffectiveLease(lease)
  }

  predicate InSequence(w: World, j: nat, k: nat)
    requires j < |w.claims| && k < |w.claims|
  {
    (j < k && w.claims[j].id == w.claims[k].id) ==>
      w.claims[j].attempts < w.claims[k].attempts && w.claims[j].lockedUntil < w.claims[k].lockedUntil
  }

  predicate IsLatest(w: World, k: nat)
    requires k < |w.claims|
  {
    w.claims[k].id in w.table && w.claims[k].attempts == w.table[w.claims[k].id].attempts
  }

  /** Whatever a row says, the next claim on it will end later than claim `k` did. */
  predicate NextEndsLater(w: World, k: nat)
    requires k < |w.claims| && w.claims[k].id in w.table
  {
    var claim, n := w.claims[k], w.table[w.claims[k].id];
    match n.status
    case Pending => false
    case Processing => n.lockedUntil.Some? && claim.lockedUntil <= n.lockedUntil.value
                       && (IsLatest(w, k) <==> claim.lockedUntil == n.lockedUntil.value)
    case Failed => n.attempts < MAX_DELIVERY_ATTEMPTS ==> claim.claimedAt < n.nextAttemptAt
    case Sent => true
  }

  predicate RowOk(n: Notification) {
    && 0 <= n.attempts <= MAX_DELIVERY_ATTEMPTS
    && (n.status == Pending <==> n.attempts == 0)
    && (n.status == Processing <==> n.lockedUntil.Some?)
  }

  function ClaimsOf(claims: seq<Claim>, id: Id): nat {
    if claims == [] then 0 else ClaimsOf(claims[..|claims| - 1], id) + if claims[|claims| - 1].id == id then 1 else 0
  }

  function SentRows(deliveries: seq<DeliveryRow>, id: Id): nat {
    if deliveries == [] then 0
    else SentRows(deliveries[..|deliveries| - 1], id)
         + if deliveries[|deliveries| - 1] == DeliveryRow(id, true) then 1 else 0
  }

  ghost predicate Inv(w: World, lease: int) {
    && (forall id | id in w.table :: RowOk(w.table[id]))
    && (forall k | 0 <= k < |w.claims| :: ClaimOk(w, lease, k) && NextEndsLater(w, k))
    && (forall j, k {:trigger InSequence(w, j, k)} | 0 <= j < |w.claims| && 0 <= k < |w.claims| :: InSequence(w, j, k))
    && (forall id | id in w.table :: ClaimsOf(w.claims, id) == w.table[id].attempts)
    && (forall id: Id :: SentRows(w.deliveries, id) == if id in w.table && w.table[id].status == Sent then 1 else 0)
  }

  lemma OneMoreClaim(claims: seq<Claim>, claim: Claim)
    ensures forall id: Id :: ClaimsOf(claims + [claim], id) == ClaimsOf(claims, id) + if claim.id == id then 1 else 0
  {
    assert (claims + [claim])[..|claims|] == claims;
  }

  lemma OneMoreDelivery(deliveries: seq<DeliveryRow>, row: DeliveryRow)
    ensures forall id: Id :: SentRows(deliveries + [row], id)
                          == SentRows(deliveries, id) + if row == DeliveryRow(id, true) then 1 else 0
  {
    assert (deliveries + [row])[..|deliveries|] == deliveries;
  }

  lemma {:induction false} UnclaimedHasNone(w: World, lease: int, id: Id, n: nat)
    requires n <= |w.claims| && id !in w.table && forall k | 0 <= k < |w.claims| :: ClaimOk(w, lease, k)
    ensures ClaimsOf(w.claims[..n], id) == 0
  {
    if n > 0 {
      UnclaimedHasNone(w, lease, id, n - 1);
      assert w.claims[..n][..n - 1] == w.claims[..n - 1];
      assert ClaimOk(w, lease, n - 1);
    }
  }

  lemma ArriveKeeps(w: World, lease: int, event: Event)
    requires Inv(w, lease) && event.Arrive? && Possible(w, event)
    ensures Inv(After(w, event, lease), lease)
  {
    var w' := After(w, event, lease);
    UnclaimedHasNone(w, lease, event.id, |w.claims|);
    assert w.claims[..|w.claims|] == w.claims;
    forall k | 0 <= k < |w'.claims| ensures ClaimOk(w', lease, k) && NextEndsLater(w', k) {
      assert ClaimOk(w, lease, k) && NextEndsLater(w, k);
    }
    forall j, k | 0 <= j < |w'.claims| && 0 <= k < |w'.claims| ensures InSequence(w', j, k) {
      assert InSequence(w, j, k);
    }
  }

  lemma TakeKeepsClaims(w: World, lease: int, event: Event, k: nat)
    requires Inv(w, lease) && event.Take? && Possible(w, event) && k <= |w.claims|
    ensures ClaimOk(After(w, event, lease), lease, k) && NextEndsLater(After(w, event, lease), k)
    ensures InSequence(After(w, event, lease), k, |w.claims|)
  {
    if k < |w.claims| {
      assert ClaimOk(w, lease, k) && NextEndsLater(w, k);
      assert RowOk(w.table[event.id]);
    }
  }

  lemma TakeKeeps(w: World, lease: int, event: Event)
    requires Inv(w, lease) && event.Take? && Possible(w, event)
    ensures Inv(After(w, event, lease), lease)
  {
    var w' := After(w, event, lease);
    OneMoreClaim(w.claims, w'.claims[|w.claims|]);
    forall k | 0 <= k < |w'.claims| ensures ClaimOk(w', lease, k) && NextEndsLater(w', k) {
      TakeKeepsClaims(w, lease, event, k);
    }
    forall j, k | 0 <= j < |w'.claims| && 0 <= k < |w'.claims| ensures InSequence(w', j, k) {
      if j < |w.claims| && k < |w.claims| {
        assert InSequence(w, j, k);
      } else if j < k {
        TakeKeepsClaims(w, lease, event, j);
      }
    }
  }

  lemma ReportKeepsClaims(w: World, lease: int, event: Event, k: nat)
    requires Inv(w, lease) && event.Report? && Possible(w, event) && k < |w.claims|
    ensures ClaimOk(After(w, event, lease), lease, k) && NextEndsLater(After(w, event, lease), k)
  {
    assert ClaimOk(w, lease, k) && NextEndsLater(w, k);
    assert ClaimOk(w, lease, event.claim) && NextEndsLater(w, event.claim);
  }

  lemma ReportKeeps(w: World, lease: int, event: Event)
    requires Inv(w, lease) && event.Report? && Possible(w, event)
    ensures Inv(After(w, event, lease), lease)
  {
    var w' := After(w, event, lease);
    if w' != w {
      OneMoreDelivery(w.deliveries, w'.deliveries[|w.deliveries|]);
      forall k | 0 <= k < |w'.claims| ensures ClaimOk(w', lease, k) && NextEndsLater(w', k) {
        ReportKeepsClaims(w, lease, event, k);
      }
      forall j, k | 0 <= j < |w'.claims| && 0 <= k < |w'.claims| ensures InSequence(w', j, k) {
        assert InSequence(w, j, k);
      }
    }
  }

  lemma {:induction false} RunKeeps(events: seq<Event>, lease: int)
    requires PossibleRun(events, lease)
    ensures Inv(RunOf(events, lease), lease)
  {
    if events != [] {
      var before, event := events[..|events| - 1], events[|events| - 1];
      RunKeeps(before, lease);
      match event
      case Arrive(_, _) => ArriveKeeps(RunOf(before, lease), lease, event);
      case Take(_, _, _) => TakeKeeps(RunOf(before, lease), lease, event);
      case Report(_, _, _) => ReportKeeps(RunOf(before, lease), lease, event);
    }
  }

  // ---------------------------------------------------------------- what the lease guarantees

  /** Lock deadlines strictly increase per notification, whatever the skew between the workers' clocks. */
  lemma DeadlinesIncrease(events: seq<Event>, lease: int, j: nat, k: nat)
    requires PossibleRun(events, lease) && j < k < |RunOf(events, lease).claims|
    requires RunOf(events, lease).claims[j].id == RunOf(events, lease).claims[k].id
    ensures RunOf(events, lease).claims[j].lockedUntil < RunOf(events, lease).claims[k].lockedUntil
  {
    RunKeeps(events, lease);
    assert InSequence(RunOf(events, lease), j, k);
  }

  /** A report goes through exactly when its claim is the latest one and nobody has reported on it yet. */
  lemma ReportGoesThroughIff(events: seq<Event>, lease: int, k: nat)
    requires PossibleRun(events, lease) && k < |RunOf(events, lease).claims|
    ensures var w := RunOf(events, lease);
            Holds(w.table, w.claims[k])
            <==> IsLatest(w, k) && w.table[w.claims[k].id].status == Processing
  {
    RunKeeps(events, lease);
    assert ClaimOk(RunOf(events, lease), lease, k) && NextEndsLater(RunOf(events, lease), k);
  }

  /** So the report of a superseded claim changes nothing. */
  lemma SupersededReportIsVoid(events: seq<Event>, lease: int, j: nat, k: nat, sent: bool, now: Time)
    requires PossibleRun(events + [Report(j, sent, now)], lease) && PossibleRun(events, lease)
    requires j < k < |RunOf(events, lease).claims|
    requires RunOf(events, lease).claims[j].id == RunOf(events, lease).claims[k].id
    ensures RunOf(events + [Report(j, sent, now)], lease) == RunOf(events, lease)
  {
    var w := RunOf(events, lease);
    RunKeeps(events, lease);
    assert (events + [Report(j, sent, now)])[..|events|] == events;
    assert InSequence(w, j, k) && ClaimOk(w, lease, k);
    ReportGoesThroughIff(events, lease, j);
  }

  /** A notification is claimed at most five times and has at most one SENT delivery row. */
  lemma DeliveryBounds(events: seq<Event>, lease: int, id: Id)
    requires PossibleRun(events, lease)
    ensures SentRows(RunOf(events, lease).deliveries, id) <= 1
    ensures id in RunOf(events, lease).table ==> ClaimsOf(RunOf(events, lease).claims, id) <= MAX_DELIVERY_ATTEMPTS
  {
    RunKeeps(events, lease);
    assert id in RunOf(events, lease).table ==> RowOk(RunOf(events, lease).table[id]);
  }

  /** SENT is final. */
  lemma SentIsFinal(w: World, event: Event, lease: int, id: Id)
    requires Possible(w, event) && id in w.table && w.table[id].status == Sent
    ensures id in After(w, event, lease).table && After(w, event, lease).table[id] == w.table[id]
  {
  }

  // ---------------------------------------------------------------- claimed again

  /** No claim takes this row any more. */
  predicate IsFinal(w: World, id: Id) {
    id in w.table && (w.table[id].status == Sent || w.table[id].attempts >= MAX_DELIVERY_ATTEMPTS)
  }

  lemma StepKeepsFinal(w: World, event: Event, lease: int, id: Id)
    requires Possible(w, event) && IsFinal(w, id)
    ensures IsFinal(After(w, event, lease), id) && !(event.Take? && event.id == id)
  {
  }

  predicate Takes(events: seq<Event>, id: Id) {
    exists k :: 0 <= k < |events| && events[k].Take? && events[k].id == id
  }

  lemma {:induction false} FinalIsNeverTaken(events: seq<Event>, more: seq<Event>, lease: int, id: Id)
    requires PossibleRun(events, lease) && IsFinal(RunOf(events, lease), id) && PossibleRun(events + more, lease)
    ensures IsFinal(RunOf(events + more, lease), id) && !Takes(more, id)
  {
    if more == [] {
      assert events + more == events;
    } else {
      var shorter := more[..|more| - 1];
      assert (events + more)[..|events + more| - 1] == events + shorter;
      FinalIsNeverTaken(events, shorter, lease, id);
      StepKeepsFinal(RunOf(events + shorter, lease), more[|more| - 1], lease, id);
      assert forall k | 0 <= k < |shorter| :: more[k] == shorter[k];
    }
  }

  lemma Extends(events: seq<Event>, event: Event, lease: int)
    requires PossibleRun(events, lease) && Possible(RunOf(events, lease), event)
    ensures PossibleRun(events + [event], lease)
    ensures RunOf(events + [event], lease) == After(RunOf(events, lease), event, lease)
  {
    assert (events + [event])[..|events + [event]| - 1] == events;
  }

  /** Some continuation of the run claims the notification. */
  ghost predicate CanBeTaken(events: seq<Event>, lease: int, id: Id) {
    exists more :: PossibleRun(events + more, lease) && Takes(more, id)
  }

  /**
   * A notification is claimed in some continuation of a run if and only if it is not SENT and has attempts left;
   * otherwise no continuation ever claims it again.
   */
  lemma ClaimedAgainIff(events: seq<Event>, lease: int, id: Id)
    requires PossibleRun(events, lease) && id in RunOf(events, lease).table
    ensures var n := RunOf(events, lease).table[id];
            CanBeTaken(events, lease, id) <==> n.status != Sent && n.attempts < MAX_DELIVERY_ATTEMPTS
  {
    RunKeeps(events, lease);
    var w := RunOf(events, lease);
    var n := w.table[id];
    assert RowOk(n);
    if n.status != Sent && n.attempts < MAX_DELIVERY_ATTEMPTS {
      var now := if n.status == Processing then n.lockedUntil.value else n.nextAttemptAt;
      var take := Take(id, now, w.table.Keys - {id});
      assert Claimable(n, now) && Possible(w, take);
      Extends(events, take, lease);
      assert [take][0] == take && Takes([take], id);
    } else {
      forall more | PossibleRun(events + more, lease) ensures !Takes(more, id) {
        FinalIsNeverTaken(events, more, lease, id);
      }
    }
  }

  /** When the lease of the `n`-th claim runs out, if every claim follows at once. */
  function Deadline(at: Time, lease: int, n: nat): Time {
    if n == 0 then at else Deadline(at, lease, n - 1) + EffectiveLease(lease)
  }

  /** A worker claims the notification, crashes, and so on whenever the lease runs out. */
  function Crashes(id: Id, at: Time, lease: int, n: nat): seq<Event> {
    if n == 0 then [Arrive(id, at)] else Crashes(id, at, lease, n - 1) + [Take(id, Deadline(at, lease, n - 1), {})]
  }

  function CrashedRow(at: Time, lease: int, n: nat): Notification {
    if n == 0 then Notification(Pending, 0, at, None, at)
    else Notification(Processing, n, at, Some(Deadline(at, lease, n)), at)
  }

  lemma OnlyRowIsTaken(w: World, id: Id, now: Time, lease: int)
    requires w.table.Keys == {id} && Claimable(w.table[id], now)
    ensures Possible(w, Take(id, now, {}))
    ensures After(w, Take(id, now, {}), lease).table == map[id := Claimed(w.table[id], now, lease)]
  {
  }

  lemma CrashOnce(events: seq<Event>, id: Id, at: Time, lease: int, n: nat)
    requires n < MAX_DELIVERY_ATTEMPTS && PossibleRun(events, lease)
    requires RunOf(events, lease).table == map[id := CrashedRow(at, lease, n)]
    ensures var events' := events + [Take(id, Deadline(at, lease, n), {})];
            PossibleRun(events', lease) && RunOf(events', lease).table == map[id := CrashedRow(at, lease, n + 1)]
  {
    OnlyRowIsTaken(RunOf(events, lease), id, Deadline(at, lease, n), lease);
    Extends(events, Take(id, Deadline(at, lease, n), {}), lease);
  }

  lemma ArrivalRuns(id: Id, at: Time, lease: int)
    ensures PossibleRun([Arrive(id, at)], lease)
    ensures RunOf([Arrive(id, at)], lease).table == map[id := CrashedRow(at, lease, 0)]
  {
    Extends([], Arrive(id, at), lease);
    assert [] + [Arrive(id, at)] == [Arrive(id, at)];
  }

  lemma {:induction false} CrashesRun(id: Id, at: Time, lease: int, n: nat)
    requires n <= MAX_DELIVERY_ATTEMPTS
    ensures PossibleRun(Crashes(id, at, lease, n), lease)
    ensures RunOf(Crashes(id, at, lease, n), lease).table == map[id := CrashedRow(at, lease, n)]
  {
    if n == 0 {
      ArrivalRuns(id, at, lease);
    } else {
      CrashesRun(id, at, lease, n - 1);
      CrashOnce(Crashes(id, at, lease, n - 1), id, at, lease, n - 1);
    }
  }

  /** After the fifth crash the row stays in PROCESSING and no continuation claims it. */
  lemma FifthCrashStrands(id: Id, at: Time, lease: int)
    ensures var events := Crashes(id, at, lease, MAX_DELIVERY_ATTEMPTS);
            && PossibleRun(events, lease) && id in RunOf(events, lease).table
            && RunOf(events, lease).table[id].status == Processing && !CanBeTaken(events, lease, id)
  {
    CrashesRun(id, at, lease, MAX_DELIVERY_ATTEMPTS);
    ClaimedAgainIff(Crashes(id, at, lease, MAX_DELIVERY_ATTEMPTS), lease, id);
  }

  // ---------------------------------------------------------------- the numbers

  /** When a row can be claimed. */
  lemma ClaimableIff(n: Notification, now: Time)
    ensures Claimable(n, now)
       <==> n.attempts < 5
            && (((n.status == Pending || n.status == Failed) && n.nextAttemptAt <= now)
                || (n.status == Processing && n.lockedUntil.Some? && n.lockedUntil.value <= now))
  {
  }

  /** A claim takes the oldest free row, and writes its own deadline: the lease, or thirty seconds if there is none. */
  lemma ClaimTakesTheOldest(w: World, id: Id, now: Time, busy: set<Id>, lease: int)
    requires Possible(w, Take(id, now, busy))
    ensures forall x | x in w.table && x !in busy && Claimable(w.table[x], now) ::
              w.table[id].createdAt < w.table[x].createdAt
              || (w.table[id].createdAt == w.table[x].createdAt && (x == id || TextLess(id, x)))
    ensures var w', n := After(w, Take(id, now, busy), lease), w.table[id];
            var until := now + (if lease <= 0 then 30 else lease);
            && w'.table
               == w.table[id := n.(status := Processing, attempts := n.attempts + 1, lockedUntil := Some(until))]
            && w'.deliveries == w.deliveries && |w'.claims| == |w.claims| + 1
            && w'.claims[|w.claims|] == Claim(id, now, until, n.attempts + 1, n.nextAttemptAt)
  {
  }

  /** Seconds to wait after the first, second, third and fourth failure; after the fifth there is no next attempt. */
  predicate WaitsAfter(attempts: int, wait: int) {
    && (attempts == 1 ==> wait == 5) && (attempts == 2 ==> wait == 30) && (attempts == 3 ==> wait == 120)
    && (attempts == 4 ==> wait == 600) && (attempts >= 5 ==> wait == 0)
  }

  /** What a report that goes through writes. */
  lemma ReportWrites(w: World, k: nat, sent: bool, now: Time, lease: int)
    requires Possible(w, Report(k, sent, now)) && Holds(w.table, w.claims[k]) && w.claims[k].attempts >= 1
    ensures var w', id := After(w, Report(k, sent, now), lease), w.claims[k].id;
            && w'.table.Keys == w.table.Keys && (forall x | x in w.table && x != id :: w'.table[x] == w.table[x])
            && w'.table[id].status == (if sent then Sent else Failed) && w'.table[id].lockedUntil == None
            && w'.table[id].attempts == w.table[id].attempts && w'.table[id].createdAt == w.table[id].createdAt
            && (!sent ==> WaitsAfter(w.claims[k].attempts, w'.table[id].nextAttemptAt - now))
            && w'.deliveries == w.deliveries + [DeliveryRow(id, sent)]
  {
  }

  /** Over runs: five claims and one SENT delivery row at most. */
  lemma FiveClaimsAtMost(events: seq<Event>, lease: int, id: Id)
    requires PossibleRun(events, lease)
    ensures ClaimsOf(RunOf(events, lease).claims, id) <= 5 && SentRows(RunOf(events, lease).deliveries, id) <= 1
  {
    DeliveryBounds(events, lease, id);
    RunKeeps(events, lease);
    var w := RunOf(events, lease);
    if id !in w.table {
      UnclaimedHasNone(w, lease, id, |w.claims|);
      assert w.claims[..|w.claims|] == w.claims;
    }
  }
}
