/**
 * The outbox relay: batches of available rows, published one by one and committed together. A relay may crash
 * or be rolled back after publishing; several relays work on disjoint batches because selected rows are locked.
 */
module OutboxRelay {
  import opened Collections
  import opened Messages

  const MAX_PUBLISH_ATTEMPTS := 8
  const DEFAULT_BATCH_SIZE := 100

  /** Seconds to wait after the first, second, ... failed attempt. */
  const RETRY_BACKOFFS: seq<int> := [1, 4, 15, 60, 300, 900, 3600]

  datatype RowStatus = Pending | Failed | Sent | Dead

  datatype OutboxRow = OutboxRow(envelope: Envelope, availableAt: Time, attempts: int, status: RowStatus) {
    predicate Retryable() { status == Pending || status == Failed }
  }

  type Table = map<Id, OutboxRow>

  /** What the broker does with one publish: a refusal or a lost confirmation may still have been delivered. */
  datatype Answer = Acked | Refused(delivered: bool)

  /** What becomes of the batch transaction: commit, or the relay is gone after handling some records. */
  datatype Fate = Commits | Lost(after: nat)

  function RetryBackoff(attempts: int): int {
    if attempts <= 0 then RETRY_BACKOFFS[0]
    else if attempts > |RETRY_BACKOFFS| then RETRY_BACKOFFS[|RETRY_BACKOFFS| - 1]
    else RETRY_BACKOFFS[attempts - 1]
  }

  predicate ShouldMarkDead(attempts: int) { attempts >= MAX_PUBLISH_ATTEMPTS }

  function MarkPublishFailure(row: OutboxRow, failedAt: Time, dbNow: Time): OutboxRow {
    var attempts := row.attempts + 1;
    if ShouldMarkDead(attempts) then row.(status := Dead, attempts := attempts, availableAt := dbNow)
    else row.(status := Failed, attempts := attempts, availableAt := failedAt + RetryBackoff(attempts))
  }

  // ---------------------------------------------------------------- selecting a batch

  predicate Available(row: OutboxRow, now: Time) { row.Retryable() && row.availableAt <= now }

  /** The relay's order: by creation time, then by id. */
  predicate Earlier(rows: Table, a: Id, b: Id) {
    a in rows && b in rows
    && (rows[a].envelope.occurredAt < rows[b].envelope.occurredAt
        || (rows[a].envelope.occurredAt == rows[b].envelope.occurredAt && TextLess(a, b)))
  }

  function BatchLimit(limit: int): int { if limit <= 0 then DEFAULT_BATCH_SIZE else limit }

  /** `batch` is what the query returns: available rows nobody holds, the earliest first, up to the limit. */
  ghost predicate Selected(rows: Table, now: Time, limit: int, locked: set<Id>, batch: seq<Id>) {
    && |batch| <= BatchLimit(limit)
    && (forall id | id in batch :: id in rows && Available(rows[id], now) && id !in locked)
    && (forall i, j | 0 <= i < j < |batch| :: batch[i] != batch[j] && Earlier(rows, batch[i], batch[j]))
    && (forall id | id in rows && Available(rows[id], now) && id !in locked && id !in batch ::
          |batch| == BatchLimit(limit) && Earlier(rows, batch[|batch| - 1], id))
  }

  // ---------------------------------------------------------------- handling a batch

  datatype Progress = Progress(rows: Table, broker: seq<Envelope>, published: nat, failed: Option<Id>)

  function HandleRecord(p: Progress, id: Id, answer: Answer, failedAt: Time, dbNow: Time): Progress
    requires id in p.rows
  {
    var row := p.rows[id];
    if !row.envelope.Valid() then
      p.(rows := p.rows[id := MarkPublishFailure(row, failedAt, dbNow)], failed := Some(id))
    else
      match answer
      case Acked =>
        p.(rows := p.rows[id := row.(status := Sent)],
           broker := p.broker + [row.envelope],
           published := p.published + 1)
      case Refused(delivered) =>
        p.(rows := p.rows[id := MarkPublishFailure(row, failedAt, dbNow)],
           broker := if delivered then p.broker + [row.envelope] else p.broker,
           failed := Some(id))
  }

  /** The state after the first `n` records of the batch; nothing is handled after a failure. */
  function Handled(rows: Table, broker: seq<Envelope>, batch: seq<Id>, answers: seq<Answer>, failedAt: Time,
                   dbNow: Time, n: nat)
    : (p: Progress)
    requires n <= |batch| <= |answers| && forall id | id in batch :: id in rows
    ensures p.rows.Keys == rows.Keys
  {
    if n == 0 then Progress(rows, broker, 0, None) else
    var p := Handled(rows, broker, batch, answers, failedAt, dbNow, n - 1);
    if p.failed.Some? then p else HandleRecord(p, batch[n - 1], answers[n - 1], failedAt, dbNow)
  }

  lemma {:induction false} FailureEndsTheBatch(
      rows: Table, broker: seq<Envelope>, batch: seq<Id>, answers: seq<Answer>, failedAt: Time, dbNow: Time, i: nat,
      n: nat)
    requires i <= n <= |batch| <= |answers| && forall id | id in batch :: id in rows
    requires i == n || Handled(rows, broker, batch, answers, failedAt, dbNow, i).failed.Some?
    ensures Handled(rows, broker, batch, answers, failedAt, dbNow, n)
            == Handled(rows, broker, batch, answers, failedAt, dbNow, i)
  {
    if i < n {
      FailureEndsTheBatch(rows, broker, batch, answers, failedAt, dbNow, i, n - 1);
    }
  }

  class Relay {
    var rows: Table
    var broker: seq<Envelope>

    constructor ()
      ensures rows == map[] && broker == []
    {
      rows, broker := map[], [];
    }

    /** What the broker took stays with the broker; the rows change only if the transaction commits. */
    method PublishBatch(batch: seq<Id>, answers: seq<Answer>, failedAt: Time, dbNow: Time, fate: Fate)
      returns (published: nat, ok: bool)
      requires |batch| <= |answers| && forall id | id in batch :: id in rows
      requires fate.Lost? ==> fate.after <= |batch|
      modifies this
      ensures var n := if fate.Lost? then fate.after else |batch|;
              var p := Handled(old(rows), old(broker), batch, answers, failedAt, dbNow, n);
              && broker == p.broker
              && rows == (if fate == Commits then p.rows else old(rows))
              && published == p.published
              && (ok <==> fate == Commits && p.failed == None)
    {
      var txRows := rows;
      published := 0;
      var failed: Option<Id> := None;
      var n := if fate.Lost? then fate.after else |batch|;
      ghost var rows0, broker0 := rows, broker;
      var i := 0;
      while i < n && failed.None?
        invariant i <= n && rows == rows0
        invariant Progress(txRows, broker, published, failed)
               == Handled(rows0, broker0, batch, answers, failedAt, dbNow, i)
      {
        var id := batch[i];
        var record := txRows[id];
        if !record.envelope.Valid() {
          txRows := txRows[id := MarkPublishFailure(record, failedAt, dbNow)];
          failed := Some(id);
        } else {
          match answers[i] {
            case Acked =>
              broker := broker + [record.envelope];
              txRows := txRows[id := record.(status := Sent)];
              published := published + 1;
            case Refused(delivered) =>
              if delivered {
                broker := broker + [record.envelope];
              }
              txRows := txRows[id := MarkPublishFailure(record, failedAt, dbNow)];
              failed := Some(id);
          }
        }
        i := i + 1;
      }
      FailureEndsTheBatch(rows0, broker0, batch, answers, failedAt, dbNow, i, n);
      if fate == Commits {
        rows := txRows;
      }
      return published, fate == Commits && failed.None?;
    }
  }

  // ---------------------------------------------------------------- the shape of a batch

  ghost predicate Distinct(batch: seq<Id>) { forall i, j | 0 <= i < j < |batch| :: batch[i] != batch[j] }

  /** The rows of a batch whose first `sent` records went out and whose next one may have failed. */
  function RowsWith(rows: Table, batch: seq<Id>, sent: nat, failed: Option<Id>, failedAt: Time, dbNow: Time): Table
    requires sent <= |batch|
  {
    map id | id in rows ::
      if id in batch[..sent] then rows[id].(status := Sent)
      else if failed == Some(id) then MarkPublishFailure(rows[id], failedAt, dbNow)
      else rows[id]
  }

  /** A sent prefix, at most one failed row, an untouched rest. */
  ghost predicate Shaped(rows: Table, batch: seq<Id>, n: nat, failedAt: Time, dbNow: Time, p: Progress)
    requires n <= |batch|
  {
    && p.published <= n
    && p.rows == RowsWith(rows, batch, p.published, p.failed, failedAt, dbNow)
    && (p.failed == None ==> p.published == n)
    && (p.failed.Some? ==> p.published < n && p.failed.value == batch[p.published])
    && (forall i | 0 <= i < p.published :: batch[i] in rows && rows[batch[i]].envelope in p.broker)
  }

  lemma HandleRecordShapes(rows: Table, p: Progress, batch: seq<Id>, n: nat, answer: Answer, failedAt: Time,
                           dbNow: Time)
    requires n < |batch| && batch[n] in rows && Distinct(batch)
    requires Shaped(rows, batch, n, failedAt, dbNow, p) && p.failed == None
    ensures batch[n] in p.rows
    ensures var p' := HandleRecord(p, batch[n], answer, failedAt, dbNow);
            Shaped(rows, batch, n + 1, failedAt, dbNow, p') && p.broker <= p'.broker
  {
    var id := batch[n];
    assert batch[..n + 1] == batch[..n] + [id];
    assert id !in batch[..n];
    assert p.rows[id] == rows[id];
    var p' := HandleRecord(p, id, answer, failedAt, dbNow);
    assert p'.rows == RowsWith(rows, batch, p'.published, p'.failed, failedAt, dbNow);
  }

  lemma {:induction false} BatchShape(
      rows: Table, broker: seq<Envelope>, batch: seq<Id>, answers: seq<Answer>, failedAt: Time, dbNow: Time, n: nat)
    requires n <= |batch| <= |answers| && (forall id | id in batch :: id in rows) && Distinct(batch)
    ensures var p := Handled(rows, broker, batch, answers, failedAt, dbNow, n);
            Shaped(rows, batch, n, failedAt, dbNow, p) && broker <= p.broker
  {
    if n == 0 {
      assert RowsWith(rows, batch, 0, None, failedAt, dbNow) == rows;
    } else {
      BatchShape(rows, broker, batch, answers, failedAt, dbNow, n - 1);
      var p := Handled(rows, broker, batch, answers, failedAt, dbNow, n - 1);
      if p.failed == None {
        HandleRecordShapes(rows, p, batch, n - 1, answers[n - 1], failedAt, dbNow);
      } else {
        assert Handled(rows, broker, batch, answers, failedAt, dbNow, n) == p;
      }
    }
  }

  lemma NextRecordIsUntouched(
      rows: Table, broker: seq<Envelope>, batch: seq<Id>, answers: seq<Answer>, failedAt: Time,
      dbNow: Time, n: nat)
    requires n < |batch| <= |answers| && (forall id | id in batch :: id in rows) && Distinct(batch)
    requires Handled(rows, broker, batch, answers, failedAt, dbNow, n).failed == None
    ensures Handled(rows, broker, batch, answers, failedAt, dbNow, n).rows[batch[n]] == rows[batch[n]]
  {
    BatchShape(rows, broker, batch, answers, failedAt, dbNow, n);
    assert batch[n] !in batch[..n];
  }

  // ---------------------------------------------------------------- which batch is taken

  lemma EarlierIsLinear(rows: Table, a: Id, b: Id, c: Id)
    requires a in rows && b in rows && c in rows
    ensures a != b ==> Earlier(rows, a, b) || Earlier(rows, b, a)
    ensures !(Earlier(rows, a, b) && Earlier(rows, b, a)) && !Earlier(rows, a, a)
    ensures Earlier(rows, a, b) && Earlier(rows, b, c) ==> Earlier(rows, a, c)
  {
    TextLessIsTotal(a, b);
    TextLessIsTotal(a, a);
    if TextLess(a, b) && TextLess(b, c) { TextLessIsTransitive(a, b, c); }
  }

  /** Where two selections first differ, the second one has missed an earlier row. */
  lemma SelectionMissesNone(rows: Table, now: Time, limit: int, locked: set<Id>, a: seq<Id>, b: seq<Id>, k: nat)
    requires Selected(rows, now, limit, locked, a) && Selected(rows, now, limit, locked, b)
    requires k < |a| && k < |b| && a[..k] == b[..k]
    ensures a[k] in rows && b[k] in rows && !Earlier(rows, a[k], b[k])
  {
    assert a[k] in a && b[k] in b;
    if Earlier(rows, a[k], b[k]) {
      forall j | 0 <= j < |b| ensures b[j] != a[k] {
        EarlierIsLinear(rows, a[k], b[k], b[k]);
        assert b[j] in b;
        if j < k { assert b[j] == a[..k][j]; }
        if j > k { EarlierIsLinear(rows, a[k], b[k], b[j]); EarlierIsLinear(rows, a[k], b[j], b[j]); }
      }
      var last := b[|b| - 1];
      assert last in b && Earlier(rows, last, a[k]);
      EarlierIsLinear(rows, a[k], b[k], last);
      EarlierIsLinear(rows, a[k], last, last);
    }
  }

  lemma {:induction false} SelectionsShareAPrefix(
      rows: Table, now: Time, limit: int, locked: set<Id>, a: seq<Id>, b: seq<Id>, k: nat)
    requires Selected(rows, now, limit, locked, a) && Selected(rows, now, limit, locked, b) && k <= |a| && k <= |b|
    ensures a[..k] == b[..k]
  {
    if k > 0 {
      SelectionsShareAPrefix(rows, now, limit, locked, a, b, k - 1);
      SelectionMissesNone(rows, now, limit, locked, a, b, k - 1);
      SelectionMissesNone(rows, now, limit, locked, b, a, k - 1);
      EarlierIsLinear(rows, a[k - 1], b[k - 1], b[k - 1]);
      assert a[..k] == a[..k - 1] + [a[k - 1]] && b[..k] == b[..k - 1] + [b[k - 1]];
    }
  }

  lemma RestIsNew(b: seq<Id>, k: nat)
    requires Distinct(b) && k < |b|
    ensures b[k] in b && b[k] !in b[..k]
  {
  }

  lemma PrefixIsWhole(rows: Table, now: Time, limit: int, locked: set<Id>, a: seq<Id>, b: seq<Id>)
    requires Selected(rows, now, limit, locked, a) && Selected(rows, now, limit, locked, b)
    requires |a| <= |b| && a == b[..|a|]
    ensures |a| == |b|
  {
    if |a| < |b| { RestIsNew(b, |a|); }
  }

  /**
   * The query has one answer: rows that are due, not SENT or DEAD and held by nobody, a hundred at most unless another
   * number is asked for.
   */
  lemma SelectionIsUnique(rows: Table, now: Time, limit: int, locked: set<Id>, a: seq<Id>, b: seq<Id>)
    requires Selected(rows, now, limit, locked, a) && Selected(rows, now, limit, locked, b)
    ensures a == b && |a| <= (if limit <= 0 then 100 else limit)
    ensures forall id | id in a ::
              && id in rows && id !in locked && rows[id].availableAt <= now
              && (rows[id].status == Pending || rows[id].status == Failed)
  {
    var k := Min(|a|, |b|);
    SelectionsShareAPrefix(rows, now, limit, locked, a, b, k);
    assert a[..|a|] == a && b[..|b|] == b;
    if |a| <= |b| {
      PrefixIsWhole(rows, now, limit, locked, a, b);
    } else {
      PrefixIsWhole(rows, now, limit, locked, b, a);
    }
  }

  // ---------------------------------------------------------------- what a batch does, record by record

  predicate GoesOut(rows: Table, batch: seq<Id>, answers: seq<Answer>, i: nat) {
    i < |batch| && i < |answers| && batch[i] in rows && rows[batch[i]].envelope.Valid() && answers[i] == Acked
  }

  /** Of the first `n` records those before the first invalid or unconfirmed one went out, and that one failed. */
  ghost predicate StopsAtFailure(
      rows: Table, broker: seq<Envelope>, batch: seq<Id>, answers: seq<Answer>, n: nat, p: Progress)
    requires n <= |batch| <= |answers|
  {
    && p.published <= n
    && (forall i | 0 <= i < p.published :: GoesOut(rows, batch, answers, i))
    && (p.failed == None <==> p.published == n)
    && (p.published < n ==> !GoesOut(rows, batch, answers, p.published) && p.failed == Some(batch[p.published]))
    && |p.broker| == |broker| + p.published + (if TakenAnyway(rows, batch, answers, n, p.published) then 1 else 0)
  }

  /** Record `i` was refused although the broker took it. */
  predicate TakenAnyway(rows: Table, batch: seq<Id>, answers: seq<Answer>, n: nat, i: nat)
    requires n <= |batch| <= |answers|
  {
    i < n && batch[i] in rows && rows[batch[i]].envelope.Valid() && answers[i] == Refused(true)
  }

  /** One more record: nothing after a failure, the record itself before. */
  lemma OneMoreStops(rows: Table, broker: seq<Envelope>, p: Progress, p': Progress, batch: seq<Id>,
                     answers: seq<Answer>, failedAt: Time, dbNow: Time, n: nat)
    requires 0 < n <= |batch| <= |answers| && batch[n - 1] in rows && batch[n - 1] in p.rows
    requires StopsAtFailure(rows, broker, batch, answers, n - 1, p)
    requires p.failed == None ==> p.rows[batch[n - 1]] == rows[batch[n - 1]]
    requires p' == if p.failed.Some? then p else HandleRecord(p, batch[n - 1], answers[n - 1], failedAt, dbNow)
    ensures StopsAtFailure(rows, broker, batch, answers, n, p')
  {
  }

  lemma HandledUnfolds(
      rows: Table, broker: seq<Envelope>, batch: seq<Id>, answers: seq<Answer>, failedAt: Time, dbNow: Time, n: nat,
      p: Progress)
    requires 0 < n <= |batch| <= |answers| && (forall id | id in batch :: id in rows)
    requires p == Handled(rows, broker, batch, answers, failedAt, dbNow, n - 1)
    ensures batch[n - 1] in rows && batch[n - 1] in p.rows
    ensures Handled(rows, broker, batch, answers, failedAt, dbNow, n)
         == if p.failed.Some? then p else HandleRecord(p, batch[n - 1], answers[n - 1], failedAt, dbNow)
  {
    assert batch[n - 1] in batch;
  }

  lemma StoppedStep(
      rows: Table, broker: seq<Envelope>, batch: seq<Id>, answers: seq<Answer>, failedAt: Time, dbNow: Time, n: nat,
      before: Progress)
    returns (p: Progress)
    requires 0 < n <= |batch| <= |answers| && (forall id | id in batch :: id in rows) && Distinct(batch)
    requires before == Handled(rows, broker, batch, answers, failedAt, dbNow, n - 1)
    requires StopsAtFailure(rows, broker, batch, answers, n - 1, before)
    ensures p == Handled(rows, broker, batch, answers, failedAt, dbNow, n)
    ensures StopsAtFailure(rows, broker, batch, answers, n, p)
  {
    HandledUnfolds(rows, broker, batch, answers, failedAt, dbNow, n, before);
    if before.failed == None {
      NextRecordIsUntouched(rows, broker, batch, answers, failedAt, dbNow, n - 1);
      p := HandleRecord(before, batch[n - 1], answers[n - 1], failedAt, dbNow);
    } else {
      p := before;
    }
    OneMoreStops(rows, broker, before, p, batch, answers, failedAt, dbNow, n);
  }

  lemma {:induction false} StoppedBatch(
      rows: Table, broker: seq<Envelope>, batch: seq<Id>, answers: seq<Answer>, failedAt: Time, dbNow: Time, n: nat)
    returns (p: Progress)
    requires n <= |batch| <= |answers| && (forall id | id in batch :: id in rows) && Distinct(batch)
    ensures p == Handled(rows, broker, batch, answers, failedAt, dbNow, n)
    ensures StopsAtFailure(rows, broker, batch, answers, n, p)
  {
    if n == 0 {
      p := Progress(rows, broker, 0, None);
    } else {
      p := StoppedBatch(rows, broker, batch, answers, failedAt, dbNow, n - 1);
      p := StoppedStep(rows, broker, batch, answers, failedAt, dbNow, n, p);
    }
  }

  /**
   * The batch goes out up to the first record that is invalid or not confirmed, and that one fails; the broker has
   * those that went out and perhaps the one refused.
   */
  lemma BatchStopsAtTheFirstFailure(
      rows: Table, broker: seq<Envelope>, batch: seq<Id>, answers: seq<Answer>, failedAt: Time, dbNow: Time, n: nat)
    requires n <= |batch| <= |answers| && (forall id | id in batch :: id in rows) && Distinct(batch)
    ensures StopsAtFailure(rows, broker, batch, answers, n, Handled(rows, broker, batch, answers, failedAt, dbNow, n))
  {
    var p := StoppedBatch(rows, broker, batch, answers, failedAt, dbNow, n);
  }

  /** Seconds to wait after each failed attempt. */
  predicate WaitsAfter(attempts: int, wait: int) {
    && (attempts == 1 ==> wait == 1) && (attempts == 2 ==> wait == 4) && (attempts == 3 ==> wait == 15)
    && (attempts == 4 ==> wait == 60) && (attempts == 5 ==> wait == 300) && (attempts == 6 ==> wait == 900)
    && (attempts == 7 ==> wait == 3600)
  }

  /** A failed attempt is counted; the eighth is the last, after the others the row waits exactly so long. */
  lemma FailureIsCounted(row: OutboxRow, failedAt: Time, dbNow: Time, now: Time)
    requires 0 <= row.attempts < 8
    ensures var after := MarkPublishFailure(row, failedAt, dbNow);
            && after.envelope == row.envelope && after.attempts == row.attempts + 1
            && (after.status == Dead <==> after.attempts == 8) && (after.status == Failed <==> after.attempts < 8)
            && (after.attempts < 8 ==> WaitsAfter(after.attempts, after.availableAt - failedAt))
            && (Available(after, now) <==> after.attempts < 8 && after.availableAt <= now)
  {
  }
}
