/** Runs of the relay: new rows arrive, relays take batches, crash, are rolled back or commit. */
module RelayRuns {
  import opened Collections
  import opened Messages
  import opened OutboxRelay

  /** The table and the broker, with what an observer notes down: first failures, deaths, committed batches. */
  datatype World = World(rows: Table, broker: seq<Envelope>, firstFailure: map<Id, Time>, diedAt: map<Id, Time>,
                         committed: nat)

  datatype Event =
    | Insert(envelope: Envelope)
    | Batch(batch: seq<Id>, answers: seq<Answer>, now: Time, limit: int, locked: set<Id>, failedAt: Time, dbNow: Time,
            fate: Fate)

  ghost predicate Possible(w: World, event: Event) {
    match event
    case Insert(envelope) => envelope.messageId !in w.rows
    case Batch(batch, answers, now, limit, locked, failedAt, dbNow, fate) =>
      && Selected(w.rows, now, limit, locked, batch)
      && |batch| <= |answers|
      && (fate.Lost? ==> fate.after <= |batch|)
  }

  predicate OnTime(event: Event) {
    event.Batch? ==> event.now <= event.failedAt
  }

  ghost function Progressed(w: World, event: Event): Progress
    requires event.Batch? && Possible(w, event)
  {
    Handled(w.rows, w.broker, event.batch, event.answers, event.failedAt, event.dbNow,
            if event.fate.Lost? then event.fate.after else |event.batch|)
  }

  ghost function After(w: World, event: Event): World
    requires Possible(w, event)
  {
    match event
    case Insert(envelope) =>
      w.(rows := w.rows[envelope.messageId := OutboxRow(envelope, envelope.occurredAt, 0, Pending)])
    case Batch(batch, _, _, _, _, failedAt, _, fate) =>
      var p := Progressed(w, event);
      if fate.Lost? then w.(broker := p.broker) else
      var failedId := if p.failed.Some? then p.failed.value else "";
      var first := p.failed.Some? && failedId !in w.firstFailure;
      var dead := p.failed.Some? && failedId in w.rows && ShouldMarkDead(w.rows[failedId].attempts + 1);
      World(p.rows, p.broker,
            if first then w.firstFailure[failedId := failedAt] else w.firstFailure,
            if dead then w.diedAt[failedId := failedAt] else w.diedAt,
            w.committed + (if batch == [] then 0 else 1))
  }

  const START := World(map[], [], map[], map[], 0)

  ghost predicate PossibleRun(events: seq<Event>)
    decreases |events|, 0
  {
    events == [] || (PossibleRun(events[..|events| - 1])
                     && Possible(RunOf(events[..|events| - 1]), events[|events| - 1]))
  }

  ghost function RunOf(events: seq<Event>): World
    requires PossibleRun(events)
    decreases |events|, 1
  {
    if events == [] then START else After(RunOf(events[..|events| - 1]), events[|events| - 1])
  }

  /** No relay's clock runs backwards during a batch; different relays' clocks need not agree. */
  predicate TimedRun(events: seq<Event>) { forall event | event in events :: OnTime(event) }

  lemma LastStep(before: seq<Event>, event: Event, events: seq<Event>)
    requires events != [] && events[..|events| - 1] == before && events[|events| - 1] == event
    requires PossibleRun(before) && Possible(RunOf(before), event)
    ensures PossibleRun(events) && RunOf(events) == After(RunOf(before), event)
  {
  }

  lemma Extends(events: seq<Event>, event: Event)
    requires PossibleRun(events) && Possible(RunOf(events), event)
    ensures PossibleRun(events + [event]) && RunOf(events + [event]) == After(RunOf(events), event)
  {
    LastStep(events, event, events + [event]);
  }

  // ---------------------------------------------------------------- no message is lost

  /** A row can still be retried, or was confirmed by the broker under its own id, or used up its attempts. */
  predicate SafeRow(w: World, id: Id)
    requires id in w.rows
  {
    var row := w.rows[id];
    && row.envelope.messageId == id
    && match row.status
       case Pending => row.attempts == 0
       case Failed => 1 <= row.attempts < MAX_PUBLISH_ATTEMPTS
       case Sent => 0 <= row.attempts < MAX_PUBLISH_ATTEMPTS && row.envelope in w.broker
       case Dead => row.attempts == MAX_PUBLISH_ATTEMPTS
  }

  ghost predicate Safe(w: World) { forall id | id in w.rows :: SafeRow(w, id) }

  lemma BatchFacts(w: World, event: Event)
    requires event.Batch? && Possible(w, event)
    ensures var p := Progressed(w, event);
            && Shaped(w.rows, event.batch, if event.fate.Lost? then event.fate.after else |event.batch|,
                      event.failedAt, event.dbNow, p)
            && w.broker <= p.broker
            && (forall i | 0 <= i < p.published :: event.batch[i] in event.batch)
            && (p.failed.Some? ==> p.failed.value in event.batch)
  {
    BatchShape(w.rows, w.broker, event.batch, event.answers, event.failedAt, event.dbNow,
               if event.fate.Lost? then event.fate.after else |event.batch|);
  }

  lemma BatchIsSafe(w: World, event: Event, id: Id)
    requires event.Batch? && Possible(w, event) && id in w.rows && SafeRow(w, id)
    ensures id in After(w, event).rows && SafeRow(After(w, event), id)
  {
    BatchFacts(w, event);
    var p := Progressed(w, event);
    if event.fate == Commits && p.rows[id] != w.rows[id] {
      assert id in event.batch && w.rows[id].Retryable();
      if id in event.batch[..p.published] {
        var i :| 0 <= i < p.published && event.batch[i] == id;
        assert w.rows[event.batch[i]].envelope in p.broker;
      }
    }
  }

  lemma StepIsSafe(w: World, event: Event)
    requires Safe(w) && Possible(w, event)
    ensures Safe(After(w, event))
    ensures w.rows.Keys <= After(w, event).rows.Keys && w.broker <= After(w, event).broker
  {
    var w' := After(w, event);
    if event.Batch? {
      BatchFacts(w, event);
      forall id | id in w'.rows ensures SafeRow(w', id) {
        BatchIsSafe(w, event, id);
      }
    } else {
      forall id | id in w'.rows ensures SafeRow(w', id) {
        assert id != event.envelope.messageId ==> SafeRow(w, id);
      }
    }
  }

  /** In every reachable state every row is safe: crashes, rollbacks and other relays lose nothing. */
  lemma {:induction false} NoMessageIsLost(events: seq<Event>)
    requires PossibleRun(events)
    ensures Safe(RunOf(events))
    ensures forall i | 0 <= i < |events| && events[i].Insert? :: events[i].envelope.messageId in RunOf(events).rows
  {
    if events != [] {
      var before := events[..|events| - 1];
      NoMessageIsLost(before);
      StepIsSafe(RunOf(before), events[|events| - 1]);
      forall i | 0 <= i < |events| && events[i].Insert? ensures events[i].envelope.messageId in RunOf(events).rows {
        assert i < |before| ==> before[i] == events[i];
      }
    }
  }

  /** A row that is SENT or DEAD stays exactly as it is. */
  lemma FinalRowsStay(w: World, event: Event, id: Id)
    requires Possible(w, event) && id in w.rows && !w.rows[id].Retryable()
    ensures id in After(w, event).rows && After(w, event).rows[id] == w.rows[id]
  {
    if event.Batch? {
      BatchFacts(w, event);
      assert id !in event.batch;
    }
  }

  // ---------------------------------------------------------------- progress

  function AttemptsLeft(row: OutboxRow): int {
    if row.Retryable() then MAX_PUBLISH_ATTEMPTS - row.attempts else 0
  }

  ghost function Budget(rows: Table): int {
    SumOver(rows.Keys, (id: Id) => if id in rows then AttemptsLeft(rows[id]) else 0)
  }

  lemma NoAttemptComesBack(w: World, event: Event, id: Id)
    requires event.Batch? && Possible(w, event) && id in w.rows && SafeRow(w, id)
    ensures id in After(w, event).rows && AttemptsLeft(After(w, event).rows[id]) <= AttemptsLeft(w.rows[id])
  {
    BatchFacts(w, event);
  }

  /** The first record of a committed batch is sent or loses an attempt. */
  lemma FirstRecordSpends(w: World, event: Event)
    requires event.Batch? && Possible(w, event) && event.fate == Commits && event.batch != []
    requires event.batch[0] in w.rows && SafeRow(w, event.batch[0])
    ensures event.batch[0] in After(w, event).rows
    ensures AttemptsLeft(After(w, event).rows[event.batch[0]]) < AttemptsLeft(w.rows[event.batch[0]])
  {
    BatchFacts(w, event);
    assert event.batch[0] in event.batch;
    var p := Progressed(w, event);
    if p.published > 0 { assert event.batch[..p.published][0] == event.batch[0]; }
  }

  lemma BudgetFalls(rows: Table, rows': Table, first: Option<Id>)
    requires rows'.Keys == rows.Keys && forall id | id in rows :: AttemptsLeft(rows'[id]) <= AttemptsLeft(rows[id])
    requires first.Some? ==> first.value in rows && AttemptsLeft(rows'[first.value]) < AttemptsLeft(rows[first.value])
    ensures Budget(rows') <= Budget(rows) && (first.Some? ==> Budget(rows') < Budget(rows))
  {
    var had := (id: Id) => if id in rows then AttemptsLeft(rows[id]) else 0;
    var left := (id: Id) => if id in rows' then AttemptsLeft(rows'[id]) else 0;
    SumIsMonotone(rows.Keys, left, had);
    if first.Some? { assert left(first.value) < had(first.value); }
  }

  /** Every committed nonempty batch uses up some of the attempts left; a lost one uses none. */
  lemma BatchesSpendBudget(w: World, event: Event)
    requires Safe(w) && event.Batch? && Possible(w, event)
    ensures Budget(After(w, event).rows) <= Budget(w.rows)
    ensures event.fate == Commits && event.batch != [] ==> Budget(After(w, event).rows) < Budget(w.rows)
  {
    var w' := After(w, event);
    BatchFacts(w, event);
    forall id | id in w.rows ensures id in w'.rows && AttemptsLeft(w'.rows[id]) <= AttemptsLeft(w.rows[id]) {
      NoAttemptComesBack(w, event, id);
    }
    var spent := event.fate == Commits && event.batch != [];
    if spent {
      assert event.batch[0] in event.batch;
      FirstRecordSpends(w, event);
    }
    BudgetFalls(w.rows, w'.rows, if spent then Some(event.batch[0]) else None);
  }

  lemma InsertAddsBudget(w: World, event: Event)
    requires event.Insert? && Possible(w, event)
    ensures Budget(After(w, event).rows) == Budget(w.rows) + MAX_PUBLISH_ATTEMPTS
  {
    var rows', added := After(w, event).rows, event.envelope.messageId;
    var had := (id: Id) => if id in w.rows then AttemptsLeft(w.rows[id]) else 0;
    var left := (id: Id) => if id in rows' then AttemptsLeft(rows'[id]) else 0;
    SumTakesOut(rows'.Keys, left, added);
    assert rows'.Keys - {added} == w.rows.Keys;
    SumIsMonotone(w.rows.Keys, left, had);
    SumIsMonotone(w.rows.Keys, had, left);
  }

  lemma {:induction false} BudgetIsNeverNegative(s: set<Id>, weight: Id -> int)
    requires forall id | id in s :: weight(id) >= 0
    ensures SumOver(s, weight) >= 0
    decreases |s|
  {
    if s != {} {
      var x := Pick(s);
      SumTakesOut(s, weight, x);
      BudgetIsNeverNegative(s - {x}, weight);
    }
  }

  /** However many relays run and however often they crash, at most eight nonempty batches per row ever commit. */
  lemma {:induction false} CommittedBatchesAreBounded(events: seq<Event>)
    requires PossibleRun(events)
    ensures RunOf(events).committed + Budget(RunOf(events).rows) <= MAX_PUBLISH_ATTEMPTS * |RunOf(events).rows|
    ensures RunOf(events).committed <= MAX_PUBLISH_ATTEMPTS * |RunOf(events).rows|
  {
    var w := RunOf(events);
    if events != [] {
      var before, event := events[..|events| - 1], events[|events| - 1];
      CommittedBatchesAreBounded(before);
      NoMessageIsLost(before);
      var w0 := RunOf(before);
      if event.Batch? {
        BatchesSpendBudget(w0, event);
        BatchFacts(w0, event);
        assert w.rows.Keys == w0.rows.Keys;
        assert |w.rows| == |w.rows.Keys| == |w0.rows.Keys| == |w0.rows|;
      } else {
        InsertAddsBudget(w0, event);
        assert w.rows.Keys == w0.rows.Keys + {event.envelope.messageId};
        assert |w.rows| == |w0.rows| + 1;
      }
    }
    NoMessageIsLost(events);
    forall id | id in w.rows ensures AttemptsLeft(w.rows[id]) >= 0 {
      assert SafeRow(w, id);
    }
    BudgetIsNeverNegative(w.rows.Keys, (id: Id) => if id in w.rows then AttemptsLeft(w.rows[id]) else 0);
  }

  // ---------------------------------------------------------------- patience

  /** Seconds the relay waits in all before attempt `n + 1`. */
  function Waited(n: nat): int
    requires n <= |RETRY_BACKOFFS|
  {
    if n == 0 then 0 else Waited(n - 1) + RETRY_BACKOFFS[n - 1]
  }

  /** When a row that failed before may be tried again, and how late a row dies. */
  predicate Patient(w: World, id: Id)
    requires id in w.rows
  {
    var row := w.rows[id];
    && (row.attempts > 0 <==> id in w.firstFailure)
    && (row.status == Failed && 1 <= row.attempts <= |RETRY_BACKOFFS| ==>
          id in w.firstFailure && row.availableAt >= w.firstFailure[id] + Waited(row.attempts))
    && (row.status == Dead ==>
          id in w.firstFailure && id in w.diedAt && w.diedAt[id] >= w.firstFailure[id] + Waited(|RETRY_BACKOFFS|))
  }

  /** The row whose publish failed waits its next turn from there, or dies. */
  lemma FailureIsPatient(w: World, event: Event, id: Id)
    requires Safe(w) && Possible(w, event) && OnTime(event) && event.Batch? && event.fate == Commits
    requires Progressed(w, event).failed == Some(id) && id in w.rows && Patient(w, id)
    ensures id in After(w, event).rows && Patient(After(w, event), id)
  {
    BatchFacts(w, event);
    assert SafeRow(w, id) && id in event.batch && Available(w.rows[id], event.now);
    var attempts := w.rows[id].attempts;
    assert After(w, event).rows[id] == MarkPublishFailure(w.rows[id], event.failedAt, event.dbNow);
    assert Waited(0) == 0;
    if attempts + 1 < MAX_PUBLISH_ATTEMPTS {
      assert Waited(attempts + 1) == Waited(attempts) + RetryBackoff(attempts + 1);
    }
  }

  lemma StepIsPatient(w: World, event: Event, id: Id)
    requires Safe(w) && Possible(w, event) && OnTime(event)
    requires w.firstFailure.Keys <= w.rows.Keys && id in After(w, event).rows
    requires id in w.rows ==> Patient(w, id)
    ensures Patient(After(w, event), id)
  {
    if event.Batch? {
      BatchFacts(w, event);
      if event.fate == Commits {
        if Progressed(w, event).failed == Some(id) {
          FailureIsPatient(w, event, id);
        } else {
          assert After(w, event).rows[id].attempts == w.rows[id].attempts;
        }
      }
    }
  }

  lemma {:induction false} RunIsPatient(events: seq<Event>)
    requires PossibleRun(events) && TimedRun(events)
    ensures RunOf(events).firstFailure.Keys <= RunOf(events).rows.Keys
    ensures forall id | id in RunOf(events).rows :: Patient(RunOf(events), id)
  {
    if events != [] {
      var before, event := events[..|events| - 1], events[|events| - 1];
      RunIsPatient(before);
      NoMessageIsLost(before);
      if event.Batch? { BatchFacts(RunOf(before), event); }
      forall id | id in RunOf(events).rows ensures Patient(RunOf(events), id) {
        StepIsPatient(RunOf(before), event, id);
      }
    }
  }

  /** However many relays overlap, no row is given up sooner than 4880 seconds after its first failed attempt. */
  lemma NoRowDiesEarly(events: seq<Event>, id: Id)
    requires PossibleRun(events) && TimedRun(events)
    requires id in RunOf(events).rows && RunOf(events).rows[id].status == Dead
    ensures var w := RunOf(events);
            id in w.firstFailure && id in w.diedAt && w.diedAt[id] >= w.firstFailure[id] + 4880
  {
    RunIsPatient(events);
    assert Patient(RunOf(events), id);
    calc {
      Waited(7);
      Waited(6) + 3600;
      Waited(5) + 900 + 3600;
      Waited(4) + 300 + 900 + 3600;
      Waited(3) + 60 + 300 + 900 + 3600;
      Waited(2) + 15 + 60 + 300 + 900 + 3600;
      4880;
    }
  }
}
