/**
 * From operation to feed: registrations write the outbox, relays publish it, the projector reads the queue. The
 * broker has each registration's messages in order if and only if every record that reached it was settled: its
 * earlier siblings were with the broker, or stood before it in the batch. The feed ends exact if each message takes
 * effect after its earlier siblings, as it does when one projector reads such a sequence in order and never fails.
 */
module EndToEnd {
  import opened Collections
  import opened Messages
  import opened JoinLog
  import opened Registrations
  import opened RegistrationInvariants
  import opened JoinStatus
  import opened FeedProjection
  import opened Pipeline
  import opened EffectOrder
  import Relaying = OutboxRelay
  import Relays = RelayRuns

  // ---------------------------------------------------------------- the outbox is written in time order

  ghost predicate NoLaterThan(log: seq<Envelope>, now: Time) { forall m | m in log :: m.occurredAt <= now }

  /** A message later than all messages of its registration extends the timed logs. */
  lemma TimedLogsGrow(log: seq<Envelope>, m: Envelope)
    requires TimedLogs(log)
    requires forall x | x in log && m.routing.IsJoin() && About(x, m.aggregateId) :: x.occurredAt < m.occurredAt
    ensures TimedLogs(log + [m])
  {
    OneMore(log, m);
    forall r: Id ensures Increasing(LogOf(log + [m], r)) {
      var was, longer := LogOf(log, r), LogOf(log + [m], r);
      assert Increasing(was);
      LogMembers(log, r);
      forall i, j | 0 <= i < j < |longer| ensures EarlierIn(longer, i, j) {
        if j < |was| { assert EarlierIn(was, i, j); } else { assert was[i] in was; }
      }
    }
  }

  lemma NewestIsInTime(log: seq<Envelope>, m: Envelope, last: Time)
    requires TimedLogs(log) && NoLaterThan(log, last) && last < m.occurredAt
    ensures TimedLogs(log + [m]) && NoLaterThan(log + [m], m.occurredAt)
  {
    TimedLogsGrow(log, m);
  }

  /** A second message at the same time is in order if it is about another registration. */
  lemma SecondIsInTime(log: seq<Envelope>, first: Envelope, m: Envelope, last: Time)
    requires TimedLogs(log + [first]) && NoLaterThan(log, last) && last < first.occurredAt == m.occurredAt
    requires first.aggregateId != m.aggregateId
    ensures TimedLogs(log + [first] + [m]) && NoLaterThan(log + [first] + [m], m.occurredAt)
  {
    TimedLogsGrow(log + [first], m);
  }

  lemma CancelWritesInTime(
      repo: Repo, s: Store, e: Id, u: Id, now: Time, message: Id, promotedMessage: Id, last: Time)
    requires RowsOk(s) && TimedLogs(s.outbox) && NoLaterThan(s.outbox, last) && last < now
    ensures var s' := CancelStep(repo, s, e, u, now, message, promotedMessage).0;
            TimedLogs(s'.outbox) && NoLaterThan(s'.outbox, now)
  {
    if ActiveIds(s.regs, e, u) != {} {
      var id := Pick(ActiveIds(s.regs, e, u));
      var s1 := Release(repo, s, id, now, message);
      var canceled := s1.outbox[|s.outbox|];
      NewestIsInTime(s.outbox, canceled, last);
      if s.regs[id].status == Confirmed && WaitingIds(s1.regs, e) != {} {
        var first := FirstWaiting(s1.regs, e);
        assert first != id;
        var s2 := Promote(s1, first, now, promotedMessage);
        SecondIsInTime(s.outbox, canceled, s2.outbox[|s1.outbox|], last);
      }
    }
  }

  lemma StepWritesInTime(repo: Repo, s: Store, op: Op, last: Time)
    requires RowsOk(s) && TimedLogs(s.outbox) && NoLaterThan(s.outbox, last) && last < TimeOf(op)
    ensures TimedLogs(Step(repo, s, op).0.outbox) && NoLaterThan(Step(repo, s, op).0.outbox, TimeOf(op))
  {
    match op
    case CancelJoin(e, u, now, message, promotedMessage) =>
      CancelWritesInTime(repo, s, e, u, now, message, promotedMessage, last);
    case CancelRegistration(e, _, _, u, now, message, promotedMessage) =>
      CancelWritesInTime(repo, s, e, u, now, message, promotedMessage, last);
    case _ =>
      var s' := Step(repo, s, op).0;
      if s'.outbox != s.outbox { TimedLogsGrow(s.outbox, s'.outbox[|s.outbox|]); }
  }

  lemma {:induction false} RunWritesInTime(repo: Repo, ops: seq<Op>)
    requires FreshRun(repo, ops) && StrictlyTimed(ops)
    ensures TimedLogs(Run(repo, ops).outbox)
    ensures ops != [] ==> NoLaterThan(Run(repo, ops).outbox, TimeOf(ops[|ops| - 1]))
  {
    if ops != [] {
      var before, op := ops[..|ops| - 1], ops[|ops| - 1];
      RunWritesInTime(repo, before);
      RunKeeps(repo, before);
      StepWritesInTime(repo, Run(repo, before), op,
                       if before == [] then TimeOf(op) - 1 else TimeOf(before[|before| - 1]));
    }
  }

  // ---------------------------------------------------------------- what reaches the broker, and in which order

  /** The envelopes put into the table, in order. */
  function Inserted(events: seq<Relays.Event>): seq<Envelope> {
    if events == [] then [] else
    var rest, event := Inserted(events[..|events| - 1]), events[|events| - 1];
    if event.Insert? then rest + [event.envelope] else rest
  }

  /** Position `j` of `sent` comes after every earlier sibling there is among the rows. */
  ghost predicate SiblingsFirst(rows: Relaying.Table, sent: seq<Envelope>, j: nat)
    requires j < |sent|
  {
    forall id | id in rows && Sibling(rows[id].envelope, sent[j]) :: rows[id].envelope in sent[..j]
  }

  ghost predicate InOrderSoFar(rows: Relaying.Table, sent: seq<Envelope>) {
    forall j | 0 <= j < |sent| :: SiblingsFirst(rows, sent, j)
  }

  /** The first `n` envelopes of a batch. */
  function Envelopes(rows: Relaying.Table, batch: seq<Id>, n: nat): (sent: seq<Envelope>)
    requires n <= |batch| && forall id | id in batch :: id in rows
    ensures |sent| == n && forall i | 0 <= i < n :: batch[i] in rows && sent[i] == rows[batch[i]].envelope
  {
    if n == 0 then [] else Envelopes(rows, batch, n - 1) + [rows[batch[n - 1]].envelope]
  }

  lemma RecordReaches(
      rows: Relaying.Table, broker: seq<Envelope>, batch: seq<Id>, p: Relaying.Progress, n: nat,
      answer: Relaying.Answer, failedAt: Time, dbNow: Time)
    returns (m: nat)
    requires n < |batch| && (forall id | id in batch :: id in rows)
    requires batch[n] in p.rows && p.rows[batch[n]] == rows[batch[n]]
    requires p.broker == broker + Envelopes(rows, batch, n) && p.failed == None
    ensures var p' := Relaying.HandleRecord(p, batch[n], answer, failedAt, dbNow);
            && m <= n + 1 && p'.broker == broker + Envelopes(rows, batch, m) && (p'.failed == None ==> m == n + 1)
            && (m == n + 1 ==> rows[batch[n]].envelope.Valid())
  {
    m := if Relaying.HandleRecord(p, batch[n], answer, failedAt, dbNow).broker == p.broker then n else n + 1;
  }

  /** A batch adds its first envelopes to the broker: those confirmed, and perhaps the one that failed. */
  lemma {:induction false} BatchBroker(
      rows: Relaying.Table, broker: seq<Envelope>, batch: seq<Id>, answers: seq<Relaying.Answer>, failedAt: Time,
      dbNow: Time, n: nat)
    returns (m: nat)
    requires n <= |batch| <= |answers| && (forall id | id in batch :: id in rows) && Relaying.Distinct(batch)
    ensures var p := Relaying.Handled(rows, broker, batch, answers, failedAt, dbNow, n);
            && m <= n && p.broker == broker + Envelopes(rows, batch, m) && (p.failed == None ==> m == n)
            && forall i | 0 <= i < m :: rows[batch[i]].envelope.Valid()
  {
    if n == 0 {
      m := 0;
    } else {
      var before := Relaying.Handled(rows, broker, batch, answers, failedAt, dbNow, n - 1);
      m := BatchBroker(rows, broker, batch, answers, failedAt, dbNow, n - 1);
      if before.failed.Some? {
        assert Relaying.Handled(rows, broker, batch, answers, failedAt, dbNow, n) == before;
      } else {
        Relaying.NextRecordIsUntouched(rows, broker, batch, answers, failedAt, dbNow, n - 1);
        m := RecordReaches(rows, broker, batch, before, n - 1, answers[n - 1], failedAt, dbNow);
        assert Relaying.Handled(rows, broker, batch, answers, failedAt, dbNow, n)
            == Relaying.HandleRecord(before, batch[n - 1], answers[n - 1], failedAt, dbNow);
      }
    }
  }

  /** How many records of the batch reach the broker. */
  ghost function Reaching(w: Relays.World, event: Relays.Event): int
    requires event.Batch? && Relays.Possible(w, event)
  {
    |Relays.Progressed(w, event).broker| - |w.broker|
  }

  lemma BatchReaches(w: Relays.World, event: Relays.Event)
    requires event.Batch? && Relays.Possible(w, event)
    ensures 0 <= Reaching(w, event) <= |event.batch|
    ensures Relays.Progressed(w, event).broker == w.broker + Envelopes(w.rows, event.batch, Reaching(w, event))
    ensures forall i | 0 <= i < Reaching(w, event) ::
              event.batch[i] in w.rows && w.rows[event.batch[i]].envelope.Valid()
  {
    var m := BatchBroker(w.rows, w.broker, event.batch, event.answers, event.failedAt, event.dbNow,
                         if event.fate.Lost? then event.fate.after else |event.batch|);
  }

  /** Every earlier sibling of record `i` is with the broker already or stands before it in the batch. */
  ghost predicate Settled(w: Relays.World, batch: seq<Id>, i: nat)
    requires i < |batch| && batch[i] in w.rows
  {
    forall id | id in w.rows && Sibling(w.rows[id].envelope, w.rows[batch[i]].envelope) ::
      w.rows[id].envelope in w.broker || id in batch[..i]
  }

  ghost predicate SettledStep(w: Relays.World, event: Relays.Event)
    requires Relays.Possible(w, event)
  {
    event.Batch? ==> forall i | 0 <= i < Reaching(w, event) && i < |event.batch| ::
      event.batch[i] in w.rows && Settled(w, event.batch, i)
  }

  ghost predicate SettledRun(events: seq<Relays.Event>)
    requires Relays.PossibleRun(events)
  {
    events == [] || (SettledRun(events[..|events| - 1])
                     && SettledStep(Relays.RunOf(events[..|events| - 1]), events[|events| - 1]))
  }

  /** The table tells: earlier siblings that are SENT, or stand before, settle a record. */
  lemma SentSiblingsSettle(w: Relays.World, batch: seq<Id>, i: nat)
    requires Relays.Safe(w) && i < |batch| && batch[i] in w.rows
    requires forall id | id in w.rows && Sibling(w.rows[id].envelope, w.rows[batch[i]].envelope) ::
               w.rows[id].status == Relaying.Sent || id in batch[..i]
    ensures Settled(w, batch, i)
  {
    forall id | id in w.rows && Sibling(w.rows[id].envelope, w.rows[batch[i]].envelope)
      ensures w.rows[id].envelope in w.broker || id in batch[..i]
    {
      assert Relays.SafeRow(w, id);
    }
  }

  lemma EnvelopesTell(w: Relays.World, batch: seq<Id>, i: nat, id: Id)
    requires Relays.Safe(w) && i <= |batch| && (forall x | x in batch :: x in w.rows) && id in w.rows
    ensures w.rows[id].envelope in Envelopes(w.rows, batch, i) <==> id in batch[..i]
  {
    var sent := Envelopes(w.rows, batch, i);
    assert Relays.SafeRow(w, id);
    if w.rows[id].envelope in sent {
      var k :| 0 <= k < |sent| && sent[k] == w.rows[id].envelope;
      assert Relays.SafeRow(w, batch[k]) && batch[k] in batch;
      assert batch[..i][k] == id;
    }
    if id in batch[..i] {
      var k :| 0 <= k < i && batch[..i][k] == id;
      assert sent[k] == w.rows[id].envelope;
    }
  }

  lemma PrefixOfEnvelopes(rows: Relaying.Table, batch: seq<Id>, i: nat, m: nat)
    requires i <= m <= |batch| && forall id | id in batch :: id in rows
    ensures Envelopes(rows, batch, m)[..i] == Envelopes(rows, batch, i)
  {
  }

  lemma RecordIsInOrderIff(w: Relays.World, batch: seq<Id>, m: nat, sent: seq<Envelope>, i: nat)
    requires Relays.Safe(w) && i < m <= |batch| && (forall x | x in batch :: x in w.rows)
    requires sent == w.broker + Envelopes(w.rows, batch, m)
    ensures batch[i] in w.rows && (SiblingsFirst(w.rows, sent, |w.broker| + i) <==> Settled(w, batch, i))
  {
    var j := |w.broker| + i;
    PrefixOfEnvelopes(w.rows, batch, i, m);
    assert sent[j] == w.rows[batch[i]].envelope;
    assert sent[..j] == w.broker + Envelopes(w.rows, batch, i);
    forall id | id in w.rows
      ensures w.rows[id].envelope in sent[..j] <==> w.rows[id].envelope in w.broker || id in batch[..i]
    {
      EnvelopesTell(w, batch, i, id);
    }
  }

  /** The old part of the broker's sequence stays in order by itself. */
  lemma OldPartIsInOrderIff(rows: Relaying.Table, broker: seq<Envelope>, sent: seq<Envelope>)
    requires broker <= sent
    ensures forall j | 0 <= j < |broker| :: SiblingsFirst(rows, sent, j) <==> SiblingsFirst(rows, broker, j)
  {
    forall j | 0 <= j < |broker| ensures SiblingsFirst(rows, sent, j) <==> SiblingsFirst(rows, broker, j) {
      assert sent[..j] == broker[..j];
    }
  }

  lemma LongerIsInOrderIff(w: Relays.World, batch: seq<Id>, m: nat, sent: seq<Envelope>)
    requires Relays.Safe(w) && m <= |batch| && (forall x | x in batch :: x in w.rows)
    requires sent == w.broker + Envelopes(w.rows, batch, m)
    ensures InOrderSoFar(w.rows, sent)
       <==> InOrderSoFar(w.rows, w.broker) && forall i | 0 <= i < m :: batch[i] in w.rows && Settled(w, batch, i)
  {
    OldPartIsInOrderIff(w.rows, w.broker, sent);
    forall i | 0 <= i < m
      ensures batch[i] in w.rows && (SiblingsFirst(w.rows, sent, |w.broker| + i) <==> Settled(w, batch, i))
    {
      RecordIsInOrderIff(w, batch, m, sent, i);
    }
    if InOrderSoFar(w.rows, w.broker) && forall i | 0 <= i < m :: Settled(w, batch, i) {
      forall j | 0 <= j < |sent| ensures SiblingsFirst(w.rows, sent, j) {
        if j >= |w.broker| { assert Settled(w, batch, j - |w.broker|); }
      }
    }
  }

  /** A batch, committed or lost, keeps the order if and only if each record that reaches the broker is settled. */
  lemma BatchKeepsOrderIff(w: Relays.World, event: Relays.Event)
    requires event.Batch? && Relays.Possible(w, event) && Relays.Safe(w)
    ensures InOrderSoFar(w.rows, Relays.Progressed(w, event).broker)
       <==> InOrderSoFar(w.rows, w.broker) && SettledStep(w, event)
  {
    BatchReaches(w, event);
    LongerIsInOrderIff(w, event.batch, Reaching(w, event), Relays.Progressed(w, event).broker);
  }

  /** The rows are what was inserted, and the broker has nothing else. */
  ghost predicate Accounted(w: Relays.World, inserted: seq<Envelope>) {
    && (forall id | id in w.rows :: w.rows[id].envelope in inserted)
    && (forall m | m in inserted :: m.messageId in w.rows && w.rows[m.messageId].envelope == m)
    && (forall m | m in w.broker :: m in inserted)
  }

  lemma BatchSendsRows(w: Relays.World, event: Relays.Event, m: Envelope)
    requires event.Batch? && Relays.Possible(w, event) && m in Relays.Progressed(w, event).broker
    ensures m in w.broker || exists id :: id in w.rows && w.rows[id].envelope == m
  {
    BatchReaches(w, event);
    var added := Envelopes(w.rows, event.batch, Reaching(w, event));
    if m in added {
      var i :| 0 <= i < |added| && added[i] == m;
      assert event.batch[i] in event.batch;
    }
  }

  /** A batch writes no row and changes no envelope. */
  lemma BatchKeepsEnvelopes(w: Relays.World, event: Relays.Event)
    requires event.Batch? && Relays.Possible(w, event)
    ensures Relays.After(w, event).rows.Keys == w.rows.Keys
    ensures forall id | id in w.rows :: Relays.After(w, event).rows[id].envelope == w.rows[id].envelope
  {
    Relays.BatchFacts(w, event);
  }

  lemma StepIsAccounted(w: Relays.World, event: Relays.Event, inserted: seq<Envelope>)
    requires Relays.Possible(w, event) && Accounted(w, inserted)
    ensures Accounted(Relays.After(w, event), if event.Insert? then inserted + [event.envelope] else inserted)
  {
    if event.Batch? {
      BatchKeepsEnvelopes(w, event);
      forall m | m in Relays.Progressed(w, event).broker ensures m in inserted { BatchSendsRows(w, event, m); }
    }
  }

  lemma {:induction false} RunIsAccounted(events: seq<Relays.Event>)
    requires Relays.PossibleRun(events)
    ensures Accounted(Relays.RunOf(events), Inserted(events))
  {
    if events != [] {
      var before, event := events[..|events| - 1], events[|events| - 1];
      RunIsAccounted(before);
      StepIsAccounted(Relays.RunOf(before), event, Inserted(before));
    }
  }

  lemma NewestIsNoEarlierSibling(inserted: seq<Envelope>, m: Envelope, x: Envelope)
    requires TimedLogs(inserted + [m]) && x in inserted
    ensures !Sibling(m, x)
  {
    var r := m.aggregateId;
    if m.routing.IsJoin() && About(x, r) {
      OneMore(inserted, m);
      LogMembers(inserted, r);
      var log := LogOf(inserted + [m], r);
      var i :| 0 <= i < |LogOf(inserted, r)| && LogOf(inserted, r)[i] == x;
      assert Increasing(log);
      assert EarlierIn(log, i, |log| - 1);
    }
  }

  lemma InsertKeepsOrder(w: Relays.World, event: Relays.Event, inserted: seq<Envelope>)
    requires event.Insert? && Relays.Possible(w, event) && Accounted(w, inserted)
    requires TimedLogs(inserted + [event.envelope])
    ensures InOrderSoFar(Relays.After(w, event).rows, w.broker) <==> InOrderSoFar(w.rows, w.broker)
  {
    var w', m := Relays.After(w, event), event.envelope;
    forall j | 0 <= j < |w.broker| ensures SiblingsFirst(w'.rows, w.broker, j) <==> SiblingsFirst(w.rows, w.broker, j) {
      assert w.broker[j] in w.broker;
      NewestIsNoEarlierSibling(inserted, m, w.broker[j]);
      assert forall id | id in w.rows :: w'.rows[id].envelope == w.rows[id].envelope;
    }
  }

  lemma SameEnvelopesSameOrder(rows: Relaying.Table, rows': Relaying.Table, sent: seq<Envelope>)
    requires rows'.Keys == rows.Keys && forall id | id in rows :: rows'[id].envelope == rows[id].envelope
    ensures InOrderSoFar(rows', sent) <==> InOrderSoFar(rows, sent)
  {
    forall j | 0 <= j < |sent| ensures SiblingsFirst(rows', sent, j) <==> SiblingsFirst(rows, sent, j) {
    }
  }

  lemma BatchStepKeepsOrderIff(w: Relays.World, event: Relays.Event)
    requires event.Batch? && Relays.Possible(w, event) && Relays.Safe(w)
    ensures var w' := Relays.After(w, event);
            InOrderSoFar(w'.rows, w'.broker) <==> InOrderSoFar(w.rows, w.broker) && SettledStep(w, event)
  {
    BatchKeepsOrderIff(w, event);
    BatchKeepsEnvelopes(w, event);
    SameEnvelopesSameOrder(w.rows, Relays.After(w, event).rows, Relays.After(w, event).broker);
  }

  lemma TimedLogsShrink(log: seq<Envelope>, m: Envelope)
    requires TimedLogs(log + [m])
    ensures TimedLogs(log)
  {
    OneMore(log, m);
    forall r: Id ensures Increasing(LogOf(log, r)) {
      assert Increasing(LogOf(log + [m], r));
      forall i, j | 0 <= i < j < |LogOf(log, r)| ensures EarlierIn(LogOf(log, r), i, j) {
        assert EarlierIn(LogOf(log + [m], r), i, j);
      }
    }
  }

  /**
   * Any relays, with crashes, rollbacks, refused publishes and locked rows: the broker has each registration's
   * messages in order if and only if every record that reached it was settled at that moment.
   */
  lemma {:induction false} OrderIsKeptIff(events: seq<Relays.Event>)
    requires Relays.PossibleRun(events) && TimedLogs(Inserted(events))
    ensures InOrderSoFar(Relays.RunOf(events).rows, Relays.RunOf(events).broker) <==> SettledRun(events)
  {
    if events != [] {
      var before, event := events[..|events| - 1], events[|events| - 1];
      var w := Relays.RunOf(before);
      Relays.NoMessageIsLost(before);
      RunIsAccounted(before);
      if event.Insert? {
        TimedLogsShrink(Inserted(before), event.envelope);
        OrderIsKeptIff(before);
        InsertKeepsOrder(w, event, Inserted(before));
      } else {
        OrderIsKeptIff(before);
        BatchStepKeepsOrderIff(w, event);
      }
    }
  }

  // ---------------------------------------------------------------- when the order can still break

  /** Row `b` can go out although its earlier sibling `a` has not. */
  ghost predicate AtRisk(w: Relays.World, a: Id, b: Id) {
    && a in w.rows && b in w.rows && Sibling(w.rows[a].envelope, w.rows[b].envelope)
    && w.rows[a].envelope !in w.broker && w.rows[b].Retryable() && w.rows[b].envelope.Valid()
  }

  ghost predicate AnyAtRisk(w: Relays.World) { exists a, b :: AtRisk(w, a, b) }

  lemma NoRiskIsSettled(w: Relays.World, event: Relays.Event)
    requires event.Batch? && Relays.Possible(w, event) && !AnyAtRisk(w)
    ensures SettledStep(w, event)
  {
    BatchReaches(w, event);
    forall i | 0 <= i < Reaching(w, event) ensures event.batch[i] in w.rows && Settled(w, event.batch, i) {
      var b := event.batch[i];
      assert b in event.batch;
      forall a | a in w.rows && Sibling(w.rows[a].envelope, w.rows[b].envelope) ensures w.rows[a].envelope in w.broker {
        assert !AtRisk(w, a, b);
      }
    }
  }

  lemma NoRiskStays(w: Relays.World, event: Relays.Event)
    requires event.Batch? && Relays.Possible(w, event) && !AnyAtRisk(w)
    ensures !AnyAtRisk(Relays.After(w, event))
  {
    var w' := Relays.After(w, event);
    BatchKeepsEnvelopes(w, event);
    BatchReaches(w, event);
    forall a, b ensures !AtRisk(w', a, b) {
      assert !AtRisk(w, a, b);
      if b in w.rows && !w.rows[b].Retryable() { Relays.FinalRowsStay(w, event, b); }
    }
  }

  /** Batches only: nothing new is written. */
  predicate OnlyBatches(more: seq<Relays.Event>) { forall event | event in more :: event.Batch? }

  lemma {:induction false} NoRiskNoBreak(events: seq<Relays.Event>, more: seq<Relays.Event>)
    requires Relays.PossibleRun(events) && Relays.PossibleRun(events + more) && OnlyBatches(more)
    requires var w := Relays.RunOf(events); InOrderSoFar(w.rows, w.broker) && !AnyAtRisk(w)
    ensures var w := Relays.RunOf(events + more); InOrderSoFar(w.rows, w.broker) && !AnyAtRisk(w)
  {
    if more == [] {
      assert events + more == events;
    } else {
      var shorter, event := more[..|more| - 1], more[|more| - 1];
      assert (events + more)[..|events + more| - 1] == events + shorter && event in more;
      NoRiskNoBreak(events, shorter);
      Relays.NoMessageIsLost(events + shorter);
      NoRiskIsSettled(Relays.RunOf(events + shorter), event);
      NoRiskStays(Relays.RunOf(events + shorter), event);
      BatchStepKeepsOrderIff(Relays.RunOf(events + shorter), event);
    }
  }

  /** A relay takes `b` alone while the other rows are locked. */
  function Alone(w: Relays.World, b: Id): Relays.Event
    requires b in w.rows
  {
    var now := w.rows[b].availableAt;
    Relays.Batch([b], [Relaying.Acked], now, 1, w.rows.Keys - {b}, now, now, Relaying.Commits)
  }

  lemma GoingAloneBreaks(w: Relays.World, a: Id, b: Id)
    requires AtRisk(w, a, b) && Relays.Safe(w)
    ensures Relays.Possible(w, Alone(w, b))
    ensures var w' := Relays.After(w, Alone(w, b)); !InOrderSoFar(w'.rows, w'.broker)
  {
    var event := Alone(w, b);
    assert Relays.Possible(w, event);
    assert Relaying.Handled(w.rows, w.broker, event.batch, event.answers, event.failedAt, event.dbNow, 0)
        == Relaying.Progress(w.rows, w.broker, 0, None);
    assert Reaching(w, event) == 1;
    assert !Settled(w, event.batch, 0);
    BatchStepKeepsOrderIff(w, event);
  }

  ghost predicate OrderCanBreak(events: seq<Relays.Event>) {
    exists more :: Relays.PossibleRun(events + more) && OnlyBatches(more)
                   && !InOrderSoFar(Relays.RunOf(events + more).rows, Relays.RunOf(events + more).broker)
  }

  /**
   * With what is written so far, some relays can break the order if and only if a row that can still be sent has an
   * earlier sibling that is not with the broker.
   */
  lemma OrderCanBreakIff(events: seq<Relays.Event>)
    requires Relays.PossibleRun(events) && InOrderSoFar(Relays.RunOf(events).rows, Relays.RunOf(events).broker)
    ensures OrderCanBreak(events) <==> AnyAtRisk(Relays.RunOf(events))
  {
    var w := Relays.RunOf(events);
    if AnyAtRisk(w) {
      var a, b :| AtRisk(w, a, b);
      Relays.NoMessageIsLost(events);
      GoingAloneBreaks(w, a, b);
      Relays.Extends(events, Alone(w, b));
    } else {
      forall more | Relays.PossibleRun(events + more) && OnlyBatches(more)
        ensures InOrderSoFar(Relays.RunOf(events + more).rows, Relays.RunOf(events + more).broker)
      {
        NoRiskNoBreak(events, more);
      }
    }
  }

  // ---------------------------------------------------------------- one relay whose publishes are all accepted

  /** One relay at a time, and no handled record fails; batches may still be lost at any point. */
  ghost predicate SmoothStep(w: Relays.World, event: Relays.Event)
    requires Relays.Possible(w, event)
  {
    event.Batch? ==> event.locked == {} && Relays.Progressed(w, event).failed == None
  }

  ghost predicate SmoothRun(events: seq<Relays.Event>)
    requires Relays.PossibleRun(events)
  {
    events == [] || (SmoothRun(events[..|events| - 1])
                     && SmoothStep(Relays.RunOf(events[..|events| - 1]), events[|events| - 1]))
  }

  lemma SmoothExtends(events: seq<Relays.Event>, event: Relays.Event)
    requires Relays.PossibleRun(events) && SmoothRun(events)
    requires Relays.Possible(Relays.RunOf(events), event) && SmoothStep(Relays.RunOf(events), event)
    ensures Relays.PossibleRun(events + [event]) && SmoothRun(events + [event])
  {
    Relays.Extends(events, event);
    assert (events + [event])[..|events + [event]| - 1] == events;
  }

  /** Rows not sent yet have never been tried. */
  ghost predicate Untried(rows: Relaying.Table) {
    forall id | id in rows ::
      && rows[id].status in {Relaying.Pending, Relaying.Sent}
      && rows[id].availableAt == rows[id].envelope.occurredAt
  }

  /** An available row older than a selected one is selected too, and stands before it. */
  lemma OlderIsSelectedFirst(rows: Relaying.Table, now: Time, limit: int, batch: seq<Id>, i: nat, id: Id)
    requires Relaying.Selected(rows, now, limit, {}, batch) && i < |batch|
    requires id in rows && Relaying.Available(rows[id], now)
    requires batch[i] in rows && rows[id].envelope.occurredAt < rows[batch[i]].envelope.occurredAt
    ensures exists k :: 0 <= k < i && batch[k] == id
  {
    var last := |batch| - 1;
    assert i == last || Relaying.Earlier(rows, batch[i], batch[last]);
    assert !Relaying.Earlier(rows, batch[last], id);
    assert id in batch;
    assert forall x, y | 0 <= x < y < |batch| :: Relaying.Earlier(rows, batch[x], batch[y]);
    var k :| 0 <= k < |batch| && batch[k] == id;
  }

  /** In a selected batch the earlier sibling of a record was sent before or stands before it. */
  lemma SiblingInBatch(w: Relays.World, event: Relays.Event, i: nat, id: Id)
    requires event.Batch? && Relays.Possible(w, event) && event.locked == {} && Relays.Safe(w) && Untried(w.rows)
    requires i < |event.batch| && id in w.rows
    requires event.batch[i] in w.rows && Sibling(w.rows[id].envelope, w.rows[event.batch[i]].envelope)
    ensures w.rows[id].envelope in w.broker || exists k :: 0 <= k < i && event.batch[k] == id
  {
    assert Relays.SafeRow(w, id) && event.batch[i] in event.batch;
    if w.rows[id].status != Relaying.Sent {
      OlderIsSelectedFirst(w.rows, event.now, event.limit, event.batch, i, id);
    }
  }

  lemma SmoothBatchRows(w: Relays.World, event: Relays.Event)
    requires event.Batch? && Relays.Possible(w, event) && SmoothStep(w, event) && Untried(w.rows)
    ensures Relays.After(w, event).rows.Keys == w.rows.Keys && Untried(Relays.After(w, event).rows)
    ensures forall id | id in w.rows :: Relays.After(w, event).rows[id].envelope == w.rows[id].envelope
  {
    Relays.BatchFacts(w, event);
  }

  lemma SmoothRecordIsSettled(w: Relays.World, event: Relays.Event, i: nat)
    requires event.Batch? && Relays.Possible(w, event) && event.locked == {} && Relays.Safe(w) && Untried(w.rows)
    requires i < |event.batch|
    ensures event.batch[i] in w.rows && Settled(w, event.batch, i)
  {
    assert event.batch[i] in event.batch;
    forall id | id in w.rows && Sibling(w.rows[id].envelope, w.rows[event.batch[i]].envelope)
      ensures w.rows[id].envelope in w.broker || id in event.batch[..i]
    {
      SiblingInBatch(w, event, i, id);
      if k :| 0 <= k < i && event.batch[k] == id { assert event.batch[..i][k] == id; }
    }
  }

  lemma SmoothStepIsSettled(w: Relays.World, event: Relays.Event)
    requires event.Batch? && Relays.Possible(w, event) && SmoothStep(w, event) && Relays.Safe(w) && Untried(w.rows)
    ensures SettledStep(w, event)
  {
    forall i | 0 <= i < Reaching(w, event) && i < |event.batch|
      ensures event.batch[i] in w.rows && Settled(w, event.batch, i)
    {
      SmoothRecordIsSettled(w, event, i);
    }
  }

  /** Ordering each batch by creation time is enough for one relay that meets no refusal. */
  lemma {:induction false} SmoothRunIsSettled(events: seq<Relays.Event>)
    requires Relays.PossibleRun(events) && SmoothRun(events)
    ensures SettledRun(events) && Untried(Relays.RunOf(events).rows)
  {
    if events != [] {
      var before, event := events[..|events| - 1], events[|events| - 1];
      Relays.NoMessageIsLost(before);
      SmoothRunIsSettled(before);
      if event.Batch? {
        SmoothBatchRows(Relays.RunOf(before), event);
        SmoothStepIsSettled(Relays.RunOf(before), event);
      }
    }
  }

  // ---------------------------------------------------------------- the whole way

  ghost function FirstOf(sent: seq<Envelope>): seq<Envelope> { Effective(Straight(sent)) }

  lemma FirstUnfolds(sent: seq<Envelope>)
    requires sent != [] && forall m | m in sent :: Applicable(m)
    ensures var before, m := FirstOf(sent[..|sent| - 1]), sent[|sent| - 1];
            FirstOf(sent) == if m.messageId in IdsOf(before) then before else before + [m]
  {
    assert Straight(sent)[..|sent| - 1] == Straight(sent[..|sent| - 1]);
    assert sent[|sent| - 1] in sent;
  }

  lemma {:induction false} FirstMembers(sent: seq<Envelope>)
    requires OneEnvelopePerId(sent) && forall m | m in sent :: Applicable(m)
    ensures forall m :: m in FirstOf(sent) <==> m in sent
  {
    if sent != [] {
      var before, m := sent[..|sent| - 1], sent[|sent| - 1];
      assert sent == before + [m];
      assert forall x | x in before :: x in sent;
      FirstMembers(before);
      FirstUnfolds(sent);
      if m.messageId in IdsOf(FirstOf(before)) {
        var x :| x in FirstOf(before) && x.messageId == m.messageId;
        assert x in sent && m in sent;
      }
    }
  }

  /** What one projector reading a closed sequence in order processes first is closed. */
  lemma {:induction false} FirstIsClosed(sent: seq<Envelope>, all: seq<Envelope>)
    requires Closed(sent, all) && OneEnvelopePerId(all) && forall m | m in sent :: m in all && Applicable(m)
    ensures Closed(FirstOf(sent), all)
  {
    if sent != [] {
      var before, m := sent[..|sent| - 1], sent[|sent| - 1];
      assert sent == before + [m] && m in sent;
      assert forall x | x in before :: x in sent;
      ShorterIsClosed(sent, all);
      FirstIsClosed(before, all);
      FirstMembers(before);
      FirstUnfolds(sent);
      LongerIsClosedIff(before, m, all);
      LongerIsClosedIff(FirstOf(before), m, all);
    }
  }

  /** Everything the operations wrote was confirmed by the broker. */
  ghost predicate AllSent(w: Relays.World) { forall id | id in w.rows :: w.rows[id].status == Relaying.Sent }

  lemma BrokerHasAll(events: seq<Relays.Event>)
    requires Relays.PossibleRun(events) && AllSent(Relays.RunOf(events))
    ensures OneEnvelopePerId(Inserted(events))
    ensures forall m :: m in Relays.RunOf(events).broker <==> m in Inserted(events)
  {
    var w := Relays.RunOf(events);
    RunIsAccounted(events);
    Relays.NoMessageIsLost(events);
    forall m | m in Inserted(events) ensures m in w.broker {
      assert Relays.SafeRow(w, m.messageId);
    }
  }

  /** The projectors get copies of what the broker took, and each message is processed some time. */
  ghost predicate Delivers(deliveries: seq<Delivery>, broker: seq<Envelope>) {
    && (forall d | d in deliveries :: d.envelope in broker)
    && (forall m | m in broker :: m.messageId in FeedAfter(deliveries).processed)
  }

  lemma DeliveredHaveEffect(deliveries: seq<Delivery>, broker: seq<Envelope>)
    requires Delivers(deliveries, broker) && OneEnvelopePerId(broker)
    ensures forall m :: m in Effective(deliveries) <==> m in broker
  {
    EffectiveIsOnce(deliveries);
    OnlyEffectiveDeliveriesCount(deliveries);
    forall m | m in broker ensures m in Effective(deliveries) {
      var x :| x in Effective(deliveries) && x.messageId == m.messageId;
    }
  }

  /**
   * From operations to feed: each registration's messages carry increasing times, any relays send everything with
   * crashes, rollbacks, refusals and locks, and any number of projectors handle copies of it in any order, with
   * failures, retries and repeats, until all is processed. If each message takes effect only after the earlier ones
   * of its registration, the feed shows the true count of every event not cancelled.
   */
  lemma PipelineAgrees(repo: Repo, ops: seq<Op>, events: seq<Relays.Event>, deliveries: seq<Delivery>, e: Id)
    requires FreshRun(repo, ops) && Live(Run(repo, ops), e)
    requires TimedLogs(Run(repo, ops).outbox) && Inserted(events) == Run(repo, ops).outbox
    requires Relays.PossibleRun(events) && AllSent(Relays.RunOf(events))
    requires Delivers(deliveries, Relays.RunOf(events).broker) && EachWaits(deliveries, Run(repo, ops).outbox)
    ensures ProjectedCount(deliveries, e) == TrueCount(Run(repo, ops), e)
  {
    BrokerHasAll(events);
    DeliveredHaveEffect(deliveries, Relays.RunOf(events).broker);
    AllInOrder(deliveries, Run(repo, ops).outbox);
    FeedAgrees(repo, ops, deliveries, e);
  }

  lemma SettledBrokerIsClosed(events: seq<Relays.Event>)
    requires Relays.PossibleRun(events) && SettledRun(events) && TimedLogs(Inserted(events))
    ensures Closed(Relays.RunOf(events).broker, Inserted(events))
  {
    var w, all := Relays.RunOf(events), Inserted(events);
    OrderIsKeptIff(events);
    RunIsAccounted(events);
    forall j, a | 0 <= j < |w.broker| && a in all && Sibling(a, w.broker[j]) ensures a in w.broker[..j] {
      assert SiblingsFirst(w.rows, w.broker, j);
      assert w.rows[a.messageId].envelope == a;
    }
  }

  /** One projector that reads such a broker's sequence in order and never fails makes each message wait. */
  lemma StraightReadingWaits(events: seq<Relays.Event>)
    requires Relays.PossibleRun(events) && SettledRun(events) && TimedLogs(Inserted(events))
    requires AllSent(Relays.RunOf(events)) && forall m | m in Inserted(events) :: Applicable(m)
    ensures var broker := Relays.RunOf(events).broker;
            Delivers(Straight(broker), broker) && EachWaits(Straight(broker), Inserted(events))
  {
    var broker, all := Relays.RunOf(events).broker, Inserted(events);
    BrokerHasAll(events);
    SettledBrokerIsClosed(events);
    FirstMembers(broker);
    FirstIsClosed(broker, all);
    OnlyEffectiveDeliveriesCount(Straight(broker));
    WaitingIsClosedIff(Straight(broker), all);
  }

  /** If every record was settled when it reached the broker, one projector in order and without failures is enough. */
  lemma StraightPipelineAgrees(repo: Repo, ops: seq<Op>, events: seq<Relays.Event>, e: Id)
    requires FreshRun(repo, ops) && Live(Run(repo, ops), e) && forall op | op in ops :: WellNamed(op)
    requires TimedLogs(Run(repo, ops).outbox) && Inserted(events) == Run(repo, ops).outbox
    requires Relays.PossibleRun(events) && SettledRun(events) && AllSent(Relays.RunOf(events))
    ensures ProjectedCount(Straight(Relays.RunOf(events).broker), e) == TrueCount(Run(repo, ops), e)
  {
    RunIsProjectable(repo, ops);
    StraightReadingWaits(events);
    PipelineAgrees(repo, ops, events, Straight(Relays.RunOf(events).broker), e);
  }

  /** One relay, no refused publish and strictly increasing operation times settle every record. */
  lemma OneSmoothRelayAgrees(repo: Repo, ops: seq<Op>, events: seq<Relays.Event>, e: Id)
    requires FreshRun(repo, ops) && Live(Run(repo, ops), e) && forall op | op in ops :: WellNamed(op)
    requires StrictlyTimed(ops) && Inserted(events) == Run(repo, ops).outbox
    requires Relays.PossibleRun(events) && SmoothRun(events) && AllSent(Relays.RunOf(events))
    ensures ProjectedCount(Straight(Relays.RunOf(events).broker), e) == TrueCount(Run(repo, ops), e)
  {
    RunWritesInTime(repo, ops);
    SmoothRunIsSettled(events);
    StraightPipelineAgrees(repo, ops, events, e);
  }
}
