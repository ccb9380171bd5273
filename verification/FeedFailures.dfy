/**
 * How the feed comes to show a seat too many: one user joins and leaves again, and the leave takes effect first. On the
 * way to the broker a refused publish, two relays or equal operation times do it; behind the broker a failed handling
 * or two projectors. And a cancelled event keeps its count.
 */
module FeedFailures {
  import opened Collections
  import opened Messages
  import opened Registrations
  import opened JoinStatus
  import opened Visits
  import opened FeedProjection
  import opened Pipeline
  import opened OutboxRelay
  import opened EndToEnd
  import Relays = RelayRuns

  // ---------------------------------------------------------------- what the projector makes of a swap

  function Swapped(v: Visit): seq<Envelope> { [EventOut(v), LeaveOut(v), JoinOut(v)] }

  lemma RowsOfThree(a: Envelope, b: Envelope, c: Envelope)
    requires Applicable(a) && Applicable(b) && Applicable(c)
    ensures RowsAfter([a, b, c]) == ApplyTo(ApplyTo(ApplyTo(map[], a), b), c)
  {
    RowsAfterOneMore([], a);
    RowsAfterOneMore([a], b);
    RowsAfterOneMore([a, b], c);
    assert [] + [a] == [a] && [a] + [b] == [a, b] && [a, b] + [c] == [a, b, c];
  }

  lemma VisitIsApplicable(v: Visit)
    requires Plausible(v)
    ensures Applicable(EventOut(v)) && Applicable(LeaveOut(v)) && Applicable(JoinOut(v))
  {
  }

  lemma SwappedRows(v: Visit)
    requires Plausible(v)
    ensures forall m | m in Swapped(v) :: Applicable(m)
    ensures CountOf(RowsAfter(Swapped(v)), v.event.id) == 1
  {
    VisitIsApplicable(v);
    RowsOfThree(EventOut(v), LeaveOut(v), JoinOut(v));
  }

  /** Read in that order the feed shows one seat although nobody holds one. */
  ghost predicate Overcounts(repo: Repo, v: Visit) {
    && FreshRun(repo, Ops(v)) && Run(repo, Ops(v)).outbox == [EventOut(v), JoinOut(v), LeaveOut(v)]
    && ProjectedCount(Straight(Swapped(v)), v.event.id) == TrueCount(Run(repo, Ops(v)), v.event.id) + 1
  }

  lemma SwapIsProjected(v: Visit)
    requires Plausible(v)
    ensures ProjectedCount(Straight(Swapped(v)), v.event.id) == 1
  {
    SwappedRows(v);
    StraightIsEffective(Swapped(v));
    OnlyEffectiveDeliveriesCount(Straight(Swapped(v)));
  }

  lemma SwapOvercounts(repo: Repo, v: Visit)
    requires Plausible(v)
    ensures Overcounts(repo, v)
  {
    VisitRuns(repo, v);
    SwapIsProjected(v);
  }

  // ---------------------------------------------------------------- the relay's side

  function RowOfMessage(m: Envelope): OutboxRow { OutboxRow(m, m.occurredAt, 0, Pending) }

  function One(m: Envelope, now: Time, locked: set<Id>): Relays.Event {
    Relays.Batch([m.messageId], [Acked], now, 2, locked, now, now, Commits)
  }

  function Two(a: Envelope, b: Envelope, answer: Answer, now: Time): Relays.Event {
    Relays.Batch([a.messageId, b.messageId], [answer, Acked], now, 2, {}, now, now, Commits)
  }

  lemma OnlyRecord(rows: Table, broker: seq<Envelope>, id: Id, answer: Answer, failedAt: Time, dbNow: Time)
    requires id in rows
    ensures OutboxRelay.Handled(rows, broker, [id], [answer], failedAt, dbNow, 1)
         == HandleRecord(Progress(rows, broker, 0, None), id, answer, failedAt, dbNow)
  {
    assert OutboxRelay.Handled(rows, broker, [id], [answer], failedAt, dbNow, 0) == Progress(rows, broker, 0, None);
  }

  lemma RefusedFirst(rows: Table, broker: seq<Envelope>, batch: seq<Id>, answers: seq<Answer>, failedAt: Time,
                     dbNow: Time)
    requires |batch| == 2 == |answers| && (forall id | id in batch :: id in rows) && answers[0].Refused?
    ensures OutboxRelay.Handled(rows, broker, batch, answers, failedAt, dbNow, 2)
         == HandleRecord(Progress(rows, broker, 0, None), batch[0], answers[0], failedAt, dbNow)
  {
    assert OutboxRelay.Handled(rows, broker, batch, answers, failedAt, dbNow, 0) == Progress(rows, broker, 0, None);
    assert OutboxRelay.Handled(rows, broker, batch, answers, failedAt, dbNow, 1)
        == HandleRecord(Progress(rows, broker, 0, None), batch[0], answers[0], failedAt, dbNow);
  }

  /** A batch of the only available free row, which the broker confirms. */
  lemma OneIsSent(w: Relays.World, m: Envelope, now: Time, locked: set<Id>)
    requires m.messageId in w.rows && w.rows[m.messageId].envelope == m && m.Valid()
    requires forall id | id in w.rows :: (Available(w.rows[id], now) && id !in locked) <==> id == m.messageId
    ensures Relays.Possible(w, One(m, now, locked))
    ensures var w' := Relays.After(w, One(m, now, locked));
            && w'.rows == w.rows[m.messageId := w.rows[m.messageId].(status := Sent)]
            && w'.broker == w.broker + [m]
    ensures Relays.Progressed(w, One(m, now, locked)).failed == None
  {
    OnlyRecord(w.rows, w.broker, m.messageId, Acked, now, now);
  }

  ghost predicate BothAvailable(w: Relays.World, a: Envelope, b: Envelope, now: Time) {
    && a.messageId in w.rows && w.rows[a.messageId] == RowOfMessage(a) && a.Valid()
    && b.messageId in w.rows && w.rows[b.messageId] == RowOfMessage(b) && b.Valid()
    && a.messageId != b.messageId && Earlier(w.rows, a.messageId, b.messageId)
    && forall id | id in w.rows :: Available(w.rows[id], now) <==> id in {a.messageId, b.messageId}
  }

  lemma TwoAreTaken(w: Relays.World, a: Envelope, b: Envelope, answer: Answer, now: Time)
    requires BothAvailable(w, a, b, now)
    ensures Relays.Possible(w, Two(a, b, answer, now))
  {
  }

  lemma TwoAreSent(w: Relays.World, a: Envelope, b: Envelope, now: Time)
    requires BothAvailable(w, a, b, now)
    ensures Relays.Possible(w, Two(a, b, Acked, now))
    ensures var w' := Relays.After(w, Two(a, b, Acked, now));
            && w'.rows == w.rows[a.messageId := RowOfMessage(a).(status := Sent)]
                                [b.messageId := RowOfMessage(b).(status := Sent)]
            && w'.broker == w.broker + [a, b]
    ensures Relays.Progressed(w, Two(a, b, Acked, now)).failed == None
  {
    TwoAreTaken(w, a, b, Acked, now);
    var batch, answers := [a.messageId, b.messageId], [Acked, Acked];
    assert OutboxRelay.Handled(w.rows, w.broker, batch, answers, now, now, 0) == Progress(w.rows, w.broker, 0, None);
    assert OutboxRelay.Handled(w.rows, w.broker, batch, answers, now, now, 1).broker == w.broker + [a];
  }

  /** The first of the two is refused, and the second is not tried. */
  lemma FirstIsRefused(w: Relays.World, a: Envelope, b: Envelope, now: Time)
    requires BothAvailable(w, a, b, now)
    ensures Relays.Possible(w, Two(a, b, Refused(false), now))
    ensures var w' := Relays.After(w, Two(a, b, Refused(false), now));
            && w'.rows == w.rows[a.messageId := OutboxRow(a, now + 1, 1, RowStatus.Failed)]
            && w'.broker == w.broker
  {
    TwoAreTaken(w, a, b, Refused(false), now);
    RefusedFirst(w.rows, w.broker, [a.messageId, b.messageId], [Refused(false), Acked], now, now);
  }

  lemma InsertedGrows(events: seq<Relays.Event>, event: Relays.Event)
    ensures Inserted(events + [event])
         == if event.Insert? then Inserted(events) + [event.envelope] else Inserted(events)
  {
    assert (events + [event])[..|events + [event]| - 1] == events;
  }

  lemma InsertOne(events: seq<Relays.Event>, m: Envelope)
    requires Relays.PossibleRun(events) && m.messageId !in Relays.RunOf(events).rows
    ensures var w, events' := Relays.RunOf(events), events + [Relays.Insert(m)];
            && Relays.PossibleRun(events') && Inserted(events') == Inserted(events) + [m]
            && Relays.RunOf(events').rows == w.rows[m.messageId := RowOfMessage(m)]
            && Relays.RunOf(events').broker == w.broker
    ensures SmoothRun(events) ==> SmoothRun(events + [Relays.Insert(m)])
  {
    Relays.Extends(events, Relays.Insert(m));
    InsertedGrows(events, Relays.Insert(m));
    if SmoothRun(events) { SmoothExtends(events, Relays.Insert(m)); }
  }

  lemma SendOne(events: seq<Relays.Event>, m: Envelope, now: Time, locked: set<Id>)
    requires Relays.PossibleRun(events)
    requires var rows := Relays.RunOf(events).rows;
             && m.messageId in rows && rows[m.messageId].envelope == m && m.Valid()
             && forall id | id in rows :: (Available(rows[id], now) && id !in locked) <==> id == m.messageId
    ensures var w, events' := Relays.RunOf(events), events + [One(m, now, locked)];
            && Relays.PossibleRun(events') && Inserted(events') == Inserted(events)
            && Relays.RunOf(events').rows == w.rows[m.messageId := w.rows[m.messageId].(status := Sent)]
            && Relays.RunOf(events').broker == w.broker + [m]
    ensures SmoothRun(events) && locked == {} ==> SmoothRun(events + [One(m, now, locked)])
  {
    OneIsSent(Relays.RunOf(events), m, now, locked);
    Relays.Extends(events, One(m, now, locked));
    InsertedGrows(events, One(m, now, locked));
    if SmoothRun(events) && locked == {} { SmoothExtends(events, One(m, now, locked)); }
  }

  /** The event is published and sent, then the join and the leave are written. */
  function Opening(v: Visit): seq<Relays.Event> {
    [Relays.Insert(EventOut(v)), One(EventOut(v), v.event.createdAt, {}),
     Relays.Insert(JoinOut(v)), Relays.Insert(LeaveOut(v))]
  }

  predicate Opened(v: Visit, w: Relays.World) {
    && w.rows == map[v.published := RowOfMessage(EventOut(v)).(status := Sent), v.joined := RowOfMessage(JoinOut(v)),
                     v.left := RowOfMessage(LeaveOut(v))]
    && w.broker == [EventOut(v)]
  }

  lemma EventIsSent(v: Visit)
    requires Plausible(v)
    ensures var events := Opening(v)[..2];
            && Relays.PossibleRun(events) && Inserted(events) == [EventOut(v)]
            && Relays.RunOf(events).broker == [EventOut(v)]
            && Relays.RunOf(events).rows == map[v.published := RowOfMessage(EventOut(v)).(status := Sent)]
            && SmoothRun(events)
  {
    InsertOne([], EventOut(v));
    var written := [] + [Relays.Insert(EventOut(v))];
    SendOne(written, EventOut(v), v.event.createdAt, {});
    assert written + [One(EventOut(v), v.event.createdAt, {})] == Opening(v)[..2];
  }

  lemma OpeningRuns(v: Visit)
    requires Plausible(v)
    ensures Relays.PossibleRun(Opening(v)) && Opened(v, Relays.RunOf(Opening(v)))
    ensures Inserted(Opening(v)) == [EventOut(v), JoinOut(v), LeaveOut(v)] && SmoothRun(Opening(v))
  {
    var sent := Opening(v)[..2];
    EventIsSent(v);
    InsertOne(sent, JoinOut(v));
    InsertOne(sent + [Relays.Insert(JoinOut(v))], LeaveOut(v));
    assert sent + [Relays.Insert(JoinOut(v))] + [Relays.Insert(LeaveOut(v))] == Opening(v);
  }

  /** Everything written is sent, each message once, the leave before the join. */
  ghost predicate EndsSwapped(v: Visit, events: seq<Relays.Event>) {
    && Relays.PossibleRun(events) && AllSent(Relays.RunOf(events))
    && Inserted(events) == [EventOut(v), JoinOut(v), LeaveOut(v)] && Relays.RunOf(events).broker == Swapped(v)
  }

  /** Only the two messages of the visit are left to send. */
  ghost predicate Remaining(v: Visit, events: seq<Relays.Event>) {
    && Relays.PossibleRun(events) && Inserted(events) == [EventOut(v), JoinOut(v), LeaveOut(v)]
    && Relays.RunOf(events).broker == [EventOut(v)]
    && Relays.RunOf(events).rows.Keys == {v.published, v.joined, v.left}
    && Relays.RunOf(events).rows[v.published].status == Sent
    && Relays.RunOf(events).rows[v.joined].envelope == JoinOut(v)
    && Relays.RunOf(events).rows[v.left].envelope == LeaveOut(v)
  }

  /** At `t` the leave's row can be taken and the join's row cannot, but can at `t'`. */
  ghost predicate LeaveIsNext(v: Visit, events: seq<Relays.Event>, t: Time, locked: set<Id>, t': Time) {
    && Remaining(v, events)
    && var rows := Relays.RunOf(events).rows;
    && Available(rows[v.left], t) && v.left !in locked
    && (v.joined in locked || !Available(rows[v.joined], t)) && Available(rows[v.joined], t')
  }

  function LeaveThenJoin(v: Visit, events: seq<Relays.Event>, t: Time, locked: set<Id>, t': Time): seq<Relays.Event> {
    events + [One(LeaveOut(v), t, locked)] + [One(JoinOut(v), t', {})]
  }

  lemma JoinGoesLast(v: Visit, events: seq<Relays.Event>, t: Time)
    requires Plausible(v) && Relays.PossibleRun(events)
    requires Inserted(events) == [EventOut(v), JoinOut(v), LeaveOut(v)]
    requires var w := Relays.RunOf(events);
             && w.broker == [EventOut(v), LeaveOut(v)] && w.rows.Keys == {v.published, v.joined, v.left}
             && w.rows[v.published].status == Sent && w.rows[v.left].status == Sent
             && w.rows[v.joined].envelope == JoinOut(v) && Available(w.rows[v.joined], t)
    ensures EndsSwapped(v, events + [One(JoinOut(v), t, {})])
  {
    SendOne(events, JoinOut(v), t, {});
  }

  lemma LeaveGoesFirst(v: Visit, events: seq<Relays.Event>, t: Time, locked: set<Id>, t': Time)
    requires Plausible(v) && LeaveIsNext(v, events, t, locked, t')
    ensures EndsSwapped(v, LeaveThenJoin(v, events, t, locked, t'))
  {
    SendOne(events, LeaveOut(v), t, locked);
    JoinGoesLast(v, events + [One(LeaveOut(v), t, locked)], t');
  }

  // ---------------------------------------------------------------- three ways to the wrong order at the broker

  function Refusal(v: Visit, t: Time): Relays.Event { Two(JoinOut(v), LeaveOut(v), Refused(false), t) }

  lemma RefusalRuns(v: Visit, events: seq<Relays.Event>, t: Time)
    requires Plausible(v) && v.joinAt < v.leaveAt <= t
    requires Relays.PossibleRun(events) && Opened(v, Relays.RunOf(events))
    ensures Relays.PossibleRun(events + [Refusal(v, t)])
    ensures Inserted(events + [Refusal(v, t)]) == Inserted(events)
    ensures var w := Relays.RunOf(events + [Refusal(v, t)]);
            && w.broker == [EventOut(v)]
            && w.rows == Relays.RunOf(events).rows[v.joined := OutboxRow(JoinOut(v), t + 1, 1, RowStatus.Failed)]
  {
    FirstIsRefused(Relays.RunOf(events), JoinOut(v), LeaveOut(v), t);
    Relays.Extends(events, Refusal(v, t));
    InsertedGrows(events, Refusal(v, t));
  }

  lemma LeaveIsNextAfterRefusal(v: Visit, events: seq<Relays.Event>, t: Time, t': Time)
    requires Plausible(v) && v.joinAt < v.leaveAt <= t < t'
    requires Relays.PossibleRun(events) && Opened(v, Relays.RunOf(events))
    requires Inserted(events) == [EventOut(v), JoinOut(v), LeaveOut(v)]
    ensures LeaveIsNext(v, events + [Refusal(v, t)], t, {}, t')
  {
    RefusalRuns(v, events, t);
  }

  lemma RefusalEndsSwapped(v: Visit, events: seq<Relays.Event>, t: Time, t': Time)
    requires Plausible(v) && v.joinAt < v.leaveAt <= t < t'
    requires Relays.PossibleRun(events) && Opened(v, Relays.RunOf(events))
    requires Inserted(events) == [EventOut(v), JoinOut(v), LeaveOut(v)]
    ensures EndsSwapped(v, LeaveThenJoin(v, events + [Refusal(v, t)], t, {}, t'))
  {
    LeaveIsNextAfterRefusal(v, events, t, t');
    LeaveGoesFirst(v, events + [Refusal(v, t)], t, {}, t');
  }

  /** The join's publish is refused once, at `t`; the leave goes first in the next batch. */
  lemma RefusedPublishOvercounts(repo: Repo, v: Visit, t: Time, t': Time)
    requires Plausible(v) && v.joinAt < v.leaveAt <= t < t'
    ensures EndsSwapped(v, LeaveThenJoin(v, Opening(v) + [Refusal(v, t)], t, {}, t'))
    ensures Overcounts(repo, v)
  {
    OpeningRuns(v);
    RefusalEndsSwapped(v, Opening(v), t, t');
    SwapOvercounts(repo, v);
  }

  /** One relay holds the join's row while another publishes the leave; nothing is refused. */
  lemma TwoRelaysOvercount(repo: Repo, v: Visit, t: Time, t': Time)
    requires Plausible(v) && v.leaveAt <= t && v.joinAt <= t'
    ensures EndsSwapped(v, LeaveThenJoin(v, Opening(v), t, {v.joined}, t'))
    ensures Overcounts(repo, v)
  {
    OpeningRuns(v);
    LeaveGoesFirst(v, Opening(v), t, {v.joined}, t');
    SwapOvercounts(repo, v);
  }

  /** The two operations read their clocks before the event was locked: at the same time, or in the wrong order. */
  predicate LeaveSortsFirst(v: Visit) { v.leaveAt < v.joinAt || (v.leaveAt == v.joinAt && TextLess(v.left, v.joined)) }

  function Tie(v: Visit, t: Time): Relays.Event { Two(LeaveOut(v), JoinOut(v), Acked, t) }

  lemma TieIsAvailable(v: Visit, w: Relays.World, t: Time)
    requires Plausible(v) && LeaveSortsFirst(v) && v.joinAt <= t && Opened(v, w)
    ensures BothAvailable(w, LeaveOut(v), JoinOut(v), t)
  {
  }

  lemma TieIsSent(v: Visit, w: Relays.World, t: Time)
    requires Plausible(v) && LeaveSortsFirst(v) && v.joinAt <= t && Opened(v, w)
    ensures Relays.Possible(w, Tie(v, t))
    ensures Relays.After(w, Tie(v, t)).broker == Swapped(v) && AllSent(Relays.After(w, Tie(v, t)))
  {
    TieIsAvailable(v, w, t);
    TwoAreSent(w, LeaveOut(v), JoinOut(v), t);
  }

  lemma TieEndsSwapped(v: Visit, events: seq<Relays.Event>, t: Time)
    requires Plausible(v) && LeaveSortsFirst(v) && v.joinAt <= t
    requires Relays.PossibleRun(events) && Opened(v, Relays.RunOf(events))
    requires Inserted(events) == [EventOut(v), JoinOut(v), LeaveOut(v)]
    ensures EndsSwapped(v, events + [Tie(v, t)])
  {
    TieIsSent(v, Relays.RunOf(events), t);
    Relays.Extends(events, Tie(v, t));
    InsertedGrows(events, Tie(v, t));
  }

  /** Times that do not tell the order of the operations: one relay, nothing refused. */
  lemma TiedTimesOvercount(repo: Repo, v: Visit, t: Time)
    requires Plausible(v) && LeaveSortsFirst(v) && v.joinAt <= t
    ensures EndsSwapped(v, Opening(v) + [Tie(v, t)])
    ensures Overcounts(repo, v)
  {
    OpeningRuns(v);
    TieEndsSwapped(v, Opening(v), t);
    SwapOvercounts(repo, v);
  }

  // ---------------------------------------------------------------- behind a broker that has everything in order

  function Written(v: Visit): seq<Envelope> { [EventOut(v), JoinOut(v), LeaveOut(v)] }

  function Both(v: Visit, t: Time): Relays.Event { Two(JoinOut(v), LeaveOut(v), Acked, t) }

  /** One relay, nothing refused, everything sent in the order written. */
  ghost predicate EndsInOrder(v: Visit, events: seq<Relays.Event>) {
    && Relays.PossibleRun(events) && SmoothRun(events) && AllSent(Relays.RunOf(events))
    && Inserted(events) == Written(v) && Relays.RunOf(events).broker == Written(v)
  }

  lemma JoinIsFirst(v: Visit, w: Relays.World, t: Time)
    requires Plausible(v) && v.joinAt < v.leaveAt <= t && Opened(v, w)
    ensures BothAvailable(w, JoinOut(v), LeaveOut(v), t)
  {
  }

  lemma BothAreSent(v: Visit, w: Relays.World, t: Time)
    requires Plausible(v) && v.joinAt < v.leaveAt <= t && Opened(v, w)
    ensures Relays.Possible(w, Both(v, t)) && SmoothStep(w, Both(v, t))
    ensures Relays.After(w, Both(v, t)).broker == Written(v) && AllSent(Relays.After(w, Both(v, t)))
  {
    JoinIsFirst(v, w, t);
    TwoAreSent(w, JoinOut(v), LeaveOut(v), t);
  }

  lemma RelayKeepsOrder(v: Visit, events: seq<Relays.Event>, t: Time)
    requires Plausible(v) && v.joinAt < v.leaveAt <= t
    requires Relays.PossibleRun(events) && SmoothRun(events) && Opened(v, Relays.RunOf(events))
    requires Inserted(events) == Written(v)
    ensures EndsInOrder(v, events + [Both(v, t)])
  {
    BothAreSent(v, Relays.RunOf(events), t);
    Relays.Extends(events, Both(v, t));
    SmoothExtends(events, Both(v, t));
    InsertedGrows(events, Both(v, t));
  }

  /** The join's transaction rolls back once; its retry comes after the leave. */
  function Retried(v: Visit): seq<Delivery> {
    [Delivery(EventOut(v), NoFault), Delivery(JoinOut(v), RolledBack), Delivery(LeaveOut(v), NoFault),
     Delivery(JoinOut(v), NoFault)]
  }

  lemma RetryIsSwap(v: Visit)
    requires Plausible(v)
    ensures FeedAfter(Retried(v)) == FeedAfter(Straight(Swapped(v)))
  {
    var failed := Delivery(JoinOut(v), RolledBack);
    var before := [Delivery(EventOut(v), NoFault)];
    var after := [Delivery(LeaveOut(v), NoFault), Delivery(JoinOut(v), NoFault)];
    FailureIsInvisible(before, failed, after);
    assert before + [failed] + after == Retried(v) && before + after == Straight(Swapped(v));
  }

  lemma SwapIsProcessed(v: Visit)
    requires Plausible(v)
    ensures FeedAfter(Straight(Swapped(v))).processed == IdsOf(Swapped(v))
  {
    SwappedRows(v);
    StraightIsEffective(Swapped(v));
    OnlyEffectiveDeliveriesCount(Straight(Swapped(v)));
  }

  lemma RetryDelivers(v: Visit)
    requires Plausible(v)
    ensures Delivers(Retried(v), Written(v))
  {
    RetryIsSwap(v);
    SwapIsProcessed(v);
    forall m | m in Written(v) ensures m.messageId in IdsOf(Swapped(v)) {
      assert m in Swapped(v);
    }
  }

  /**
   * Strictly increasing times, one relay, nothing refused, everything sent in order and one projector: a single failed
   * handling, retried later, is enough for a seat too many.
   */
  lemma FailedHandlingOvercounts(repo: Repo, v: Visit, t: Time)
    requires Plausible(v) && v.joinAt < v.leaveAt <= t
    ensures FreshRun(repo, Ops(v)) && StrictlyTimed(Ops(v)) && Run(repo, Ops(v)).outbox == Written(v)
    ensures EndsInOrder(v, Opening(v) + [Both(v, t)]) && Delivers(Retried(v), Written(v))
    ensures ProjectedCount(Retried(v), v.event.id) == TrueCount(Run(repo, Ops(v)), v.event.id) + 1
  {
    VisitRuns(repo, v);
    OpeningRuns(v);
    RelayKeepsOrder(v, Opening(v), t);
    RetryDelivers(v);
    RetryIsSwap(v);
    SwapIsProjected(v);
  }

  /** `c` deals out to, or puts together, the two sequences `a` and `b`, each in its order. */
  predicate Merges<T(==)>(a: seq<T>, b: seq<T>, c: seq<T>)
    decreases |c|
  {
    if c == [] then a == [] && b == []
    else (a != [] && a[0] == c[0] && Merges(a[1..], b, c[1..]))
         || (b != [] && b[0] == c[0] && Merges(a, b[1..], c[1..]))
  }

  lemma VisitMerges(v: Visit)
    ensures Merges([EventOut(v), JoinOut(v)], [LeaveOut(v)], Written(v))
    ensures Merges([EventOut(v), JoinOut(v)], [LeaveOut(v)], Swapped(v))
  {
    var p, j, l := EventOut(v), JoinOut(v), LeaveOut(v);
    assert [p, j][1..] == [j] && [j][1..] == [] && [l][1..] == [];
    assert [p, j, l][1..] == [j, l] && [j, l][1..] == [l] && [p, l, j][1..] == [l, j] && [l, j][1..] == [j];
    assert Merges<Envelope>([], [], []);
    assert Merges([], [l], [l]) && Merges([j], [], [j]);
    assert Merges([j], [l], [j, l]) && Merges([j], [l], [l, j]);
  }

  /**
   * The same with two workers and no failure: the queue is dealt out to them in order, one gets the event and the
   * join, the other the leave; each handles its own in order, and the leave commits before the join.
   */
  lemma TwoWorkersOvercount(repo: Repo, v: Visit, t: Time)
    requires Plausible(v) && v.joinAt < v.leaveAt <= t
    ensures EndsInOrder(v, Opening(v) + [Both(v, t)]) && StrictlyTimed(Ops(v))
    ensures Merges([EventOut(v), JoinOut(v)], [LeaveOut(v)], Written(v))
    ensures Merges([EventOut(v), JoinOut(v)], [LeaveOut(v)], Swapped(v))
    ensures Overcounts(repo, v)
  {
    OpeningRuns(v);
    RelayKeepsOrder(v, Opening(v), t);
    VisitMerges(v);
    SwapOvercounts(repo, v);
  }

  // ---------------------------------------------------------------- a cancelled event

  /** Create, join, cancel the event; everything is handled in order: nobody holds a seat and the feed shows one. */
  lemma CanceledEventOvercounts(repo: Repo, v: Visit)
    requires Plausible(v)
    ensures var ops := Ops(v)[..2] + [Cancellation(v)];
            && FreshRun(repo, ops) && TrueCount(Run(repo, ops), v.event.id) == 0
            && ProjectedCount(Straight(Run(repo, ops).outbox), v.event.id) == 1
  {
    var ops, cancel := Ops(v)[..2], Cancellation(v);
    var all := ops + [cancel];
    CancellationRuns(repo, v);
    OutboxIdsAreDistinct(repo, all);
    RunIsProjectable(repo, all);
    StraightIsEffective(Run(repo, all).outbox);
    assert ops + [cancel] + [] == all;
    CanceledFeedIsStale(repo, ops, cancel, [], Straight(Run(repo, all).outbox), v.event.id);
  }
}
