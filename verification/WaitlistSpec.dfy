/**
 * The simple form of the protocol: seats and one first-come-first-served queue per event, no waitlist
 * numbers. Both repositories refine it, step by step, and so agree with each other.
 */
module WaitlistSpec {
  import opened Collections
  import opened Messages
  import opened Registrations
  import opened RegistrationInvariants

  // ---------------------------------------------------------------- forgetting the numbers

  function Plain(reg: Registration): Registration { reg.(waitlistPosition := 0) }

  function PlainRegs(regs: Regs): Regs { map id | id in regs :: Plain(regs[id]) }

  function PlainMessage(m: Envelope): Envelope {
    if m.payload.Nil? then m else m.(payload := m.payload.(waitlistPosition := 0))
  }

  function PlainOption(reg: Option<Registration>): Option<Registration> {
    match reg case None => None case Some(r) => Some(Plain(r))
  }

  function PlainOutcome(outcome: Outcome): Outcome {
    match outcome
    case Joined(reg, existing) => Joined(Plain(reg), existing)
    case JoinCancel(status, canceled, promoted, noActive) =>
      JoinCancel(status, PlainOption(canceled), PlainOption(promoted), noActive)
    case _ => outcome
  }

  // ---------------------------------------------------------------- the abstract machine

  datatype Board = Board(events: Events, seats: Regs, queues: Queues, outbox: seq<Envelope>)

  type Queues = map<Id, seq<Id>>

  function QueueOf(queues: Queues, e: Id): seq<Id> { if e in queues then queues[e] else [] }

  ghost function Leave(queue: seq<Id>, id: Id): (rest: seq<Id>) {
    if id !in queue then queue else
    var k :| 0 <= k < |queue| && queue[k] == id;
    queue[..k] + queue[k + 1..]
  }

  ghost function BoardJoin(b: Board, e: Id, u: Id, key: string, now: Time, registration: Id, message: Id)
    : (Board, Outcome)
  {
    if e !in b.events then (b, Failed(NotFound))
    else if ActiveIds(b.seats, e, u) != {} then (b, Joined(b.seats[Pick(ActiveIds(b.seats, e, u))], true))
    else
      var decision := DecideJoinStatus(b.events[e], |ConfirmedIds(b.seats, e)|, now);
      if decision.Err? then (b, Failed(decision.error)) else
      var waits := decision.value == Waitlisted;
      var seat := Registration(registration, e, u, decision.value, 0, key, now, now);
      var message := JoinMessage(message, if waits then JoinWaitlisted else JoinConfirmed, seat, Absent, now);
      (Board(b.events, b.seats[registration := seat],
             if waits then b.queues[e := QueueOf(b.queues, e) + [registration]] else b.queues,
             b.outbox + [message]),
       Joined(seat, false))
  }

  ghost function BoardRelease(b: Board, e: Id, id: Id, now: Time, message: Id): Board
    requires id in b.seats
  {
    var seat := b.seats[id].(status := Canceled, updatedAt := now);
    Board(b.events, b.seats[id := seat], b.queues[e := Leave(QueueOf(b.queues, e), id)],
          b.outbox + [JoinMessage(message, JoinCanceled, seat, b.seats[id].status, now)])
  }

  /** The head of the queue takes the free seat. */
  ghost function BoardPromote(b: Board, e: Id, now: Time, message: Id): Board
    requires QueueOf(b.queues, e) != [] && QueueOf(b.queues, e)[0] in b.seats
  {
    var head := QueueOf(b.queues, e)[0];
    var seat := b.seats[head].(status := Confirmed, updatedAt := now);
    Board(b.events, b.seats[head := seat], b.queues[e := QueueOf(b.queues, e)[1..]],
          b.outbox + [JoinMessage(message, JoinPromoted, seat, Waitlisted, now)])
  }

  ghost function BoardCancel(b: Board, e: Id, u: Id, now: Time, message: Id, promotedMessage: Id): (Board, Outcome) {
    if ActiveIds(b.seats, e, u) == {} then
      (b, JoinCancel(if UserIds(b.seats, e, u) == {} then NotJoined else Canceled, None, None, true))
    else
      var id := Pick(ActiveIds(b.seats, e, u));
      var b1 := BoardRelease(b, e, id, now, message);
      if b.seats[id].status != Confirmed || QueueOf(b1.queues, e) == [] || QueueOf(b1.queues, e)[0] !in b1.seats then
        (b1, JoinCancel(Canceled, Some(b1.seats[id]), None, false))
      else
        var b2 := BoardPromote(b1, e, now, promotedMessage);
        (b2, JoinCancel(Canceled, Some(b1.seats[id]), Some(b2.seats[QueueOf(b1.queues, e)[0]]), false))
  }

  /** Event operations do not look at the queue; cancelling an event empties it. */
  ghost function BoardStep(b: Board, op: Op): (Board, Outcome) {
    var s := Store(b.events, b.seats, b.outbox);
    match op
    case Create(event, message) =>
      var (s', outcome) := CreateStep(s, event, message);
      (Board(s'.events, s'.regs, b.queues[event.id := []], s'.outbox), outcome)
    case Update(e, actor, admin, command, now, message) =>
      var (s', outcome) := UpdateStep(s, e, actor, admin, command, now, message);
      (Board(s'.events, s'.regs, b.queues, s'.outbox), outcome)
    case CancelEvent(e, actor, admin, now, message) =>
      var (s', outcome) := CancelEventStep(s, e, actor, admin, now, message);
      (Board(s'.events, s'.regs, if s' == s then b.queues else b.queues[e := []], s'.outbox), outcome)
    case Join(e, u, key, now, registration, message) => BoardJoin(b, e, u, key, now, registration, message)
    case CancelJoin(e, u, now, message, promotedMessage) =>
      if e !in b.events then (b, Failed(NotFound)) else BoardCancel(b, e, u, now, message, promotedMessage)
    case CancelRegistration(e, actor, admin, u, now, message, promotedMessage) =>
      if e !in b.events then (b, Failed(NotFound))
      else if b.events[e].organizerId != actor && !admin then (b, Failed(Forbidden))
      else BoardCancel(b, e, u, now, message, promotedMessage)
  }

  ghost function BoardRun(ops: seq<Op>): Board {
    if ops == [] then Board(map[], map[], map[], []) else BoardStep(BoardRun(ops[..|ops| - 1]), ops[|ops| - 1]).0
  }

  // ---------------------------------------------------------------- the abstraction relation

  predicate Before(regs: Regs, a: Id, b: Id) {
    a in regs && b in regs && regs[a].waitlistPosition < regs[b].waitlistPosition
  }

  /** `queue` lists exactly the waiting registrations of `e`, by increasing number. */
  ghost predicate InLine(regs: Regs, e: Id, queue: seq<Id>) {
    && (forall id | id in queue :: id in WaitingIds(regs, e))
    && (forall id | id in WaitingIds(regs, e) :: id in queue)
    && (forall i, j | 0 <= i < j < |queue| :: Before(regs, queue[i], queue[j]))
  }

  ghost predicate InLines(regs: Regs, queues: Queues) {
    forall e: Id :: InLine(regs, e, QueueOf(queues, e))
  }

  ghost predicate SameMessages(outbox: seq<Envelope>, plain: seq<Envelope>) {
    |outbox| == |plain| && forall i | 0 <= i < |outbox| :: plain[i] == PlainMessage(outbox[i])
  }

  ghost predicate Represents(s: Store, b: Board) {
    && b.events == s.events
    && b.seats == PlainRegs(s.regs)
    && InLines(s.regs, b.queues)
    && SameMessages(s.outbox, b.outbox)
  }

  /** The two machines are in matching states and gave the same answer. */
  ghost predicate Mirrors(concrete: (Store, Outcome), plain: (Board, Outcome)) {
    Represents(concrete.0, plain.0) && PlainOutcome(concrete.1) == plain.1
  }

  lemma PlainQueries(regs: Regs)
    ensures forall e :: ConfirmedIds(PlainRegs(regs), e) == ConfirmedIds(regs, e)
    ensures forall e :: WaitingIds(PlainRegs(regs), e) == WaitingIds(regs, e)
    ensures forall e, u :: ActiveIds(PlainRegs(regs), e, u) == ActiveIds(regs, e, u)
    ensures forall e, u :: UserIds(PlainRegs(regs), e, u) == UserIds(regs, e, u)
  {
  }

  /** A line survives any change that keeps its event's waiting rows and their numbers. */
  lemma LineCarriesOver(regs: Regs, regs': Regs, e: Id, queue: seq<Id>)
    requires InLine(regs, e, queue) && WaitingIds(regs', e) == WaitingIds(regs, e)
    requires forall id | id in WaitingIds(regs, e) :: regs'[id].waitlistPosition == regs[id].waitlistPosition
    ensures InLine(regs', e, queue)
  {
    forall i, j | 0 <= i < j < |queue| ensures Before(regs', queue[i], queue[j]) {
      assert Before(regs, queue[i], queue[j]) && queue[i] in queue && queue[j] in queue;
    }
  }

  /** Writing row `id` of one event leaves every other event's line alone. */
  lemma OtherLines(regs: Regs, id: Id, reg: Registration, e: Id, queue: seq<Id>)
    requires id in regs ==> regs[id].eventId == reg.eventId
    requires e != reg.eventId && InLine(regs, e, queue)
    ensures InLine(regs[id := reg], e, queue)
  {
    LineCarriesOver(regs, regs[id := reg], e, queue);
  }

  lemma LineGrows(regs: Regs, id: Id, reg: Registration, queue: seq<Id>)
    requires id !in regs && InLine(regs, reg.eventId, queue) && reg.status == Waitlisted
    requires forall w | w in WaitingIds(regs, reg.eventId) :: regs[w].waitlistPosition < reg.waitlistPosition
    ensures InLine(regs[id := reg], reg.eventId, queue + [id])
  {
    var regs' := regs[id := reg];
    assert WaitingIds(regs', reg.eventId) == WaitingIds(regs, reg.eventId) + {id};
    forall i, j | 0 <= i < j < |queue + [id]| ensures Before(regs', (queue + [id])[i], (queue + [id])[j]) {
      assert queue[i] in queue;
      if j < |queue| {
        assert Before(regs, queue[i], queue[j]) && queue[j] in queue;
      }
    }
  }

  lemma SkippingOne(queue: seq<Id>, k: nat)
    requires k < |queue| && forall i, j | 0 <= i < j < |queue| :: queue[i] != queue[j]
    ensures forall x :: x in queue[..k] + queue[k + 1..] <==> x in queue && x != queue[k]
  {
    assert queue == queue[..k] + [queue[k]] + queue[k + 1..];
  }

  lemma LeaveSkips(queue: seq<Id>, id: Id)
    requires forall i, j | 0 <= i < j < |queue| :: queue[i] != queue[j]
    ensures forall x :: x in Leave(queue, id) <==> x in queue && x != id
    ensures id in queue ==>
              exists k :: 0 <= k < |queue| && queue[k] == id && Leave(queue, id) == queue[..k] + queue[k + 1..]
  {
    if id in queue {
      var k :| 0 <= k < |queue| && queue[k] == id && Leave(queue, id) == queue[..k] + queue[k + 1..];
      SkippingOne(queue, k);
    }
  }

  lemma LineIsDistinct(regs: Regs, e: Id, queue: seq<Id>)
    requires InLine(regs, e, queue)
    ensures forall i, j | 0 <= i < j < |queue| :: queue[i] != queue[j]
  {
    forall i, j | 0 <= i < j < |queue| ensures queue[i] != queue[j] {
      assert Before(regs, queue[i], queue[j]);
    }
  }

  /** A registration that stops waiting, or never waited, leaves the others in the same order. */
  lemma LineShrinks(regs: Regs, id: Id, reg: Registration, queue: seq<Id>)
    requires id in regs ==> regs[id].eventId == reg.eventId
    requires InLine(regs, reg.eventId, queue) && reg.status != Waitlisted
    ensures InLine(regs[id := reg], reg.eventId, Leave(queue, id))
  {
    var regs', rest := regs[id := reg], Leave(queue, id);
    LineIsDistinct(regs, reg.eventId, queue);
    LeaveSkips(queue, id);
    assert WaitingIds(regs', reg.eventId) == WaitingIds(regs, reg.eventId) - {id};
    var k := if id in queue then var k :| 0 <= k < |queue| && queue[k] == id && rest == queue[..k] + queue[k + 1..]; k
             else |queue|;
    forall i, j | 0 <= i < j < |rest| ensures Before(regs', rest[i], rest[j]) {
      assert Before(regs, queue[if i < k then i else i + 1], queue[if j < k then j else j + 1]);
      assert rest[i] in rest && rest[j] in rest;
    }
  }

  lemma HeadIsFirst(regs: Regs, e: Id, queue: seq<Id>)
    requires InLine(regs, e, queue)
    ensures queue == [] <==> WaitingIds(regs, e) == {}
    ensures queue != [] ==> queue[0] == FirstWaiting(regs, e) && Leave(queue, queue[0]) == queue[1..]
  {
    if WaitingIds(regs, e) != {} {
      var first := FirstWaiting(regs, e);
      assert first in queue;
      var i :| 0 <= i < |queue| && queue[i] == first;
      assert queue[0] in queue;
      assert i != 0 ==> Before(regs, queue[0], queue[i]);
      LineIsDistinct(regs, e, queue);
      var k :| 0 <= k < |queue| && queue[k] == queue[0] && Leave(queue, queue[0]) == queue[..k] + queue[k + 1..];
      assert k == 0;
    }
    if queue != [] {
      assert queue[0] in queue;
    }
  }

  // ---------------------------------------------------------------- refinement, step by step

  /** All lines after writing one row, given the line of that row's event. */
  lemma LinesAfterRow(regs: Regs, queues: Queues, id: Id, reg: Registration, queue: seq<Id>)
    requires InLines(regs, queues)
    requires id in regs ==> regs[id].eventId == reg.eventId
    requires InLine(regs[id := reg], reg.eventId, queue)
    ensures InLines(regs[id := reg], queues[reg.eventId := queue])
    ensures queue == QueueOf(queues, reg.eventId) ==> InLines(regs[id := reg], queues)
  {
    var regs', queues' := regs[id := reg], queues[reg.eventId := queue];
    forall e: Id ensures InLine(regs', e, QueueOf(queues', e))
                 && (queue == QueueOf(queues, reg.eventId) ==> InLine(regs', e, QueueOf(queues, e)))
    {
      assert InLine(regs, e, QueueOf(queues, e));
      if e != reg.eventId { OtherLines(regs, id, reg, e, QueueOf(queues, e)); }
    }
  }

  lemma JoinLines(regs: Regs, queues: Queues, id: Id, reg: Registration)
    requires InLines(regs, queues) && id !in regs
    requires reg.status == Waitlisted ==> reg.waitlistPosition == NextPosition(regs, reg.eventId)
    ensures InLines(regs[id := reg], if reg.status != Waitlisted then queues
                                     else queues[reg.eventId := QueueOf(queues, reg.eventId) + [id]])
  {
    var queue := QueueOf(queues, reg.eventId);
    assert InLine(regs, reg.eventId, queue);
    assert WaitingIds(regs, reg.eventId) <= EventIds(regs, reg.eventId);
    if reg.status == Waitlisted {
      LineGrows(regs, id, reg, queue);
      LinesAfterRow(regs, queues, id, reg, queue + [id]);
    } else {
      LineCarriesOver(regs, regs[id := reg], reg.eventId, queue);
      LinesAfterRow(regs, queues, id, reg, queue);
    }
  }

  lemma JoinRefines(s: Store, b: Board, e: Id, u: Id, key: string, now: Time, registration: Id, message: Id)
    requires Represents(s, b) && registration !in s.regs
    ensures Mirrors(JoinStep(s, e, u, key, now, registration, message),
                    BoardJoin(b, e, u, key, now, registration, message))
  {
    assert ConfirmedIds(b.seats, e) == ConfirmedIds(s.regs, e)
        && ActiveIds(b.seats, e, u) == ActiveIds(s.regs, e, u) by {
      PlainQueries(s.regs);
    }
    var s' := JoinStep(s, e, u, key, now, registration, message).0;
    if s' != s {
      JoinLines(s.regs, b.queues, registration, s'.regs[registration]);
      assert PlainRegs(s'.regs) == b.seats[registration := Plain(s'.regs[registration])];
    }
  }

  /** One row is written and one message appended, on both sides. */
  lemma RowRefines(s: Store, b: Board, id: Id, reg: Registration, m: Envelope, queue: seq<Id>)
    requires Represents(s, b)
    requires id in s.regs ==> s.regs[id].eventId == reg.eventId
    requires InLine(s.regs[id := reg], reg.eventId, queue)
    ensures Represents(Store(s.events, s.regs[id := reg], s.outbox + [m]),
                       Board(b.events, b.seats[id := Plain(reg)], b.queues[reg.eventId := queue],
                             b.outbox + [PlainMessage(m)]))
  {
    LinesAfterRow(s.regs, b.queues, id, reg, queue);
    assert PlainRegs(s.regs[id := reg]) == b.seats[id := Plain(reg)];
  }

  lemma ReleaseRefines(repo: Repo, s: Store, b: Board, id: Id, now: Time, message: Id)
    requires Represents(s, b) && id in s.regs
    ensures Represents(Release(repo, s, id, now, message), BoardRelease(b, s.regs[id].eventId, id, now, message))
  {
    var e := s.regs[id].eventId;
    var s' := Release(repo, s, id, now, message);
    LineShrinks(s.regs, id, s'.regs[id], QueueOf(b.queues, e));
    RowRefines(s, b, id, s'.regs[id], s'.outbox[|s.outbox|], Leave(QueueOf(b.queues, e), id));
  }

  lemma PromoteRefines(s: Store, b: Board, e: Id, now: Time, message: Id)
    requires Represents(s, b) && WaitingIds(s.regs, e) != {}
    ensures QueueOf(b.queues, e) != [] && QueueOf(b.queues, e)[0] == FirstWaiting(s.regs, e)
            && QueueOf(b.queues, e)[0] in b.seats
    ensures Represents(Promote(s, FirstWaiting(s.regs, e), now, message), BoardPromote(b, e, now, message))
  {
    HeadIsFirst(s.regs, e, QueueOf(b.queues, e));
    var id := FirstWaiting(s.regs, e);
    var s' := Promote(s, id, now, message);
    LineShrinks(s.regs, id, s'.regs[id], QueueOf(b.queues, e));
    RowRefines(s, b, id, s'.regs[id], s'.outbox[|s.outbox|], QueueOf(b.queues, e)[1..]);
  }

  lemma CancelActiveRefines(
      repo: Repo, s: Store, b: Board, e: Id, u: Id, now: Time, message: Id, promotedMessage: Id)
    requires Represents(s, b) && ActiveIds(s.regs, e, u) != {} && ActiveIds(b.seats, e, u) == ActiveIds(s.regs, e, u)
    ensures Mirrors(CancelStep(repo, s, e, u, now, message, promotedMessage),
                    BoardCancel(b, e, u, now, message, promotedMessage))
  {
    var id := Pick(ActiveIds(s.regs, e, u));
    ReleaseRefines(repo, s, b, id, now, message);
    var s1 := Release(repo, s, id, now, message);
    var b1 := BoardRelease(b, e, id, now, message);
    HeadIsFirst(s1.regs, e, QueueOf(b1.queues, e));
    if s.regs[id].status == Confirmed && WaitingIds(s1.regs, e) != {} {
      PromoteRefines(s1, b1, e, now, promotedMessage);
    }
  }

  lemma CancelRefines(repo: Repo, s: Store, b: Board, e: Id, u: Id, now: Time, message: Id, promotedMessage: Id)
    requires Represents(s, b)
    ensures Mirrors(CancelStep(repo, s, e, u, now, message, promotedMessage),
            BoardCancel(b, e, u, now, message, promotedMessage))
  {
    assert ActiveIds(b.seats, e, u) == ActiveIds(s.regs, e, u) && UserIds(b.seats, e, u) == UserIds(s.regs, e, u) by {
      PlainQueries(s.regs);
    }
    if ActiveIds(s.regs, e, u) != {} {
      CancelActiveRefines(repo, s, b, e, u, now, message, promotedMessage);
    }
  }

  lemma CancelEventLines(regs: Regs, queues: Queues, e: Id, now: Time)
    requires InLines(regs, queues)
    ensures InLines(ReleaseAll(regs, e, now), queues[e := []])
  {
    var regs', queues' := ReleaseAll(regs, e, now), queues[e := []];
    forall e': Id ensures InLine(regs', e', QueueOf(queues', e')) {
      if e' != e {
        assert WaitingIds(regs', e') == WaitingIds(regs, e');
        LineCarriesOver(regs, regs', e', QueueOf(queues, e'));
      }
    }
  }

  lemma CreateRefines(s: Store, b: Board, event: Event, message: Id)
    requires RowsOk(s) && Represents(s, b) && event.id !in s.events
    ensures Mirrors(CreateStep(s, event, message), BoardStep(b, Create(event, message)))
  {
    PlainQueries(s.regs);
    var queues' := b.queues[event.id := []];
    assert WaitingIds(s.regs, event.id) == {};
    forall e: Id ensures InLine(s.regs, e, QueueOf(queues', e)) {
      assert InLine(s.regs, e, QueueOf(b.queues, e));
    }
  }

  lemma UpdateRefines(s: Store, b: Board, e: Id, actor: Id, admin: bool, command: UpdateCommand, now: Time, message: Id)
    requires Represents(s, b)
    ensures Mirrors(UpdateStep(s, e, actor, admin, command, now, message),
                    BoardStep(b, Update(e, actor, admin, command, now, message)))
  {
    assert ConfirmedIds(b.seats, e) == ConfirmedIds(s.regs, e) by { PlainQueries(s.regs); }
  }

  lemma CancelEventRefines(s: Store, b: Board, e: Id, actor: Id, admin: bool, now: Time, message: Id)
    requires Represents(s, b)
    ensures Mirrors(CancelEventStep(s, e, actor, admin, now, message),
            BoardStep(b, CancelEvent(e, actor, admin, now, message)))
  {
    PlainQueries(s.regs);
    CancelEventLines(s.regs, b.queues, e, now);
    assert PlainRegs(ReleaseAll(s.regs, e, now)) == ReleaseAll(PlainRegs(s.regs), e, now);
    PlainQueries(ReleaseAll(s.regs, e, now));
  }

  /** The two ways to give up a registration differ in who may ask. */
  lemma GivingUpRefines(repo: Repo, s: Store, b: Board, op: Op)
    requires Represents(s, b) && (op.CancelJoin? || op.CancelRegistration?)
    ensures Mirrors(Step(repo, s, op), BoardStep(b, op))
  {
    match op
    case CancelJoin(e, u, now, message, promotedMessage) =>
      CancelRefines(repo, s, b, e, u, now, message, promotedMessage);
    case CancelRegistration(e, actor, admin, u, now, message, promotedMessage) =>
      CancelRefines(repo, s, b, e, u, now, message, promotedMessage);
  }

  /** One operation of either repository is one step of the queue machine, with the same answer. */
  lemma StepRefines(repo: Repo, s: Store, b: Board, op: Op)
    requires RowsOk(s) && Represents(s, b) && Fresh(s, op)
    ensures Mirrors(Step(repo, s, op), BoardStep(b, op))
  {
    match op
    case Join(e, u, key, now, registration, message) => JoinRefines(s, b, e, u, key, now, registration, message);
    case CancelJoin(_, _, _, _, _) => GivingUpRefines(repo, s, b, op);
    case CancelRegistration(_, _, _, _, _, _, _) => GivingUpRefines(repo, s, b, op);
    case Create(event, message) => CreateRefines(s, b, event, message);
    case Update(e, actor, admin, command, now, message) => UpdateRefines(s, b, e, actor, admin, command, now, message);
    case CancelEvent(e, actor, admin, now, message) => CancelEventRefines(s, b, e, actor, admin, now, message);
  }

  lemma {:induction false} RunRefines(repo: Repo, ops: seq<Op>)
    requires FreshRun(repo, ops)
    ensures Represents(Run(repo, ops), BoardRun(ops))
  {
    if ops == [] {
      assert forall e: Id :: WaitingIds(EMPTY.regs, e) == {};
    } else {
      var before := ops[..|ops| - 1];
      RunRefines(repo, before);
      RunKeeps(repo, before);
      StepRefines(repo, Run(repo, before), BoardRun(before), ops[|ops| - 1]);
    }
  }
}
