/**
 * Runs of the consumers of one queue: any number of channels, deliveries that succeed or fail, late answers,
 * timeouts and lost connections. A confirmation that was given up on stays on its channel and is taken for the
 * answer to the next publish.
 */
module ConsumerRuns {
  import opened Collections
  import opened ConsumerRetry

  /** Where the broker keeps a copy: in the consumer's queue, in a retry queue, or with the dead letters. */
  datatype Place = Ready | Delayed(queue: int) | DeadLettered

  datatype Copy = Copy(place: Place, delivery: Delivery)

  /** A consumer's channel and the copy whose republish it is waiting for. */
  datatype Session = Session(line: Line, held: Option<nat>)

  const OPENED := Session(Line([], [], 0), None)

  /** Messages are told apart by their bodies; `arrived` and `processed` are what an observer notes down. */
  datatype World = World(queue: string, copies: map<nat, Copy>, arrived: set<string>, processed: set<string>,
                         sessions: map<nat, Session>)

  datatype Step =
    | Arrive(x: nat, delivery: Delivery)
    | Handled(x: nat)
    | Publish(c: nat, x: nat, cause: string)
    | Answer(c: nat, ack: bool, y: nat)
    | Read(c: nat)
    | GiveUp(c: nat)
    | Reopen(c: nat)
    | TimerFires(x: nat)

  function SessionOf(w: World, c: nat): Session { if c in w.sessions then w.sessions[c] else OPENED }

  function LineOf(w: World, c: nat): Line { SessionOf(w, c).line }

  /** Copy `x` has been handed to channel `c`, whose consumer waits for a confirmation. */
  predicate HeldBy(w: World, x: nat, c: nat) { SessionOf(w, c).held == Some(x) }

  predicate Free(w: World, x: nat) {
    x in w.copies && w.copies[x].place == Ready && forall c | c in w.sessions :: !HeldBy(w, x, c)
  }

  predicate Possible(w: World, step: Step) {
    match step
    case Arrive(x, _) => x !in w.copies
    case Handled(x) => Free(w, x)
    case Publish(c, x, _) => Free(w, x) && SessionOf(w, c).held == None
    case Answer(c, _, y) => |LineOf(w, c).answers| < |LineOf(w, c).published| && y !in w.copies
    case Read(c) => SessionOf(w, c).held.Some? && LineOf(w, c).read < |LineOf(w, c).answers|
    case GiveUp(c) => SessionOf(w, c).held.Some?
    case Reopen(_) => true
    case TimerFires(x) => x in w.copies && w.copies[x].place.Delayed?
  }

  /** What the broker makes of a publication it takes; a retry queue returns it under the queue's own name. */
  function CopyOf(queue: string, p: Publication): Copy {
    Copy(if p.target.RetryQueue? then Delayed(p.target.n) else DeadLettered, Delivery(queue, p.body, p.headers))
  }

  function WithSession(w: World, c: nat, session: Session): World { w.(sessions := w.sessions[c := session]) }

  function After(w: World, step: Step): World
    requires Possible(w, step)
  {
    match step
    case Arrive(x, d) => w.(copies := w.copies[x := Copy(Ready, d)], arrived := w.arrived + {d.body})
    case Handled(x) => w.(copies := w.copies - {x}, processed := w.processed + {w.copies[x].delivery.body})
    case Publish(c, x, cause) =>
      WithSession(w, c, Session(LineOf(w, c).Put(PublicationOf(w.copies[x].delivery, cause)), Some(x)))
    case Answer(c, ack, y) =>
      var line := LineOf(w, c);
      var w' := WithSession(w, c, SessionOf(w, c).(line := line.Hear([ack])));
      if ack then w'.(copies := w.copies[y := CopyOf(w.queue, line.published[|line.answers|])]) else w'
    case Read(c) =>
      var line := LineOf(w, c);
      var w' := WithSession(w, c, Session(line.Next(), None));
      if line.answers[line.read] then w'.(copies := w.copies - {SessionOf(w, c).held.value}) else w'
    case GiveUp(c) => WithSession(w, c, SessionOf(w, c).(held := None))
    case Reopen(c) => WithSession(w, c, OPENED)
    case TimerFires(x) => w.(copies := w.copies[x := w.copies[x].(place := Ready)])
  }

  function Start(queue: string): World { World(queue, map[], {}, {}, map[]) }

  predicate PossibleFrom(w: World, steps: seq<Step>)
    decreases steps
  {
    steps == [] || (Possible(w, steps[0]) && PossibleFrom(After(w, steps[0]), steps[1..]))
  }

  function RunFrom(w: World, steps: seq<Step>): World
    requires PossibleFrom(w, steps)
    decreases steps
  {
    if steps == [] then w else RunFrom(After(w, steps[0]), steps[1..])
  }

  /** Answers given up on and still to come on channel `c`. */
  function Abandoned(w: World, c: nat): int {
    LineOf(w, c).Unread() - if SessionOf(w, c).held.Some? then 1 else 0
  }

  /** What a consumer can see to: it publishes only on a channel on which it gave up on no confirmation. */
  predicate Careful(w: World, step: Step) { step.Publish? ==> Abandoned(w, step.c) == 0 }

  predicate CarefulFrom(w: World, steps: seq<Step>)
    requires PossibleFrom(w, steps)
    decreases steps
  {
    steps == [] || (Careful(w, steps[0]) && CarefulFrom(After(w, steps[0]), steps[1..]))
  }

  // ---------------------------------------------------------------- dropped or not

  ghost predicate HasCopy(w: World, body: string) { exists x :: x in w.copies && w.copies[x].delivery.body == body }

  ghost predicate OnItsWay(w: World, body: string) {
    exists c, i :: c in w.sessions && |LineOf(w, c).answers| <= i < |LineOf(w, c).published|
                   && LineOf(w, c).published[i].body == body
  }

  /** Every message is processed or the broker still has a copy of it. */
  ghost predicate NothingDropped(w: World) {
    forall body | body in w.arrived :: body in w.processed || HasCopy(w, body)
  }

  /** Gone for good: not processed, no copy, and no publication the broker might still take. */
  ghost predicate Dropped(w: World, body: string) {
    body in w.arrived && body !in w.processed && !HasCopy(w, body) && !OnItsWay(w, body)
  }

  // ---------------------------------------------------------------- what every step keeps

  /** A republish carries the number of the retry queue it goes to. */
  predicate OnLadder(p: Publication) {
    p.target.RetryQueue? ==> 1 <= p.target.n <= MAX_CONSUMER_RETRIES && RetryCount(p.headers) == p.target.n
  }

  ghost predicate LineOk(w: World, line: Line) {
    line.Ordered() && forall p | p in line.published :: p.body in w.arrived && OnLadder(p)
  }

  /** A consumer waits with its copy, which it was the last to publish on its channel. */
  ghost predicate HeldOk(w: World, session: Session) {
    session.held.Some? ==>
      && session.held.value in w.copies && w.copies[session.held.value].place == Ready
      && session.line.read < |session.line.published|
      && session.line.published[|session.line.published| - 1].body == w.copies[session.held.value].delivery.body
  }

  ghost predicate SessionOk(w: World, c: nat) { LineOk(w, LineOf(w, c)) && HeldOk(w, SessionOf(w, c)) }

  predicate CopyOk(w: World, x: nat)
    requires x in w.copies
  {
    var copy := w.copies[x];
    && copy.delivery.body in w.arrived
    && (copy.place.Delayed? ==>
          1 <= copy.place.queue <= MAX_CONSUMER_RETRIES && RetryCount(copy.delivery.headers) == copy.place.queue)
  }

  ghost predicate Sound(w: World) {
    && w.processed <= w.arrived
    && (forall c | c in w.sessions :: SessionOk(w, c))
    && (forall x | x in w.copies :: CopyOk(w, x))
    && (forall c, c' | c in w.sessions && c' in w.sessions && SessionOf(w, c).held.Some?
                       && SessionOf(w, c).held == SessionOf(w, c').held :: c == c')
  }

  lemma PublicationIsOnLadder(d: Delivery, cause: string)
    ensures OnLadder(PublicationOf(d, cause)) && PublicationOf(d, cause).body == d.body
  {
    if RetryCount(d.headers) < MAX_CONSUMER_RETRIES {
      RetryCountGrows("", d, cause);
    }
  }

  lemma LineStaysOk(w: World, step: Step, c: nat)
    requires Sound(w) && Possible(w, step) && c in After(w, step).sessions
    ensures LineOk(After(w, step), LineOf(After(w, step), c))
  {
    assert SessionOk(w, c);
    if step.Publish? {
      PublicationIsOnLadder(w.copies[step.x].delivery, step.cause);
      assert CopyOk(w, step.x);
    }
  }

  lemma HeldStaysOk(w: World, step: Step, c: nat)
    requires Sound(w) && Possible(w, step) && c in After(w, step).sessions
    ensures HeldOk(After(w, step), SessionOf(After(w, step), c))
  {
    assert SessionOk(w, c);
    if step.Handled? {
      assert c in w.sessions && !HeldBy(w, step.x, c);
    } else if step.Publish? && step.c == c {
      PublicationIsOnLadder(w.copies[step.x].delivery, step.cause);
    }
  }

  lemma CopyStaysOk(w: World, step: Step, x: nat)
    requires Sound(w) && Possible(w, step) && x in After(w, step).copies
    ensures CopyOk(After(w, step), x)
  {
    assert x in w.copies ==> CopyOk(w, x);
    if step.Answer? && step.ack && x == step.y {
      var line := LineOf(w, step.c);
      assert SessionOk(w, step.c) && line.published[|line.answers|] in line.published;
    }
  }

  lemma HoldersStayApart(w: World, step: Step, c: nat, c': nat)
    requires Sound(w) && Possible(w, step) && c in After(w, step).sessions && c' in After(w, step).sessions
    requires SessionOf(After(w, step), c).held.Some?
    requires SessionOf(After(w, step), c).held == SessionOf(After(w, step), c').held
    ensures c == c'
  {
    if step.Publish? {
      assert c in w.sessions ==> !HeldBy(w, step.x, c);
      assert c' in w.sessions ==> !HeldBy(w, step.x, c');
    }
  }

  lemma StepIsSound(w: World, step: Step)
    requires Sound(w) && Possible(w, step)
    ensures Sound(After(w, step))
  {
    var w' := After(w, step);
    forall c | c in w'.sessions ensures SessionOk(w', c) {
      LineStaysOk(w, step, c);
      HeldStaysOk(w, step, c);
    }
    forall x | x in w'.copies ensures CopyOk(w', x) { CopyStaysOk(w, step, x); }
    forall c, c' | c in w'.sessions && c' in w'.sessions && SessionOf(w', c).held.Some?
                   && SessionOf(w', c).held == SessionOf(w', c').held
      ensures c == c'
    {
      HoldersStayApart(w, step, c, c');
    }
  }

  /** Waiting consumers have read every earlier answer. */
  predicate Orderly(w: World) {
    forall c | c in w.sessions && SessionOf(w, c).held.Some? :: Abandoned(w, c) == 0
  }

  /** Channel `c` is about to acknowledge copy `x`. */
  predicate Doomed(w: World, x: nat, c: nat) {
    var line := LineOf(w, c);
    HeldBy(w, x, c) && line.read < |line.answers| && line.answers[line.read]
  }

  ghost predicate Stays(w: World, body: string, x: nat) {
    && x in w.copies && w.copies[x].delivery.body == body
    && forall c | c in w.sessions :: !Doomed(w, x, c)
  }

  /** Every message is processed or has a copy that is not about to be acknowledged. */
  ghost predicate Backed(w: World) {
    forall body | body in w.arrived :: body in w.processed || exists x :: Stays(w, body, x)
  }

  lemma StepIsOrderly(w: World, step: Step)
    requires Sound(w) && Orderly(w) && Possible(w, step) && Careful(w, step)
    ensures Orderly(After(w, step))
  {
  }

  /** A copy that stays, stays through any other consumer's reading; an ack of its own brings another one. */
  lemma AnswerIsBacked(w: World, c: nat, ack: bool, y: nat, body: string, x: nat)
    requires Sound(w) && Orderly(w) && Possible(w, Answer(c, ack, y)) && Stays(w, body, x)
    ensures exists x' :: Stays(After(w, Answer(c, ack, y)), body, x')
  {
    var w' := After(w, Answer(c, ack, y));
    assert SessionOk(w, c);
    if ack && HeldBy(w, x, c) {
      assert Abandoned(w, c) == 0;
      assert w'.copies[y].delivery.body == body;
      assert forall c' | c' in w'.sessions :: !HeldBy(w', y, c') by {
        forall c' | c' in w'.sessions ensures !HeldBy(w', y, c') { assert c' in w.sessions ==> SessionOk(w, c'); }
      }
      assert Stays(w', body, y);
    } else {
      assert forall c' | c' in w'.sessions :: Doomed(w', x, c') ==> Doomed(w, x, c');
      assert Stays(w', body, x);
    }
  }

  lemma StepIsBacked(w: World, step: Step)
    requires Sound(w) && Orderly(w) && Backed(w) && Possible(w, step) && Careful(w, step)
    ensures Backed(After(w, step))
  {
    var w' := After(w, step);
    forall body | body in w'.arrived && body !in w'.processed ensures exists x :: Stays(w', body, x) {
      if step.Arrive? && body == step.delivery.body {
        assert forall c | c in w.sessions :: SessionOk(w, c);
        assert Stays(w', body, step.x);
      } else {
        var x :| Stays(w, body, x);
        if step.Answer? {
          AnswerIsBacked(w, step.c, step.ack, step.y, body, x);
        } else {
          assert forall c | c in w'.sessions :: Doomed(w', x, c) ==> c in w.sessions && Doomed(w, x, c);
          assert Stays(w', body, x);
        }
      }
    }
  }

  // ---------------------------------------------------------------- runs

  lemma {:induction false} CarefulRunKeeps(w: World, steps: seq<Step>)
    requires Sound(w) && Orderly(w) && Backed(w) && PossibleFrom(w, steps) && CarefulFrom(w, steps)
    ensures Sound(RunFrom(w, steps)) && Orderly(RunFrom(w, steps)) && Backed(RunFrom(w, steps))
    decreases steps
  {
    if steps != [] {
      StepIsSound(w, steps[0]);
      StepIsOrderly(w, steps[0]);
      StepIsBacked(w, steps[0]);
      CarefulRunKeeps(After(w, steps[0]), steps[1..]);
    }
  }

  /** Whatever the consumer does, a delayed copy carries the number of its retry queue, one of the five. */
  lemma {:induction false} RunIsSound(w: World, steps: seq<Step>)
    requires Sound(w) && PossibleFrom(w, steps)
    ensures Sound(RunFrom(w, steps))
    decreases steps
  {
    if steps != [] {
      StepIsSound(w, steps[0]);
      RunIsSound(After(w, steps[0]), steps[1..]);
    }
  }

  lemma BackedIsNotDropped(w: World)
    requires Backed(w)
    ensures NothingDropped(w)
  {
    forall body | body in w.arrived && body !in w.processed ensures HasCopy(w, body) {
      var x :| Stays(w, body, x);
    }
  }

  /** A consumer that never publishes after a confirmation it gave up on drops nothing. */
  lemma CarefulConsumerDropsNothing(queue: string, steps: seq<Step>)
    requires PossibleFrom(Start(queue), steps) && CarefulFrom(Start(queue), steps)
    ensures NothingDropped(RunFrom(Start(queue), steps))
  {
    CarefulRunKeeps(Start(queue), steps);
    BackedIsNotDropped(RunFrom(Start(queue), steps));
  }

  /** No consumer gives up on a confirmation. */
  predicate Patient(steps: seq<Step>) { forall step | step in steps :: !step.GiveUp? }

  ghost predicate AllCaughtUp(w: World) { forall c | c in w.sessions :: Abandoned(w, c) == 0 }

  lemma PatienceKeepsUp(w: World, step: Step)
    requires Sound(w) && AllCaughtUp(w) && Possible(w, step) && !step.GiveUp?
    ensures AllCaughtUp(After(w, step)) && Careful(w, step)
  {
  }

  lemma {:induction false} PatientRunIsCareful(w: World, steps: seq<Step>)
    requires Sound(w) && AllCaughtUp(w) && PossibleFrom(w, steps) && Patient(steps)
    ensures CarefulFrom(w, steps)
    decreases steps
  {
    if steps != [] {
      assert steps[0] in steps;
      PatienceKeepsUp(w, steps[0]);
      StepIsSound(w, steps[0]);
      PatientRunIsCareful(After(w, steps[0]), steps[1..]);
    }
  }

  // ---------------------------------------------------------------- an abandoned confirmation drops a message

  lemma NewText(used: set<string>) returns (text: string)
    ensures text !in used
  {
    var lengths := set s | s in used :: |s|;
    text := seq(MaxOrZero(lengths) + 1, _ => 'x');
    assert forall s | s in used :: |s| in lengths;
  }

  lemma NewNumber(used: set<nat>) returns (n: nat)
    ensures n !in used
  {
    var numbers := set m | m in used :: m as int;
    n := MaxOrZero(numbers) + 1;
    assert forall m | m in used :: m as int in numbers;
  }

  lemma OneStep(w: World, step: Step)
    requires Possible(w, step)
    ensures PossibleFrom(w, [step]) && RunFrom(w, [step]) == After(w, step)
  {
    assert [step][1..] == [];
  }

  lemma {:induction false} Joined(w: World, a: seq<Step>, b: seq<Step>)
    requires PossibleFrom(w, a) && PossibleFrom(RunFrom(w, a), b)
    ensures PossibleFrom(w, a + b) && RunFrom(w, a + b) == RunFrom(RunFrom(w, a), b)
    decreases a
  {
    if a == [] {
      assert a + b == b;
    } else {
      Joined(After(w, a[0]), a[1..], b);
      assert (a + b)[0] == a[0] && (a + b)[1..] == a[1..] + b;
    }
  }

  /** The broker's answers come in one by one. */
  lemma {:induction false} AnswersArrive(w: World, c: nat, acks: seq<bool>) returns (steps: seq<Step>)
    requires c in w.sessions && |LineOf(w, c).answers| + |acks| <= |LineOf(w, c).published|
    ensures PossibleFrom(w, steps)
    ensures var w' := RunFrom(w, steps);
            && SessionOf(w', c) == SessionOf(w, c).(line := LineOf(w, c).Hear(acks))
            && forall x | x in w.copies :: x in w'.copies
    decreases acks
  {
    if acks == [] {
      steps := [];
    } else {
      var y := NewNumber(w.copies.Keys);
      var step := Answer(c, acks[0], y);
      var rest := AnswersArrive(After(w, step), c, acks[1..]);
      OneStep(w, step);
      Joined(w, [step], rest);
      steps := [step] + rest;
      assert LineOf(w, c).answers + [acks[0]] + acks[1..] == LineOf(w, c).answers + acks;
    }
  }

  /** What `PublishFailedDelivery` does on a channel, and acknowledging after it, is such a run. */
  lemma ExchangeIsARun(w: World, c: nat, x: nat, cause: string, wait: Wait) returns (steps: seq<Step>)
    requires Free(w, x) && SessionOf(w, c).held == None && wait.sent
    requires LineOf(w, c).Ordered() && Fits(LineOf(w, c), wait)
    ensures PossibleFrom(w, steps)
    ensures var (line, ok) := Exchange(LineOf(w, c), PublicationOf(w.copies[x].delivery, cause), wait);
            var w' := RunFrom(w, steps);
            SessionOf(w', c) == Session(line, None) && (x in w'.copies <==> !ok)
  {
    var publish := Publish(c, x, cause);
    var w1 := After(w, publish);
    var answers := AnswersArrive(w1, c, wait.arriving);
    var w2 := RunFrom(w1, answers);
    var last := if wait.patient && LineOf(w2, c).read < |LineOf(w2, c).answers| then Read(c) else GiveUp(c);
    OneStep(w, publish);
    OneStep(w2, last);
    Joined(w1, answers, [last]);
    Joined(w, [publish], answers + [last]);
    steps := [publish] + (answers + [last]);
  }

  /** A new message arrives, its handling fails, and the next answer on the channel is read. */
  function ReadForeign(c: nat, x: nat, d: Delivery): seq<Step> { [Arrive(x, d), Publish(c, x, ""), Read(c)] }

  lemma ForeignIsPublished(w: World, c: nat, x: nat, d: Delivery)
    requires Sound(w) && SessionOf(w, c).held == None && x !in w.copies
    ensures var steps := [Arrive(x, d), Publish(c, x, "")];
            && PossibleFrom(w, steps)
            && RunFrom(w, steps)
               == WithSession(w.(copies := w.copies[x := Copy(Ready, d)], arrived := w.arrived + {d.body}), c,
                              Session(LineOf(w, c).Put(PublicationOf(d, "")), Some(x)))
  {
    var w1 := After(w, Arrive(x, d));
    assert Free(w1, x) by {
      forall c' | c' in w1.sessions ensures !HeldBy(w1, x, c') { assert SessionOk(w, c'); }
    }
    OneStep(w1, Publish(c, x, ""));
    OneStep(w, Arrive(x, d));
    Joined(w, [Arrive(x, d)], [Publish(c, x, "")]);
    assert [Arrive(x, d)] + [Publish(c, x, "")] == [Arrive(x, d), Publish(c, x, "")];
  }

  lemma ForeignAnswerIsRead(w: World, c: nat, x: nat, d: Delivery)
    requires Sound(w) && SessionOf(w, c).held == None && LineOf(w, c).read < |LineOf(w, c).answers|
    requires x !in w.copies && d.body !in w.arrived
    ensures PossibleFrom(w, ReadForeign(c, x, d))
    ensures var w' := RunFrom(w, ReadForeign(c, x, d));
            && SessionOf(w', c).held == None && Abandoned(w', c) == Abandoned(w, c)
            && |LineOf(w', c).answers| - LineOf(w', c).read == |LineOf(w, c).answers| - LineOf(w, c).read - 1
            && w'.arrived == w.arrived + {d.body} && w'.processed == w.processed
            && (LineOf(w, c).answers[LineOf(w, c).read] ==> w'.copies == w.copies)
            && (forall c' | c' != c :: SessionOf(w', c') == SessionOf(w, c'))
  {
    var steps := [Arrive(x, d), Publish(c, x, "")];
    ForeignIsPublished(w, c, x, d);
    assert SessionOk(w, c);
    OneStep(RunFrom(w, steps), Read(c));
    Joined(w, steps, [Read(c)]);
    assert steps + [Read(c)] == ReadForeign(c, x, d);
  }

  /** An unread ack, meant for somebody else, drops a new message once the connection is lost. */
  lemma StrayAckDrops(w: World, c: nat, x: nat, d: Delivery)
    requires Sound(w) && SessionOf(w, c).held == None && LineOf(w, c).read < |LineOf(w, c).answers|
    requires LineOf(w, c).answers[LineOf(w, c).read] && x !in w.copies && d.body !in w.arrived
    ensures var steps := ReadForeign(c, x, d) + [Reopen(c)];
            PossibleFrom(w, steps) && Dropped(RunFrom(w, steps), d.body)
  {
    ForeignAnswerIsRead(w, c, x, d);
    var w' := RunFrom(w, ReadForeign(c, x, d));
    OneStep(w', Reopen(c));
    Joined(w, ReadForeign(c, x, d), [Reopen(c)]);
    var w'' := After(w', Reopen(c));
    forall y | y in w''.copies ensures w''.copies[y].delivery.body != d.body {
      assert CopyOk(w, y);
    }
    forall c', i | c' in w''.sessions && |LineOf(w'', c').answers| <= i < |LineOf(w'', c').published|
      ensures LineOf(w'', c').published[i].body != d.body
    {
      if c' != c {
        assert SessionOf(w'', c') == SessionOf(w, c');
        assert LineOf(w, c').published[i] in LineOf(w, c').published;
        assert c' in w.sessions ==> SessionOk(w, c');
      }
    }
  }

  /** From any state in which a confirmation was given up on, some continuation drops a message. */
  lemma {:induction false} AbandonedDrops(w: World, c: nat) returns (more: seq<Step>, body: string)
    requires Sound(w) && SessionOf(w, c).held == None && Abandoned(w, c) > 0
    ensures PossibleFrom(w, more) && Patient(more) && Dropped(RunFrom(w, more), body)
    decreases |LineOf(w, c).answers| - LineOf(w, c).read
  {
    var line := LineOf(w, c);
    assert SessionOk(w, c);
    var x := NewNumber(w.copies.Keys);
    if line.read == |line.answers| {
      var w1 := After(w, Answer(c, true, x));
      StepIsSound(w, Answer(c, true, x));
      body := NewText(w1.arrived);
      var y := NewNumber(w1.copies.Keys);
      var d := Delivery("", body, map[]);
      StrayAckDrops(w1, c, y, d);
      OneStep(w, Answer(c, true, x));
      more := [Answer(c, true, x)] + (ReadForeign(c, y, d) + [Reopen(c)]);
      Joined(w, [Answer(c, true, x)], ReadForeign(c, y, d) + [Reopen(c)]);
    } else {
      body := NewText(w.arrived);
      var d := Delivery("", body, map[]);
      if line.answers[line.read] {
        StrayAckDrops(w, c, x, d);
        more := ReadForeign(c, x, d) + [Reopen(c)];
      } else {
        ForeignAnswerIsRead(w, c, x, d);
        var w1 := RunFrom(w, ReadForeign(c, x, d));
        RunIsSound(w, ReadForeign(c, x, d));
        var rest;
        rest, body := AbandonedDrops(w1, c);
        more := ReadForeign(c, x, d) + rest;
        Joined(w, ReadForeign(c, x, d), rest);
      }
    }
  }

  ghost predicate CanDrop(w: World) {
    exists more, body :: PossibleFrom(w, more) && Patient(more) && Dropped(RunFrom(w, more), body)
  }

  /**
   * After a careful run, and while nobody gives up on another confirmation, a message can be dropped if and only
   * if some channel still has a confirmation that was given up on.
   */
  lemma CanDropIff(queue: string, steps: seq<Step>)
    requires PossibleFrom(Start(queue), steps) && CarefulFrom(Start(queue), steps)
    ensures CanDrop(RunFrom(Start(queue), steps)) <==> !AllCaughtUp(RunFrom(Start(queue), steps))
  {
    var w := RunFrom(Start(queue), steps);
    CarefulRunKeeps(Start(queue), steps);
    if AllCaughtUp(w) {
      forall more, body | PossibleFrom(w, more) && Patient(more) ensures !Dropped(RunFrom(w, more), body) {
        PatientRunIsCareful(w, more);
        CarefulRunKeeps(w, more);
        BackedIsNotDropped(RunFrom(w, more));
      }
    } else {
      var c :| c in w.sessions && Abandoned(w, c) != 0;
      assert SessionOk(w, c);
      var more, body := AbandonedDrops(w, c);
    }
  }

  /** The republish of `a` times out and its confirmation comes late. */
  function LateConfirmation(a: Delivery): seq<Step> {
    [Arrive(0, a), Publish(0, 0, ""), GiveUp(0), Answer(0, true, 1)]
  }

  lemma From(w: World, steps: seq<Step>, k: nat)
    requires k < |steps| && Possible(w, steps[k]) && PossibleFrom(After(w, steps[k]), steps[k + 1..])
    ensures PossibleFrom(w, steps[k..]) && RunFrom(w, steps[k..]) == RunFrom(After(w, steps[k]), steps[k + 1..])
  {
    assert steps[k..][1..] == steps[k + 1..];
  }

  lemma LateConfirmationIsUnread(queue: string, a: Delivery)
    ensures PossibleFrom(Start(queue), LateConfirmation(a))
    ensures var w := RunFrom(Start(queue), LateConfirmation(a));
            && SessionOf(w, 0) == Session(Line([PublicationOf(a, "")], [true], 0), None)
            && w.copies.Keys == {0, 1} && w.arrived == {a.body} && w.processed == {}
  {
    var steps := LateConfirmation(a);
    var w1 := After(Start(queue), steps[0]);
    assert Free(w1, 0);
    var w2 := After(w1, steps[1]);
    var w3 := After(w2, steps[2]);
    From(w3, steps, 3);
    From(w2, steps, 2);
    From(w1, steps, 1);
  }

  /**
   * That confirmation is read as the answer to the republish of `b`, which is acknowledged; the connection dies
   * before the broker takes the copy of `b`.
   */
  lemma LateConfirmationDropsAnother(queue: string, a: Delivery, b: Delivery)
    requires a.body != b.body
    ensures var steps := LateConfirmation(a) + (ReadForeign(0, 2, b) + [Reopen(0)]);
            PossibleFrom(Start(queue), steps) && Dropped(RunFrom(Start(queue), steps), b.body)
  {
    LateConfirmationIsUnread(queue, a);
    var w := RunFrom(Start(queue), LateConfirmation(a));
    RunIsSound(Start(queue), LateConfirmation(a));
    StrayAckDrops(w, 0, 2, b);
    Joined(Start(queue), LateConfirmation(a), ReadForeign(0, 2, b) + [Reopen(0)]);
  }
}
