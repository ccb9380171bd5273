/** What `GetJoinStatus` may answer: the status of a user's row that was updated last. */
module JoinStatus {
  import opened Collections
  import opened Messages
  import opened Registrations
  import opened RegistrationInvariants

  /** In memory: some row with the latest update; which one among equals is up to map order. */
  ghost predicate MemoryReports(regs: Regs, e: Id, u: Id, status: Status) {
    if UserIds(regs, e, u) == {} then status == NotJoined
    else exists id | id in UserIds(regs, e, u) :: regs[id].status == status
           && forall x | x in UserIds(regs, e, u) :: regs[x].updatedAt <= regs[id].updatedAt
  }

  /** PostgreSQL: the latest update, and among equals the latest creation. */
  ghost predicate PostgresReports(regs: Regs, e: Id, u: Id, status: Status) {
    if UserIds(regs, e, u) == {} then status == NotJoined
    else exists id | id in UserIds(regs, e, u) :: regs[id].status == status
           && forall x | x in UserIds(regs, e, u) ::
                regs[x].updatedAt < regs[id].updatedAt
                || (regs[x].updatedAt == regs[id].updatedAt && regs[x].createdAt <= regs[id].createdAt)
  }

  /** What a user expects to be told. */
  ghost function ExpectedStatus(regs: Regs, e: Id, u: Id): Status {
    if ActiveIds(regs, e, u) != {} then regs[Pick(ActiveIds(regs, e, u))].status
    else if UserIds(regs, e, u) != {} then Canceled
    else NotJoined
  }

  function TimeOf(op: Op): Time { if op.Create? then op.event.createdAt else op.now }

  ghost predicate StrictlyTimed(ops: seq<Op>) {
    forall i, j | 0 <= i < j < |ops| :: TimeOf(ops[i]) < TimeOf(ops[j])
  }

  /** Row `b` was last touched before the active row `a` of the same user and event came to be. */
  predicate Precedes(regs: Regs, b: Id, a: Id)
    requires a in regs && b in regs
  {
    (a != b && regs[a].Active() && regs[a].eventId == regs[b].eventId && regs[a].userId == regs[b].userId) ==>
      regs[b].updatedAt < regs[a].createdAt
  }

  ghost predicate Aged(regs: Regs, now: Time) {
    && (forall a | a in regs :: regs[a].createdAt <= regs[a].updatedAt <= now)
    && (forall a, b {:trigger Precedes(regs, b, a)} | a in regs && b in regs :: Precedes(regs, b, a))
  }

  lemma JoinAges(s: Store, e: Id, u: Id, key: string, now: Time, registration: Id, message: Id, last: Time)
    requires Aged(s.regs, last) && last < now && registration !in s.regs
    ensures Aged(JoinStep(s, e, u, key, now, registration, message).0.regs, now)
  {
    var regs' := JoinStep(s, e, u, key, now, registration, message).0.regs;
    forall a, b | a in regs' && b in regs' ensures Precedes(regs', b, a) {
      if a != registration && b != registration {
        assert Precedes(s.regs, b, a);
      } else if b == registration && a != b {
        assert a !in ActiveIds(s.regs, e, u);
      }
    }
  }

  lemma ReleaseAges(repo: Repo, s: Store, id: Id, now: Time, message: Id)
    requires OneActive(s.regs) && Aged(s.regs, now) && id in s.regs && s.regs[id].Active()
    ensures Aged(Release(repo, s, id, now, message).regs, now)
  {
    var regs' := Release(repo, s, id, now, message).regs;
    forall a, b | a in regs' && b in regs' ensures Precedes(regs', b, a) {
      assert Precedes(s.regs, b, a) && !Rivals(s.regs, a, b);
    }
  }

  lemma PromoteAges(s: Store, id: Id, now: Time, message: Id)
    requires OneActive(s.regs) && Aged(s.regs, now) && id in s.regs && s.regs[id].Active()
    ensures Aged(Promote(s, id, now, message).regs, now)
  {
    var regs' := Promote(s, id, now, message).regs;
    forall a, b | a in regs' && b in regs' ensures Precedes(regs', b, a) {
      assert Precedes(s.regs, b, a) && !Rivals(s.regs, a, b);
    }
  }

  lemma CancelAges(repo: Repo, s: Store, e: Id, u: Id, now: Time, message: Id, promotedMessage: Id)
    requires Inv(s) && Aged(s.regs, now)
    ensures Aged(CancelStep(repo, s, e, u, now, message, promotedMessage).0.regs, now)
  {
    if ActiveIds(s.regs, e, u) != {} {
      var id := Pick(ActiveIds(s.regs, e, u));
      ReleaseAges(repo, s, id, now, message);
      ReleaseKeeps(repo, s, id, now, message);
      var s1 := Release(repo, s, id, now, message);
      if WaitingIds(s1.regs, e) != {} {
        PromoteAges(s1, FirstWaiting(s1.regs, e), now, promotedMessage);
      }
    }
  }

  lemma CancelEventAges(regs: Regs, e: Id, now: Time)
    requires OneActive(regs) && Aged(regs, now)
    ensures Aged(ReleaseAll(regs, e, now), now)
  {
    var regs' := ReleaseAll(regs, e, now);
    forall a, b | a in regs' && b in regs' ensures Precedes(regs', b, a) {
      assert Precedes(regs, b, a) && !Rivals(regs, a, b);
    }
  }

  lemma StepAges(repo: Repo, s: Store, op: Op, last: Time)
    requires Inv(s) && Fresh(s, op) && Aged(s.regs, last) && last < TimeOf(op)
    ensures Aged(Step(repo, s, op).0.regs, TimeOf(op))
  {
    var now := TimeOf(op);
    assert Aged(s.regs, now);
    match op
    case Join(e, u, key, _, registration, message) => JoinAges(s, e, u, key, now, registration, message, last);
    case CancelEvent(e, _, _, _, _) => CancelEventAges(s.regs, e, now);
    case CancelJoin(e, u, _, message, promotedMessage) => CancelAges(repo, s, e, u, now, message, promotedMessage);
    case CancelRegistration(e, _, _, u, _, message, promotedMessage) =>
      CancelAges(repo, s, e, u, now, message, promotedMessage);
    case _ =>
  }

  lemma {:induction false} RunAges(repo: Repo, ops: seq<Op>)
    requires FreshRun(repo, ops) && StrictlyTimed(ops) && ops != []
    ensures Aged(Run(repo, ops).regs, TimeOf(ops[|ops| - 1]))
  {
    var before, last := ops[..|ops| - 1], ops[|ops| - 1];
    RunKeeps(repo, before);
    if before == [] {
      StepAges(repo, EMPTY, last, TimeOf(last) - 1);
    } else {
      RunAges(repo, before);
      StepAges(repo, Run(repo, before), last, TimeOf(before[|before| - 1]));
    }
  }

  lemma LatestRowDecides(regs: Regs, e: Id, u: Id, a: Id, status: Status)
    requires a in UserIds(regs, e, u)
    requires forall x | x in UserIds(regs, e, u) && x != a :: regs[x].updatedAt < regs[a].updatedAt
    ensures MemoryReports(regs, e, u, status) <==> status == regs[a].status
    ensures PostgresReports(regs, e, u, status) <==> status == regs[a].status
  {
  }

  predicate IsLast(regs: Regs, rows: set<Id>, id: Id)
    requires forall x | x in rows :: x in regs
  {
    && id in rows
    && forall x | x in rows ::
         regs[x].updatedAt < regs[id].updatedAt
         || (regs[x].updatedAt == regs[id].updatedAt && regs[x].createdAt <= regs[id].createdAt)
  }

  lemma {:induction false} LastRowExists(regs: Regs, rows: set<Id>)
    requires rows != {} && forall x | x in rows :: x in regs
    ensures exists id :: IsLast(regs, rows, id)
  {
    var x := Pick(rows);
    if rows == {x} {
      assert IsLast(regs, rows, x);
    } else {
      var rest := rows - {x};
      LastRowExists(regs, rest);
      var y :| IsLast(regs, rest, y);
      assert forall z | z in rows :: z == x || z in rest;
      assert IsLast(regs, rows, x) || IsLast(regs, rows, y);
    }
  }

  lemma UniformRowsDecide(regs: Regs, e: Id, u: Id, same: Status, status: Status)
    requires UserIds(regs, e, u) != {}
    requires forall x | x in UserIds(regs, e, u) :: regs[x].status == same
    ensures MemoryReports(regs, e, u, status) <==> status == same
    ensures PostgresReports(regs, e, u, status) <==> status == same
  {
    LastRowExists(regs, UserIds(regs, e, u));
    var last :| IsLast(regs, UserIds(regs, e, u), last);
  }

  /** Without an active row every row of the user is cancelled, so any latest row gives the same report. */
  lemma InactiveReport(regs: Regs, e: Id, u: Id, status: Status)
    requires ActiveIds(regs, e, u) == {} && (MemoryReports(regs, e, u, status) || PostgresReports(regs, e, u, status))
    requires forall id | id in regs :: regs[id].status in {Confirmed, Waitlisted, Canceled}
    ensures status == if UserIds(regs, e, u) == {} then NotJoined else Canceled
  {
    if UserIds(regs, e, u) != {} {
      var id :| id in UserIds(regs, e, u) && regs[id].status == status;
      assert id !in ActiveIds(regs, e, u);
    }
  }

  /** Aged rows leave no choice: both repositories can only answer the expected status. */
  lemma AgedReportsAreExpected(s: Store, now: Time, e: Id, u: Id, status: Status)
    requires Aged(s.regs, now) && RowsOk(s)
    ensures MemoryReports(s.regs, e, u, status) <==> status == ExpectedStatus(s.regs, e, u)
    ensures PostgresReports(s.regs, e, u, status) <==> status == ExpectedStatus(s.regs, e, u)
  {
    var rows := UserIds(s.regs, e, u);
    if ActiveIds(s.regs, e, u) != {} {
      var a := Pick(ActiveIds(s.regs, e, u));
      forall x | x in rows && x != a ensures s.regs[x].updatedAt < s.regs[a].updatedAt {
        assert Precedes(s.regs, x, a);
      }
      LatestRowDecides(s.regs, e, u, a, status);
    } else if rows != {} {
      forall x | x in rows ensures s.regs[x].status == Canceled {
        assert x !in ActiveIds(s.regs, e, u);
      }
      UniformRowsDecide(s.regs, e, u, Canceled, status);
    }
  }

  /**
   * With strictly increasing operation times `GetJoinStatus` is the status of the active registration if there
   * is one, else CANCELED if the user ever joined, else NOT_JOINED, whichever repository answers.
   */
  lemma JoinStatusIsExpected(repo: Repo, ops: seq<Op>, e: Id, u: Id, status: Status)
    requires FreshRun(repo, ops) && StrictlyTimed(ops)
    ensures var regs := Run(repo, ops).regs;
            && (MemoryReports(regs, e, u, status) <==> status == ExpectedStatus(regs, e, u))
            && (PostgresReports(regs, e, u, status) <==> status == ExpectedStatus(regs, e, u))
  {
    RunKeeps(repo, ops);
    if ops == [] {
      assert UserIds(EMPTY.regs, e, u) == {} && ActiveIds(EMPTY.regs, e, u) == {};
    } else {
      RunAges(repo, ops);
      AgedReportsAreExpected(Run(repo, ops), TimeOf(ops[|ops| - 1]), e, u, status);
    }
  }

  /**
   * Without that, the in-memory answer is certain exactly when no other row of the user was updated as late as
   * the active one; on a tie map order may report a stale CANCELED.
   */
  lemma MemoryAnswerIsCertainIff(s: Store, e: Id, u: Id, a: Id)
    requires Inv(s) && a in ActiveIds(s.regs, e, u)
    ensures (forall status: Status :: MemoryReports(s.regs, e, u, status) ==> status == s.regs[a].status)
       <==> (forall x | x in UserIds(s.regs, e, u) && x != a :: s.regs[x].updatedAt < s.regs[a].updatedAt)
  {
    var rows := UserIds(s.regs, e, u);
    assert a in rows;
    LastRowExists(s.regs, rows);
    var last :| IsLast(s.regs, rows, last);
    forall x | x in rows && x != a ensures s.regs[x].status == Canceled {
      assert !Rivals(s.regs, x, a);
    }
    if last != a {
      assert MemoryReports(s.regs, e, u, Canceled);
    } else if x :| x in rows && x != a && s.regs[x].updatedAt >= s.regs[a].updatedAt {
      assert s.regs[x].updatedAt == s.regs[a].updatedAt;
      assert MemoryReports(s.regs, e, u, Canceled);
    }
  }

  /** Row `b` comes before row `a` in the query's order: updated earlier, or at the same time and created earlier. */
  predicate Older(regs: Regs, b: Id, a: Id)
    requires a in regs && b in regs
  {
    regs[b].updatedAt < regs[a].updatedAt
    || (regs[b].updatedAt == regs[a].updatedAt && regs[b].createdAt < regs[a].createdAt)
  }

  /** The PostgreSQL answer is certain exactly when every other row of the user is older in that order. */
  lemma PostgresAnswerIsCertainIff(s: Store, e: Id, u: Id, a: Id)
    requires Inv(s) && a in ActiveIds(s.regs, e, u)
    ensures (forall status: Status :: PostgresReports(s.regs, e, u, status) ==> status == s.regs[a].status)
       <==> (forall x | x in UserIds(s.regs, e, u) && x != a :: Older(s.regs, x, a))
  {
    var rows := UserIds(s.regs, e, u);
    assert a in rows;
    LastRowExists(s.regs, rows);
    var last :| IsLast(s.regs, rows, last);
    forall x | x in rows && x != a ensures s.regs[x].status == Canceled {
      assert !Rivals(s.regs, x, a);
    }
    if last != a {
      assert PostgresReports(s.regs, e, u, Canceled);
    } else if x :| x in rows && x != a && !Older(s.regs, x, a) {
      assert IsLast(s.regs, rows, x);
      assert PostgresReports(s.regs, e, u, Canceled);
    }
  }
}
