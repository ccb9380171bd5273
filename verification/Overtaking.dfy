/** A user is passed in line: the one seat is taken, a second user waits, capacity is raised, a third one gets in. */
module Overtaking {
  import opened Collections
  import opened Messages
  import opened Registrations
  import opened RegistrationInvariants
  import opened RegistrationTheorems

  /** An event with one seat, three users and the identifiers used on the way; one operation a second from `at`. */
  datatype Rush = Rush(event: Event, at: Time, users: seq<Id>, registrations: seq<Id>, messages: seq<Id>)

  predicate AllDiffer(ids: seq<Id>) { forall i, j | 0 <= i < j < |ids| :: ids[i] != ids[j] }

  predicate Plausible(q: Rush) {
    && q.event.status == Status.Published && Validate(q.event, q.event.createdAt) == None && q.event.capacity == 1
    && q.event.createdAt < q.at && q.at + 3 < q.event.startsAt
    && |q.users| == 3 == |q.registrations| && |q.messages| == 5
    && AllDiffer(q.users) && AllDiffer(q.registrations) && AllDiffer(q.messages)
  }

  function Raise(q: Rush): Op
    requires Plausible(q)
  {
    Update(q.event.id, q.event.organizerId, false, UpdateCommand(None, None, None, None, None, Some(2)), q.at + 2,
           q.messages[3])
  }

  function Arrival(q: Rush, i: nat, at: Time, message: Id): Op
    requires Plausible(q) && i < 3
  {
    Join(q.event.id, q.users[i], "", at, q.registrations[i], message)
  }

  function Ops(q: Rush): seq<Op>
    requires Plausible(q)
  {
    [Create(q.event, q.messages[0]), Arrival(q, 0, q.at, q.messages[1]), Arrival(q, 1, q.at + 1, q.messages[2]),
     Raise(q), Arrival(q, 2, q.at + 3, q.messages[4])]
  }

  /** The messages written so far are the first `n`. */
  ghost predicate Wrote(s: Store, q: Rush, n: nat)
    requires Plausible(q) && n <= 5
  {
    |s.outbox| == n && forall i | 0 <= i < n :: s.outbox[i].messageId == q.messages[i]
  }

  lemma NextMessageIsUnused(s: Store, q: Rush, n: nat)
    requires Plausible(q) && n < 5 && Wrote(s, q, n)
    ensures UnusedMessage(s, q.messages[n])
  {
  }

  function Row(q: Rush, i: nat, status: Status, position: int): Registration
    requires Plausible(q) && i < 3
  {
    Registration(q.registrations[i], q.event.id, q.users[i], status, position, "", q.at + i, q.at + i)
  }

  lemma CreateRuns(repo: Repo, q: Rush)
    requires Plausible(q)
    ensures var s := Run(repo, Ops(q)[..1]);
            FreshRun(repo, Ops(q)[..1]) && Wrote(s, q, 1) && s.events == map[q.event.id := q.event] && s.regs == map[]
  {
    RunExtends(repo, [], Ops(q)[0]);
    assert [] + [Ops(q)[0]] == Ops(q)[..1];
  }

  lemma FirstIsSeated(repo: Repo, q: Rush)
    requires Plausible(q)
    ensures var s := Run(repo, Ops(q)[..2]);
            && FreshRun(repo, Ops(q)[..2]) && Wrote(s, q, 2) && s.events == map[q.event.id := q.event]
            && s.regs == map[q.registrations[0] := Row(q, 0, Confirmed, 0)]
  {
    CreateRuns(repo, q);
    var s := Run(repo, Ops(q)[..1]);
    NextMessageIsUnused(s, q, 1);
    assert ConfirmedIds(s.regs, q.event.id) == {} && ActiveIds(s.regs, q.event.id, q.users[0]) == {};
    RunExtends(repo, Ops(q)[..1], Ops(q)[1]);
    assert Ops(q)[..1] + [Ops(q)[1]] == Ops(q)[..2];
  }

  /** One seat taken, one user waiting. */
  ghost predicate OneWaits(s: Store, q: Rush)
    requires Plausible(q)
  {
    && Wrote(s, q, 3) && s.events == map[q.event.id := q.event]
    && s.regs.Keys == {q.registrations[0], q.registrations[1]}
    && s.regs[q.registrations[0]].userId == q.users[0] && s.regs[q.registrations[1]].userId == q.users[1]
    && WaitingIds(s.regs, q.event.id) == {q.registrations[1]}
  }

  lemma SecondIsWaitlisted(repo: Repo, q: Rush, s: Store)
    requires Plausible(q) && Wrote(s, q, 2) && s.events == map[q.event.id := q.event]
    requires s.regs == map[q.registrations[0] := Row(q, 0, Confirmed, 0)]
    ensures OneWaits(Step(repo, s, Ops(q)[2]).0, q)
  {
    assert ConfirmedIds(s.regs, q.event.id) == {q.registrations[0]} && ActiveIds(s.regs, q.event.id, q.users[1]) == {};
  }

  lemma SecondWaits(repo: Repo, q: Rush)
    requires Plausible(q)
    ensures FreshRun(repo, Ops(q)[..3]) && OneWaits(Run(repo, Ops(q)[..3]), q)
  {
    FirstIsSeated(repo, q);
    var s := Run(repo, Ops(q)[..2]);
    NextMessageIsUnused(s, q, 2);
    SecondIsWaitlisted(repo, q, s);
    RunExtends(repo, Ops(q)[..2], Ops(q)[2]);
    assert Ops(q)[..2] + [Ops(q)[2]] == Ops(q)[..3];
  }

  /** The raise, and then the third join. */
  ghost predicate Passed(repo: Repo, q: Rush, s: Store, s': Store)
    requires Plausible(q)
  {
    var after := Step(repo, s', Arrival(q, 2, q.at + 3, q.messages[4])).0;
    && Wrote(s', q, 4) && s'.regs == s.regs
    && q.registrations[2] in ConfirmedIds(after.regs, q.event.id)
    && WaitingIds(after.regs, q.event.id) == {q.registrations[1]}
  }

  lemma RaisePasses(repo: Repo, q: Rush, s: Store)
    requires Plausible(q) && Inv(s) && OneWaits(s, q)
    ensures Passed(repo, q, s, Step(repo, s, Raise(q)).0)
  {
    assert ActiveIds(s.regs, q.event.id, q.users[2]) == {};
    RaisedCapacityLetsANewcomerPass(repo, s, q.event.id, 2, q.at + 2, q.messages[3], q.users[2], "", q.at + 3,
                                    q.registrations[2], q.messages[4]);
    var s' := Step(repo, s, Raise(q)).0;
    forall i | 0 <= i < 4 ensures s'.outbox[i].messageId == q.messages[i] {
      if i < 3 { assert s'.outbox[i] == s'.outbox[..3][i]; }
    }
  }

  lemma RaiseRuns(repo: Repo, q: Rush)
    requires Plausible(q)
    ensures FreshRun(repo, Ops(q)[..4]) && OneWaits(Run(repo, Ops(q)[..3]), q)
    ensures Passed(repo, q, Run(repo, Ops(q)[..3]), Run(repo, Ops(q)[..4]))
  {
    SecondWaits(repo, q);
    RunKeeps(repo, Ops(q)[..3]);
    var s := Run(repo, Ops(q)[..3]);
    NextMessageIsUnused(s, q, 3);
    RunExtends(repo, Ops(q)[..3], Raise(q));
    assert Ops(q)[..3] + [Raise(q)] == Ops(q)[..4];
    RaisePasses(repo, q, s);
  }

  /** The third user is confirmed while the second one, who came before, still waits. */
  lemma NewcomerPasses(repo: Repo, q: Rush)
    requires Plausible(q)
    ensures FreshRun(repo, Ops(q))
    ensures WaitingIds(Run(repo, Ops(q)).regs, q.event.id) == {q.registrations[1]}
    ensures q.registrations[2] in ConfirmedIds(Run(repo, Ops(q)).regs, q.event.id)
  {
    RaiseRuns(repo, q);
    NextMessageIsUnused(Run(repo, Ops(q)[..4]), q, 4);
    RunExtends(repo, Ops(q)[..4], Ops(q)[4]);
    assert Ops(q)[..4] + [Ops(q)[4]] == Ops(q);
  }
}
