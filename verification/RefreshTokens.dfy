/** Refresh sessions: rotation, replay detection and whole-family revocation. Token hashes are opaque names. */
module RefreshTokens {
  import opened Collections
  import opened Messages

  datatype RefreshSession = RefreshSession(tokenHash: Id, userId: Id, familyId: Id, replacedByHash: Id, expiresAt: Time,
                                           revokedAt: Option<Time>, createdAt: Time, updatedAt: Time)
  {
    predicate Spent() { revokedAt.Some? || replacedByHash != "" }
  }

  type Tokens = map<Id, RefreshSession>

  datatype RotateResult = Rotated(userId: Id, next: RefreshSession) | Unauthorized | RefreshReuse

  // ---------------------------------------------------------------- operations

  function RevokeFamily(tokens: Tokens, family: Id, now: Time): Tokens {
    map hash | hash in tokens ::
      if tokens[hash].familyId != family || tokens[hash].revokedAt.Some? then tokens[hash]
      else tokens[hash].(revokedAt := Some(now), updatedAt := now)
  }

  function Rotate(tokens: Tokens, users: set<Id>, oldHash: Id, newHash: Id, newExpiresAt: Time, now: Time)
    : (Tokens, RotateResult)
  {
    if oldHash !in tokens || tokens[oldHash].expiresAt <= now || tokens[oldHash].userId !in users then
      (tokens, Unauthorized)
    else
      var current := tokens[oldHash];
      if current.Spent() then (RevokeFamily(tokens, current.familyId, now), RefreshReuse)
      else
        var next := RefreshSession(newHash, current.userId, current.familyId, "", newExpiresAt, None, now, now);
        var replaced := current.(revokedAt := Some(now), replacedByHash := newHash, updatedAt := now);
        (tokens[oldHash := replaced][newHash := next],
         Rotated(current.userId, next))
  }

  function RevokeSession(tokens: Tokens, hash: Id, now: Time): Tokens {
    if hash !in tokens then tokens else RevokeFamily(tokens, tokens[hash].familyId, now)
  }

  class SessionRepository {
    var users: set<Id>
    var refreshTokens: Tokens

    constructor ()
      ensures users == {} && refreshTokens == map[]
    {
      users, refreshTokens := {}, map[];
    }

    method CreateRefreshSession(session: RefreshSession)
      modifies this`refreshTokens
      ensures refreshTokens == old(refreshTokens)[session.tokenHash := session]
    {
      refreshTokens := refreshTokens[session.tokenHash := session];
    }

    method RotateRefreshSession(oldHash: Id, newHash: Id, newExpiresAt: Time, now: Time) returns (result: RotateResult)
      modifies this`refreshTokens
      ensures (refreshTokens, result) == Rotate(old(refreshTokens), users, oldHash, newHash, newExpiresAt, now)
    {
      if oldHash !in refreshTokens || refreshTokens[oldHash].expiresAt <= now {
        return Unauthorized;
      }
      var current := refreshTokens[oldHash];
      if current.userId !in users {
        return Unauthorized;
      }
      if current.revokedAt.Some? || current.replacedByHash != "" {
        RevokeRefreshFamilyLocked(current.familyId, now);
        return RefreshReuse;
      }
      current := current.(revokedAt := Some(now), replacedByHash := newHash, updatedAt := now);
      refreshTokens := refreshTokens[oldHash := current];
      var next := RefreshSession(newHash, current.userId, current.familyId, "", newExpiresAt, None, now, now);
      refreshTokens := refreshTokens[newHash := next];
      return Rotated(current.userId, next);
    }

    method RevokeRefreshSession(hash: Id, now: Time)
      modifies this`refreshTokens
      ensures refreshTokens == RevokeSession(old(refreshTokens), hash, now)
    {
      if hash !in refreshTokens {
        return;
      }
      RevokeRefreshFamilyLocked(refreshTokens[hash].familyId, now);
    }

    method RevokeRefreshFamilyLocked(family: Id, now: Time)
      modifies this`refreshTokens
      ensures refreshTokens == RevokeFamily(old(refreshTokens), family, now)
    {
      ghost var before := refreshTokens;
      var rest := refreshTokens.Keys;
      while rest != {}
        invariant rest <= refreshTokens.Keys == before.Keys
        invariant forall hash | hash in rest :: refreshTokens[hash] == before[hash]
        invariant forall hash | hash in before && hash !in rest ::
                    refreshTokens[hash] == RevokeFamily(before, family, now)[hash]
        decreases |rest|
      {
        var hash :| hash in rest;
        rest := rest - {hash};
        var session := refreshTokens[hash];
        if session.familyId != family || session.revokedAt.Some? {
          continue;
        }
        refreshTokens := refreshTokens[hash := session.(revokedAt := Some(now), updatedAt := now)];
      }
    }
  }

  // ---------------------------------------------------------------- runs

  /** The store, with the order in which each family's tokens were issued. */
  datatype World = World(users: set<Id>, tokens: Tokens, chains: map<Id, seq<Id>>)

  datatype Event =
    | AddUser(userId: Id)
    | Issue(session: RefreshSession)
    | Refresh(oldHash: Id, newHash: Id, newExpiresAt: Time, now: Time)
    | Logout(hash: Id, now: Time)

  /** New hashes and family ids are new; a session starts out neither revoked nor replaced. */
  predicate Possible(w: World, event: Event) {
    match event
    case AddUser(_) => true
    case Issue(session) =>
      && session.tokenHash !in w.tokens && session.tokenHash != "" && session.familyId !in w.chains
      && session.revokedAt == None && session.replacedByHash == ""
    case Refresh(_, newHash, _, _) => newHash !in w.tokens && newHash != ""
    case Logout(_, _) => true
  }

  function After(w: World, event: Event): World {
    match event
    case AddUser(userId) => w.(users := w.users + {userId})
    case Issue(session) =>
      w.(tokens := w.tokens[session.tokenHash := session], chains := w.chains[session.familyId := [session.tokenHash]])
    case Refresh(oldHash, newHash, newExpiresAt, now) =>
      var (tokens', result) := Rotate(w.tokens, w.users, oldHash, newHash, newExpiresAt, now);
      if !result.Rotated? then w.(tokens := tokens') else
      var family := result.next.familyId;
      var chain := if family in w.chains then w.chains[family] else [];
      w.(tokens := tokens', chains := w.chains[family := chain + [newHash]])
    case Logout(hash, now) => w.(tokens := RevokeSession(w.tokens, hash, now))
  }

  function RunOf(events: seq<Event>): World {
    if events == [] then World({}, map[], map[]) else After(RunOf(events[..|events| - 1]), events[|events| - 1])
  }

  ghost predicate PossibleRun(events: seq<Event>) {
    events == [] || (PossibleRun(events[..|events| - 1])
                     && Possible(RunOf(events[..|events| - 1]), events[|events| - 1]))
  }

  predicate Succeeds(w: World, event: Event) {
    event.Refresh? && Rotate(w.tokens, w.users, event.oldHash, event.newHash, event.newExpiresAt, event.now).1.Rotated?
  }

  // ---------------------------------------------------------------- families are chains

  /** The `i`-th token of a family was replaced by the next one, unless it is the last. */
  predicate LinkOk(w: World, family: Id, i: nat)
    requires family in w.chains && i < |w.chains[family]|
  {
    var chain := w.chains[family];
    && chain[i] in w.tokens
    && w.tokens[chain[i]].familyId == family
    && if i + 1 < |chain| then w.tokens[chain[i]].replacedByHash == chain[i + 1] && w.tokens[chain[i]].revokedAt.Some?
       else w.tokens[chain[i]].replacedByHash == ""
  }

  predicate DistinctAt(chain: seq<Id>, i: nat, j: nat) {
    i < j < |chain| ==> chain[i] != chain[j]
  }

  ghost predicate ChainOk(w: World, family: Id)
    requires family in w.chains
  {
    && w.chains[family] != []
    && (forall i | 0 <= i < |w.chains[family]| :: LinkOk(w, family, i))
    && (forall i, j | 0 <= i < j < |w.chains[family]| :: DistinctAt(w.chains[family], i, j))
  }

  predicate TokenOk(w: World, hash: Id)
    requires hash in w.tokens
  {
    && hash != "" && w.tokens[hash].tokenHash == hash
    && w.tokens[hash].familyId in w.chains && hash in w.chains[w.tokens[hash].familyId]
  }

  ghost predicate Chained(w: World) {
    && (forall hash | hash in w.tokens :: TokenOk(w, hash))
    && (forall family | family in w.chains :: ChainOk(w, family))
  }

  /** Only the end of the chain can still be rotated. */
  lemma LiveIsLast(w: World, hash: Id)
    requires Chained(w) && hash in w.tokens && !w.tokens[hash].Spent()
    ensures TokenOk(w, hash) && ChainOk(w, w.tokens[hash].familyId)
    ensures var chain := w.chains[w.tokens[hash].familyId]; hash == chain[|chain| - 1]
  {
    assert TokenOk(w, hash);
    var family := w.tokens[hash].familyId;
    assert ChainOk(w, family);
    var i :| 0 <= i < |w.chains[family]| && w.chains[family][i] == hash;
    assert LinkOk(w, family, i);
  }

  lemma RevokingKeepsChains(w: World, family: Id, now: Time)
    requires Chained(w)
    ensures Chained(w.(tokens := RevokeFamily(w.tokens, family, now)))
  {
    var w' := w.(tokens := RevokeFamily(w.tokens, family, now));
    forall f | f in w'.chains ensures ChainOk(w', f) {
      assert ChainOk(w, f);
      forall i | 0 <= i < |w'.chains[f]| ensures LinkOk(w', f, i) {
        assert LinkOk(w, f, i);
      }
    }
    forall hash | hash in w'.tokens ensures TokenOk(w', hash) {
      assert TokenOk(w, hash);
    }
  }

  lemma RotatingKeepsChains(w: World, event: Event)
    requires Chained(w) && Possible(w, event) && Succeeds(w, event)
    ensures Chained(After(w, event))
  {
    var w' := After(w, event);
    var family := w.tokens[event.oldHash].familyId;
    LiveIsLast(w, event.oldHash);
    forall f | f in w'.chains ensures ChainOk(w', f) {
      assert ChainOk(w, f);
      forall i | 0 <= i < |w'.chains[f]| ensures LinkOk(w', f, i) {
        if i < |w.chains[f]| { assert LinkOk(w, f, i); }
        if f == family && i + 1 < |w.chains[f]| { assert DistinctAt(w.chains[f], i, |w.chains[f]| - 1); }
      }
      forall i, j | 0 <= i < j < |w'.chains[f]| ensures DistinctAt(w'.chains[f], i, j) {
        assert LinkOk(w, f, i);
        if j < |w.chains[f]| { assert DistinctAt(w.chains[f], i, j); }
      }
    }
    forall hash | hash in w'.tokens ensures TokenOk(w', hash) {
      if hash != event.newHash { assert TokenOk(w, hash); }
    }
  }

  lemma IssuingKeepsChains(w: World, event: Event)
    requires Chained(w) && event.Issue? && Possible(w, event)
    ensures Chained(After(w, event))
  {
    var w' := After(w, event);
    forall f | f in w'.chains ensures ChainOk(w', f) {
      if f != event.session.familyId {
        assert ChainOk(w, f);
        forall i | 0 <= i < |w'.chains[f]| ensures LinkOk(w', f, i) {
          assert LinkOk(w, f, i);
        }
      }
    }
    forall hash | hash in w'.tokens ensures TokenOk(w', hash) {
      if hash != event.session.tokenHash { assert TokenOk(w, hash); }
    }
  }

  lemma StepKeepsChains(w: World, event: Event)
    requires Chained(w) && Possible(w, event)
    ensures Chained(After(w, event))
  {
    match event
    case AddUser(_) =>
      var w' := After(w, event);
      forall f | f in w'.chains ensures ChainOk(w', f) {
        assert ChainOk(w, f);
        forall i | 0 <= i < |w'.chains[f]| ensures LinkOk(w', f, i) {
          assert LinkOk(w, f, i);
        }
      }
      forall hash | hash in w'.tokens ensures TokenOk(w', hash) {
        assert TokenOk(w, hash);
      }
    case Issue(_) => IssuingKeepsChains(w, event);
    case Refresh(oldHash, _, _, now) =>
      if Succeeds(w, event) {
        RotatingKeepsChains(w, event);
      } else if oldHash in w.tokens {
        RevokingKeepsChains(w, w.tokens[oldHash].familyId, now);
      }
    case Logout(hash, now) =>
      if hash in w.tokens { RevokingKeepsChains(w, w.tokens[hash].familyId, now); }
  }

  /** In every reachable state each refresh family is one unforked chain without repetitions. */
  lemma {:induction false} FamiliesAreChains(events: seq<Event>)
    requires PossibleRun(events)
    ensures Chained(RunOf(events))
  {
    if events != [] {
      FamiliesAreChains(events[..|events| - 1]);
      StepKeepsChains(RunOf(events[..|events| - 1]), events[|events| - 1]);
    }
  }

  /** Each family has at most one live session. */
  lemma OneLiveSession(events: seq<Event>, a: Id, b: Id)
    requires PossibleRun(events)
    requires var tokens := RunOf(events).tokens;
             && a in tokens && b in tokens && !tokens[a].Spent() && !tokens[b].Spent()
             && tokens[a].familyId == tokens[b].familyId
    ensures a == b
  {
    FamiliesAreChains(events);
    LiveIsLast(RunOf(events), a);
    LiveIsLast(RunOf(events), b);
  }

  // ---------------------------------------------------------------- spent for good

  predicate SpentToken(w: World, hash: Id) { hash in w.tokens && w.tokens[hash].revokedAt.Some? }

  lemma StepKeepsSpent(w: World, event: Event, hash: Id)
    requires Possible(w, event) && SpentToken(w, hash)
    ensures SpentToken(After(w, event), hash)
    ensures event.Refresh? && event.oldHash == hash ==> !Succeeds(w, event)
  {
  }

  lemma {:induction false} SpentStaysSpent(events: seq<Event>, i: nat, hash: Id)
    requires PossibleRun(events) && i <= |events| && SpentToken(RunOf(events[..i]), hash)
    ensures SpentToken(RunOf(events), hash)
  {
    if i < |events| {
      var before := events[..|events| - 1];
      assert before[..i] == events[..i];
      SpentStaysSpent(before, i, hash);
      StepKeepsSpent(RunOf(before), events[|events| - 1], hash);
    } else {
      assert events[..i] == events;
    }
  }

  lemma {:induction false} PossiblePrefix(events: seq<Event>, i: nat)
    requires PossibleRun(events) && i <= |events|
    ensures PossibleRun(events[..i])
    ensures i < |events| ==> Possible(RunOf(events[..i]), events[i])
  {
    if i + 1 < |events| {
      PossiblePrefix(events[..|events| - 1], i);
      assert events[..|events| - 1][..i] == events[..i];
    } else {
      assert events[..|events|] == events;
    }
  }

  lemma RotationSpends(events: seq<Event>, i: nat)
    requires PossibleRun(events) && i < |events| && events[i].Refresh?
    requires PossibleRun(events[..i]) && PossibleRun(events[..i + 1]) && Succeeds(RunOf(events[..i]), events[i])
    ensures SpentToken(RunOf(events[..i + 1]), events[i].oldHash)
  {
    assert events[..i + 1][..i] == events[..i];
  }

  /** Each token rotates successfully at most once in a whole run. */
  lemma RotatesAtMostOnce(events: seq<Event>, i: nat, j: nat)
    requires PossibleRun(events) && i < j < |events|
    requires events[i].Refresh? && events[j].Refresh? && events[i].oldHash == events[j].oldHash
    requires Succeeds(RunOf(events[..i]), events[i])
    ensures !Succeeds(RunOf(events[..j]), events[j])
  {
    PossiblePrefix(events, i);
    PossiblePrefix(events, i + 1);
    PossiblePrefix(events, j);
    RotationSpends(events, i);
    assert events[..j][..i + 1] == events[..i + 1];
    SpentStaysSpent(events[..j], i + 1, events[i].oldHash);
    StepKeepsSpent(RunOf(events[..j]), events[j], events[j].oldHash);
  }

  /** No token of the family can ever be rotated again. */
  ghost predicate FamilyIsDead(w: World, family: Id) {
    && family in w.chains
    && forall hash | hash in w.tokens && w.tokens[hash].familyId == family :: w.tokens[hash].revokedAt.Some?
  }

  lemma StepKeepsFamilyDead(w: World, event: Event, family: Id)
    requires Possible(w, event) && FamilyIsDead(w, family)
    ensures FamilyIsDead(After(w, event), family)
    ensures event.Refresh? && event.oldHash in w.tokens && w.tokens[event.oldHash].familyId == family
            ==> !Succeeds(w, event)
  {
  }

  lemma {:induction false} DeadStaysDead(events: seq<Event>, i: nat, family: Id)
    requires PossibleRun(events) && i <= |events| && FamilyIsDead(RunOf(events[..i]), family)
    ensures FamilyIsDead(RunOf(events), family)
  {
    if i < |events| {
      var before := events[..|events| - 1];
      assert before[..i] == events[..i];
      DeadStaysDead(before, i, family);
      StepKeepsFamilyDead(RunOf(before), events[|events| - 1], family);
    } else {
      assert events[..i] == events;
    }
  }

  /** Replaying a spent token kills its family exactly if the token has not expired and its user still exists. */
  lemma ReplayKillsFamilyIff(events: seq<Event>, replay: Event)
    requires PossibleRun(events) && replay.Refresh? && Possible(RunOf(events), replay)
    requires replay.oldHash in RunOf(events).tokens && RunOf(events).tokens[replay.oldHash].Spent()
    ensures var w := RunOf(events);
            var token := w.tokens[replay.oldHash];
            FamilyIsDead(After(w, replay), token.familyId)
            <==> FamilyIsDead(w, token.familyId) || (token.expiresAt > replay.now && token.userId in w.users)
  {
    FamiliesAreChains(events);
    assert TokenOk(RunOf(events), replay.oldHash);
  }

  /** After such a replay every refresh with any token of that family fails, for the rest of the run. */
  lemma ReplayEndsTheFamily(events: seq<Event>, i: nat, j: nat)
    requires PossibleRun(events) && i < j < |events| && events[i].Refresh? && events[j].Refresh?
    requires var w := RunOf(events[..i]);
             && events[i].oldHash in w.tokens && w.tokens[events[i].oldHash].Spent()
             && w.tokens[events[i].oldHash].expiresAt > events[i].now && w.tokens[events[i].oldHash].userId in w.users
    requires var w, w' := RunOf(events[..i]), RunOf(events[..j]);
             && events[j].oldHash in w'.tokens
             && w'.tokens[events[j].oldHash].familyId == w.tokens[events[i].oldHash].familyId
    ensures !Succeeds(RunOf(events[..j]), events[j])
  {
    PossiblePrefix(events, i);
    PossiblePrefix(events, j);
    var family := RunOf(events[..i]).tokens[events[i].oldHash].familyId;
    ReplayKillsFamilyIff(events[..i], events[i]);
    assert events[..i + 1][..i] == events[..i];
    assert events[..j][..i + 1] == events[..i + 1];
    DeadStaysDead(events[..j], i + 1, family);
    StepKeepsFamilyDead(RunOf(events[..j]), events[j], family);
  }

  lemma Extends(events: seq<Event>, event: Event)
    requires PossibleRun(events) && Possible(RunOf(events), event)
    ensures PossibleRun(events + [event]) && RunOf(events + [event]) == After(RunOf(events), event)
  {
    assert (events + [event])[..|events + [event]| - 1] == events;
  }

  /** A user's session is rotated from `a` to `b`, and `a` is presented once more at `late`. */
  function LateReplay(first: RefreshSession, b: Id, until: Time, early: Time, late: Time, unused: Id): seq<Event> {
    [AddUser(first.userId), Issue(first), Refresh(first.tokenHash, b, until, early),
     Refresh(first.tokenHash, unused, until, late)]
  }

  /** Replayed after its expiry, the spent token leaves the family alive: its successor still rotates. */
  lemma ExpiredReplaySparesTheFamily(first: RefreshSession, b: Id, until: Time, early: Time, late: Time, c: Id)
    requires first.tokenHash != "" && first.revokedAt == None && first.replacedByHash == ""
    requires b != "" && c != "" && first.tokenHash != b && first.tokenHash != c && b != c
    requires early < first.expiresAt <= late < until
    ensures var events := LateReplay(first, b, until, early, late, c);
            && PossibleRun(events) && !FamilyIsDead(RunOf(events), first.familyId)
            && Succeeds(RunOf(events), Refresh(b, c, until, late))
  {
    var events := LateReplay(first, b, until, early, late, c);
    assert [] + [events[0]] == events[..1] && events[..1] + [events[1]] == events[..2];
    assert events[..2] + [events[2]] == events[..3] && events[..3] + [events[3]] == events;
    Extends([], events[0]);
    Extends(events[..1], events[1]);
    Extends(events[..2], events[2]);
    assert RunOf(events[..3]).tokens[b]
        == RefreshSession(b, first.userId, first.familyId, "", until, None, early, early);
    Extends(events[..3], events[3]);
  }

  // ---------------------------------------------------------------- logging out

  /** No token of another family changes. */
  ghost predicate OnlyFamilyTouched(w: World, w': World, family: Id) {
    && w'.users == w.users && w'.chains == w.chains && w'.tokens.Keys == w.tokens.Keys
    && forall hash | hash in w.tokens && w.tokens[hash].familyId != family :: w'.tokens[hash] == w.tokens[hash]
  }

  /** Every session of the family that was not revoked is revoked at `now`; the others stay as they are. */
  ghost predicate FamilyRevoked(w: World, w': World, family: Id, now: Time) {
    forall hash | hash in w.tokens && w.tokens[hash].familyId == family ::
      && hash in w'.tokens
      && w'.tokens[hash] == (if w.tokens[hash].revokedAt == None
                             then w.tokens[hash].(revokedAt := Some(now), updatedAt := now) else w.tokens[hash])
  }

  /** Logging out revokes the whole family of a known token, and nothing else; an unknown one changes nothing. */
  lemma LogoutKillsFamily(events: seq<Event>, hash: Id, now: Time)
    requires PossibleRun(events)
    ensures var w := RunOf(events);
            var w' := After(w, Logout(hash, now));
            if hash in w.tokens
            then
              var family := w.tokens[hash].familyId;
              FamilyIsDead(w', family) && OnlyFamilyTouched(w, w', family) && FamilyRevoked(w, w', family, now)
            else w' == w
  {
    FamiliesAreChains(events);
    assert hash in RunOf(events).tokens ==> TokenOk(RunOf(events), hash);
  }

  /** After a logout every refresh with any token of that family fails, for the rest of the run. */
  lemma LogoutEndsTheFamily(events: seq<Event>, i: nat, j: nat)
    requires PossibleRun(events) && i < j < |events| && events[i].Logout? && events[j].Refresh?
    requires events[i].hash in RunOf(events[..i]).tokens && events[j].oldHash in RunOf(events[..j]).tokens
    requires RunOf(events[..j]).tokens[events[j].oldHash].familyId == RunOf(events[..i]).tokens[events[i].hash].familyId
    ensures !Succeeds(RunOf(events[..j]), events[j])
  {
    PossiblePrefix(events, i);
    PossiblePrefix(events, j);
    var family := RunOf(events[..i]).tokens[events[i].hash].familyId;
    LogoutKillsFamily(events[..i], events[i].hash, events[i].now);
    assert events[..i + 1][..i] == events[..i];
    assert events[..j][..i + 1] == events[..i + 1];
    DeadStaysDead(events[..j], i + 1, family);
    StepKeepsFamilyDead(RunOf(events[..j]), events[j], family);
  }

  // ---------------------------------------------------------------- what a refresh is answered, and writes

  function AnswerOf(w: World, event: Event): RotateResult
    requires event.Refresh?
  {
    Rotate(w.tokens, w.users, event.oldHash, event.newHash, event.newExpiresAt, event.now).1
  }

  /** A known token of an existing user that has not expired. */
  predicate Presentable(w: World, hash: Id, now: Time) {
    hash in w.tokens && now < w.tokens[hash].expiresAt && w.tokens[hash].userId in w.users
  }

  /** Which of the three answers a refresh gets. */
  lemma RefreshIsAnsweredIff(w: World, event: Event)
    requires event.Refresh?
    ensures var answer, hash := AnswerOf(w, event), event.oldHash;
            && (answer == Unauthorized <==> !Presentable(w, hash, event.now))
            && (answer == RefreshReuse <==>
                  Presentable(w, hash, event.now)
                  && (w.tokens[hash].revokedAt != None || w.tokens[hash].replacedByHash != ""))
            && (answer.Rotated? <==>
                  Presentable(w, hash, event.now)
                  && w.tokens[hash].revokedAt == None && w.tokens[hash].replacedByHash == "")
            && (answer == Unauthorized ==> After(w, event).tokens == w.tokens)
  {
  }

  /** A rotation hands out one live token of the same user and family, and marks the old one as replaced by it. */
  lemma RotationWrites(w: World, event: Event)
    requires event.Refresh? && Possible(w, event) && AnswerOf(w, event).Rotated?
    ensures var was, w', answer := w.tokens[event.oldHash], After(w, event), AnswerOf(w, event);
            && w'.tokens.Keys == w.tokens.Keys + {event.newHash} && w'.users == w.users
            && (forall hash | hash in w.tokens && hash != event.oldHash :: w'.tokens[hash] == w.tokens[hash])
            && var next := w'.tokens[event.newHash];
            && answer == Rotated(was.userId, next)
            && next.tokenHash == event.newHash && next.userId == was.userId && next.familyId == was.familyId
            && next.expiresAt == event.newExpiresAt && next.revokedAt == None && next.replacedByHash == ""
            && next.createdAt == event.now == next.updatedAt
            && w'.tokens[event.oldHash]
               == was.(revokedAt := Some(event.now), replacedByHash := event.newHash, updatedAt := event.now)
  {
  }

  /** A replay revokes the family at that moment and leaves other families alone. */
  lemma ReplayWrites(w: World, event: Event)
    requires event.Refresh? && AnswerOf(w, event) == RefreshReuse
    ensures var w', family := After(w, event), w.tokens[event.oldHash].familyId;
            OnlyFamilyTouched(w, w', family) && FamilyRevoked(w, w', family, event.now)
  {
  }

  /** A user who was issued a session can refresh it until it expires, is rotated or the family is revoked. */
  lemma IssuedSessionRotates(w: World, session: RefreshSession, newHash: Id, until: Time, now: Time)
    requires Possible(w, Issue(session)) && session.userId in w.users && now < session.expiresAt
    ensures Succeeds(After(w, Issue(session)), Refresh(session.tokenHash, newHash, until, now))
  {
  }
}
