/**
 * The revocation cache in front of the durable revocation table: it may fail, forget and be warmed at will,
 * and must not be observable. A signed token fixes its own expiry, so expiry is a function of the token id.
 */
module RevocationCache {
  import opened Messages

  const WARM_SECONDS := 60

  /** Token id to expiry: the durable table, and the cache with the time at which an entry lapses. */
  datatype State = State(durable: map<Id, Time>, cache: map<Id, Time>)

  /** How the cache serves one call. */
  datatype CacheHealth = Works | Broken

  datatype Lookup = Found(revoked: bool) | LookupFailed

  predicate DurablyRevoked(durable: map<Id, Time>, token: Id, now: Time) {
    token in durable && now <= durable[token]
  }

  function MarkRevoked(cache: map<Id, Time>, token: Id, expiresAt: Time, now: Time, health: CacheHealth)
    : map<Id, Time>
  {
    if token == "" || expiresAt - now <= 0 || health == Broken then cache else cache[token := expiresAt]
  }

  predicate CacheHit(cache: map<Id, Time>, token: Id, now: Time, health: CacheHealth) {
    health == Works && token != "" && token in cache && now < cache[token]
  }

  function Revoke(s: State, token: Id, expiresAt: Time, now: Time, dbOk: bool, health: CacheHealth): State {
    if !dbOk then s
    else State(s.durable[token := expiresAt], MarkRevoked(s.cache, token, expiresAt, now, health))
  }

  /** A cached lookup; `read` and `write` say how the cache serves its two calls. */
  function IsRevoked(s: State, token: Id, now: Time, dbOk: bool, read: CacheHealth, write: CacheHealth)
    : (State, Lookup)
  {
    if CacheHit(s.cache, token, now, read) then (s, Found(true))
    else if !dbOk then (s, LookupFailed)
    else if DurablyRevoked(s.durable, token, now) then
      (s.(cache := MarkRevoked(s.cache, token, now + WARM_SECONDS, now, write)), Found(true))
    else (s, Found(false))
  }

  class CachedRevocationRepository {
    var durable: map<Id, Time>
    var cache: map<Id, Time>

    function Contents(): State
      reads this
    {
      State(durable, cache)
    }

    constructor ()
      ensures Contents() == State(map[], map[])
    {
      durable, cache := map[], map[];
    }

    method RevokeToken(token: Id, expiresAt: Time, now: Time, dbOk: bool, health: CacheHealth) returns (ok: bool)
      modifies this
      ensures Contents() == Revoke(old(Contents()), token, expiresAt, now, dbOk, health) && ok == dbOk
    {
      if !dbOk {
        return false;
      }
      durable := durable[token := expiresAt];
      CacheMark(token, expiresAt, now, health);
      return true;
    }

    method IsTokenRevoked(token: Id, now: Time, dbOk: bool, read: CacheHealth, write: CacheHealth)
      returns (result: Lookup)
      modifies this
      ensures (Contents(), result) == IsRevoked(old(Contents()), token, now, dbOk, read, write)
    {
      var hit := CacheRead(token, now, read);
      if hit {
        return Found(true);
      }
      if !dbOk {
        return LookupFailed;
      }
      if token !in durable || now > durable[token] {
        return Found(false);
      }
      CacheMark(token, now + WARM_SECONDS, now, write);
      return Found(true);
    }

    method CacheMark(token: Id, expiresAt: Time, now: Time, health: CacheHealth)
      modifies this`cache
      ensures cache == MarkRevoked(old(cache), token, expiresAt, now, health)
    {
      if token == "" {
        return;
      }
      var ttl := expiresAt - now;
      if ttl <= 0 || health == Broken {
        return;
      }
      cache := cache[token := now + ttl];
    }

    method CacheRead(token: Id, now: Time, health: CacheHealth) returns (hit: bool)
      ensures hit == CacheHit(cache, token, now, health)
    {
      if health == Broken || token == "" {
        return false;
      }
      return token in cache && now < cache[token];
    }
  }

  // ---------------------------------------------------------------- runs

  datatype Event =
    | Logout(token: Id, now: Time, dbOk: bool, health: CacheHealth)
    | Ask(token: Id, now: Time, dbOk: bool, read: CacheHealth, write: CacheHealth)
    | Evict(token: Id)

  /** Logging out revokes a token with the expiry it carries. */
  function After(s: State, event: Event, expiry: Id -> Time): State {
    match event
    case Logout(token, now, dbOk, health) => Revoke(s, token, expiry(token), now, dbOk, health)
    case Ask(token, now, dbOk, read, write) => IsRevoked(s, token, now, dbOk, read, write).0
    case Evict(token) => s.(cache := s.cache - {token})
  }

  function RunOf(events: seq<Event>, expiry: Id -> Time): State {
    if events == [] then State(map[], map[])
    else After(RunOf(events[..|events| - 1], expiry), events[|events| - 1], expiry)
  }

  /** Whatever the cache holds is durably revoked, with the token's own expiry. */
  ghost predicate Backed(s: State, expiry: Id -> Time) {
    && (forall token | token in s.cache :: token in s.durable)
    && (forall token | token in s.durable :: s.durable[token] == expiry(token))
  }

  lemma {:induction false} CacheIsBacked(events: seq<Event>, expiry: Id -> Time)
    ensures Backed(RunOf(events, expiry), expiry)
  {
    if events != [] {
      CacheIsBacked(events[..|events| - 1], expiry);
    }
  }

  // ---------------------------------------------------------------- the current user

  datatype Answer = Unauthorized | Unavailable | User(id: Id)

  /** What `CurrentUser` answers for a token verified at `verifiedAt`, given the outcome of the revocation lookup. */
  function CurrentUser(users: set<Id>, token: Id, subject: Id, expiresAt: Time, verifiedAt: Time,
                       lookup: Lookup): Answer
  {
    if expiresAt <= verifiedAt then Unauthorized
    else match lookup
      case LookupFailed => Unavailable
      case Found(revoked) => if revoked || subject !in users then Unauthorized else User(subject)
  }

  function CachedAnswer(s: State, users: set<Id>, token: Id, subject: Id, expiresAt: Time, verifiedAt: Time,
                        askedAt: Time, read: CacheHealth, write: CacheHealth): Answer
  {
    CurrentUser(users, token, subject, expiresAt, verifiedAt, IsRevoked(s, token, askedAt, true, read, write).1)
  }

  function PlainAnswer(s: State, users: set<Id>, token: Id, subject: Id, expiresAt: Time, verifiedAt: Time,
                       askedAt: Time)
    : Answer
  {
    CurrentUser(users, token, subject, expiresAt, verifiedAt, Found(DurablyRevoked(s.durable, token, askedAt)))
  }

  /**
   * In every reachable state, and however the cache behaves, the cached and the durable answer agree, except
   * exactly when a hit meets a token that expired between its verification and the lookup and whose user exists.
   */
  lemma CacheShowsIff(events: seq<Event>, expiry: Id -> Time, users: set<Id>, token: Id, subject: Id,
                      verifiedAt: Time, askedAt: Time, read: CacheHealth, write: CacheHealth)
    ensures var s := RunOf(events, expiry);
            CachedAnswer(s, users, token, subject, expiry(token), verifiedAt, askedAt, read, write)
              != PlainAnswer(s, users, token, subject, expiry(token), verifiedAt, askedAt)
            <==> CacheHit(s.cache, token, askedAt, read) && verifiedAt < expiry(token) < askedAt && subject in users
  {
    CacheIsBacked(events, expiry);
  }

  /** In particular the cache is invisible whenever the lookup happens before the token expires. */
  lemma CacheIsInvisible(events: seq<Event>, expiry: Id -> Time, users: set<Id>, token: Id, subject: Id,
                         verifiedAt: Time, askedAt: Time, read: CacheHealth, write: CacheHealth)
    requires askedAt <= expiry(token)
    ensures var s := RunOf(events, expiry);
            CachedAnswer(s, users, token, subject, expiry(token), verifiedAt, askedAt, read, write)
              == PlainAnswer(s, users, token, subject, expiry(token), verifiedAt, askedAt)
  {
    CacheShowsIff(events, expiry, users, token, subject, verifiedAt, askedAt, read, write);
  }

  /**
   * The exception does occur: a lookup one second before expiry warms the cache past it, and a request verified
   * in that second and looked up after it is rejected with the cache and let in without it.
   */
  lemma WarmedEntryOutlivesTheToken(token: Id, expiry: Id -> Time, issuedAt: Time, users: set<Id>, subject: Id)
    requires token != "" && issuedAt + 1 < expiry(token) && subject in users
    ensures var e := expiry(token);
            var s := RunOf([Logout(token, issuedAt, true, Broken), Ask(token, e - 1, true, Works, Works)], expiry);
            && CachedAnswer(s, users, token, subject, e, e - 1, e + 1, Works, Works) == Unauthorized
            && PlainAnswer(s, users, token, subject, e, e - 1, e + 1) == User(subject)
  {
    var e := expiry(token);
    var logout := Logout(token, issuedAt, true, Broken);
    var events := [logout, Ask(token, e - 1, true, Works, Works)];
    assert events[..1] == [logout] && [logout][..0] == [];
    assert RunOf([logout], expiry) == State(map[token := e], map[]);
  }

  // ---------------------------------------------------------------- who is let in

  /** With the database down nobody is let in: a hit rejects, and a miss says that the lookup failed. */
  lemma FailedLookupLetsNobodyIn(s: State, users: set<Id>, token: Id, subject: Id, expiresAt: Time, verifiedAt: Time,
                                 askedAt: Time, read: CacheHealth, write: CacheHealth)
    ensures var (s', lookup) := IsRevoked(s, token, askedAt, false, read, write);
            var answer := CurrentUser(users, token, subject, expiresAt, verifiedAt, lookup);
            && s' == s && !answer.User?
            && (answer == Unavailable <==> verifiedAt < expiresAt && !CacheHit(s.cache, token, askedAt, read))
  {
  }

  /** The token was revoked durably. */
  predicate LoggedOut(events: seq<Event>, token: Id) {
    exists i :: 0 <= i < |events| && events[i].Logout? && events[i].token == token && events[i].dbOk
  }

  lemma {:induction false} DurableIsLoggedOut(events: seq<Event>, expiry: Id -> Time, token: Id)
    ensures token in RunOf(events, expiry).durable <==> LoggedOut(events, token)
  {
    if events != [] {
      var before := events[..|events| - 1];
      DurableIsLoggedOut(before, expiry, token);
      assert forall i | 0 <= i < |before| :: before[i] == events[i];
    }
  }

  /** Without the cache a verified token lets its user in if and only if it was not revoked, until it expires. */
  lemma LetInIff(events: seq<Event>, expiry: Id -> Time, users: set<Id>, token: Id, subject: Id,
                 verifiedAt: Time, askedAt: Time)
    ensures PlainAnswer(RunOf(events, expiry), users, token, subject, expiry(token), verifiedAt, askedAt)
              == User(subject)
       <==> verifiedAt < expiry(token) && subject in users && !(LoggedOut(events, token) && askedAt <= expiry(token))
  {
    DurableIsLoggedOut(events, expiry, token);
    CacheIsBacked(events, expiry);
  }

  /** With the cache as well, however it behaves, as long as the database answers before the token expires. */
  lemma LetInWithCacheIff(events: seq<Event>, expiry: Id -> Time, users: set<Id>, token: Id, subject: Id,
                          verifiedAt: Time, askedAt: Time, read: CacheHealth, write: CacheHealth)
    requires askedAt <= expiry(token)
    ensures CachedAnswer(RunOf(events, expiry), users, token, subject, expiry(token), verifiedAt, askedAt, read, write)
              == User(subject)
       <==> verifiedAt < expiry(token) && subject in users && !LoggedOut(events, token)
  {
    CacheIsInvisible(events, expiry, users, token, subject, verifiedAt, askedAt, read, write);
    LetInIff(events, expiry, users, token, subject, verifiedAt, askedAt);
  }

  /** What reaches the cache: until expiry on logout, for one minute when a lookup finds the token revoked. */
  lemma CacheEntryLasts(s: State, token: Id, expiresAt: Time, now: Time)
    requires token != ""
    ensures now < expiresAt ==>
              forall t: Time :: now <= t ==>
                (CacheHit(Revoke(s, token, expiresAt, now, true, Works).cache, token, t, Works) <==> t < expiresAt)
    ensures token !in s.cache && token in s.durable && now <= s.durable[token] ==>
              forall t: Time :: now <= t ==>
                (CacheHit(IsRevoked(s, token, now, true, Works, Works).0.cache, token, t, Works) <==> t < now + 60)
  {
  }
}
