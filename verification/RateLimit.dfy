/** The in-memory fixed-window rate limiter. Times and windows are counted in nanoseconds. */
module RateLimit {
  import opened Collections
  import opened Messages

  const SECOND := 1_000_000_000

  datatype Bucket = Bucket(start: Time, count: int)

  type Buckets = map<string, Bucket>

  datatype Decision = Invalid | Allowed | Rejected(retryAfter: int)

  /** The bucket a request at `now` is counted in. */
  function BucketAt(buckets: Buckets, key: string, window: int, now: Time): Bucket {
    if key !in buckets || buckets[key].start == ZERO_TIME || now - buckets[key].start >= window then Bucket(now, 0)
    else buckets[key]
  }

  function Decide(buckets: Buckets, key: string, limit: int, window: int, now: Time): (Buckets, Decision) {
    if window <= 0 then (buckets, Invalid) else
    var found := BucketAt(buckets, key, window, now);
    var bucket := found.(count := found.count + 1);
    (buckets[key := bucket],
     if bucket.count <= limit then Allowed else Rejected(Max(bucket.start + window - now, SECOND)))
  }

  class MemoryFixedWindowStore {
    var buckets: Buckets

    constructor ()
      ensures buckets == map[]
    {
      buckets := map[];
    }

    method Allow(key: string, limit: int, window: int, now: Time) returns (decision: Decision)
      modifies this
      ensures (buckets, decision) == Decide(old(buckets), key, limit, window, now)
    {
      if window <= 0 {
        return Invalid;
      }
      var bucket := if key in buckets then buckets[key] else Bucket(ZERO_TIME, 0);
      if bucket.start == ZERO_TIME || now - bucket.start >= window {
        bucket := Bucket(now, 0);
      }
      bucket := bucket.(count := bucket.count + 1);
      buckets := buckets[key := bucket];
      if bucket.count <= limit {
        return Allowed;
      }
      var retryAfter := bucket.start + window - now;
      if retryAfter < SECOND {
        retryAfter := SECOND;
      }
      return Rejected(retryAfter);
    }
  }

  // ---------------------------------------------------------------- runs

  datatype Request = Request(key: string, limit: int, window: int, now: Time)

  function BucketsAfter(requests: seq<Request>): Buckets {
    if requests == [] then map[] else
    var r := requests[|requests| - 1];
    Decide(BucketsAfter(requests[..|requests| - 1]), r.key, r.limit, r.window, r.now).0
  }

  predicate AllowedAt(requests: seq<Request>, i: nat)
    requires i < |requests|
  {
    var r := requests[i];
    Decide(BucketsAfter(requests[..i]), r.key, r.limit, r.window, r.now).1 == Allowed
  }

  /** How many requests of `key` were allowed at times from `lo` on and before `hi`. */
  function CountAllowed(requests: seq<Request>, key: string, lo: Time, hi: Time): nat {
    if requests == [] then 0 else
    var last := |requests| - 1;
    CountAllowed(requests[..last], key, lo, hi)
    + if requests[last].key == key && lo <= requests[last].now < hi && AllowedAt(requests, last) then 1 else 0
  }

  /** A clock that is set and never goes back; one key is always limited the same way. */
  ghost predicate Steady(requests: seq<Request>, key: string, limit: int, window: int) {
    && (forall i | 0 <= i < |requests| :: requests[i].now > ZERO_TIME)
    && (forall i, j | 0 <= i < j < |requests| :: requests[i].now <= requests[j].now)
    && (forall i | 0 <= i < |requests| && requests[i].key == key ::
       requests[i].limit == limit && requests[i].window == window)
  }

  lemma SteadyPrefix(requests: seq<Request>, key: string, limit: int, window: int)
    requires Steady(requests, key, limit, window) && requests != []
    ensures Steady(requests[..|requests| - 1], key, limit, window)
  {
  }

  /** How many of the requests counted in the present window were allowed. */
  function InBucket(bucket: Bucket, limit: int): int { Min(bucket.count, Max(limit, 0)) }

  /**
   * What the present bucket says about the past: requests after its start were allowed at most `InBucket`
   * times, and the window before its start can add one full limit.
   */
  ghost predicate BucketBounds(requests: seq<Request>, key: string, limit: int, window: int, end: Time) {
    var buckets := BucketsAfter(requests);
    if key !in buckets then forall lo: Time :: CountAllowed(requests, key, lo, end) == 0
    else
      var bucket := buckets[key];
      && ZERO_TIME < bucket.start < end && bucket.count >= 1
      && (forall lo: Time | lo > bucket.start :: CountAllowed(requests, key, lo, end) <= InBucket(bucket, limit))
      && (forall lo: Time | lo > bucket.start - window ::
            CountAllowed(requests, key, lo, end) <= Max(limit, 0) + InBucket(bucket, limit))
  }

  /** No request so far lies strictly after `now`. */
  lemma {:induction false} NothingYet(requests: seq<Request>, key: string, limit: int, window: int, now: Time,
                                      end: Time)
    requires forall i | 0 <= i < |requests| :: requests[i].now <= now
    ensures forall lo: Time | lo > now :: CountAllowed(requests, key, lo, end) == 0
  {
    if requests != [] {
      NothingYet(requests[..|requests| - 1], key, limit, window, now, end);
    }
  }

  lemma OneMoreRequest(requests: seq<Request>, key: string, limit: int, window: int, end: Time)
    requires requests != [] && Steady(requests, key, limit, window) && window > 0
    requires requests[|requests| - 1].now < end
    requires BucketBounds(requests[..|requests| - 1], key, limit, window, end)
    ensures BucketBounds(requests, key, limit, window, end)
  {
    var before, r := requests[..|requests| - 1], requests[|requests| - 1];
    if r.key == key {
      var buckets := BucketsAfter(before);
      if key in buckets && buckets[key].start > ZERO_TIME && r.now - buckets[key].start >= window {
        var last := |requests| - 1;
        assert BucketsAfter(requests)[key] == Bucket(r.now, 1);
        assert AllowedAt(requests, last) <==> 1 <= limit;
        NothingYet(before, key, limit, window, r.now, end);
        forall lo: Time | lo > r.now - window
          ensures CountAllowed(requests, key, lo, end) <= Max(limit, 0) + InBucket(Bucket(r.now, 1), limit)
        {
          assert lo > buckets[key].start;
          assert CountAllowed(before, key, lo, end) <= InBucket(buckets[key], limit);
        }
      } else if key !in buckets {
        assert BucketsAfter(requests)[key] == Bucket(r.now, 1);
        forall lo: Time
          ensures CountAllowed(requests, key, lo, end) <= InBucket(Bucket(r.now, 1), limit)
        {
          assert CountAllowed(before, key, lo, end) == 0;
          assert AllowedAt(requests, |requests| - 1) <==> 1 <= limit;
        }
      } else {
        var was := buckets[key];
        assert BucketsAfter(requests)[key] == Bucket(was.start, was.count + 1);
        assert AllowedAt(requests, |requests| - 1) <==> was.count + 1 <= limit;
        forall lo: Time | lo > was.start - window
          ensures CountAllowed(requests, key, lo, end) <= Max(limit, 0)
                  + InBucket(Bucket(was.start, was.count + 1), limit)
        {
          assert CountAllowed(before, key, lo, end) <= Max(limit, 0) + InBucket(was, limit);
        }
      }
    } else {
      forall lo: Time ensures CountAllowed(requests, key, lo, end) == CountAllowed(before, key, lo, end) {
      }
    }
  }

  lemma {:induction false} RunIsBounded(requests: seq<Request>, key: string, limit: int, window: int, end: Time)
    requires Steady(requests, key, limit, window) && window > 0
    requires forall i | 0 <= i < |requests| :: requests[i].now < end
    ensures BucketBounds(requests, key, limit, window, end)
  {
    if requests != [] {
      SteadyPrefix(requests, key, limit, window);
      RunIsBounded(requests[..|requests| - 1], key, limit, window, end);
      OneMoreRequest(requests, key, limit, window, end);
    }
  }

  /** Under a monotone clock any half-open interval of one window length holds at most twice the limit. */
  lemma {:induction false} AtMostTwiceTheLimit(requests: seq<Request>, key: string, limit: int, window: int, lo: Time)
    requires Steady(requests, key, limit, window) && window > 0
    ensures CountAllowed(requests, key, lo, lo + window) <= 2 * Max(limit, 0)
  {
    if requests != [] {
      var before, r := requests[..|requests| - 1], requests[|requests| - 1];
      if r.now >= lo + window {
        SteadyPrefix(requests, key, limit, window);
        AtMostTwiceTheLimit(before, key, limit, window, lo);
      } else {
        RunIsBounded(requests, key, limit, window, lo + window);
        var buckets := BucketsAfter(requests);
        if key in buckets {
          assert buckets[key].start - window < lo;
        }
      }
    }
  }

  // ---------------------------------------------------------------- retrying

  function AfterOthers(buckets: Buckets, others: seq<Request>): Buckets {
    if others == [] then buckets else
    var r := others[|others| - 1];
    Decide(AfterOthers(buckets, others[..|others| - 1]), r.key, r.limit, r.window, r.now).0
  }

  lemma {:induction false} OthersLeaveTheKeyAlone(buckets: Buckets, others: seq<Request>, key: string)
    requires key in buckets && forall r | r in others :: r.key != key
    ensures key in AfterOthers(buckets, others) && AfterOthers(buckets, others)[key] == buckets[key]
  {
    if others != [] {
      OthersLeaveTheKeyAlone(buckets, others[..|others| - 1], key);
    }
  }

  /** While nobody else asks for the key, a request after a rejection is allowed exactly once the window is over. */
  lemma {:induction false} RetrySucceedsIff(buckets: Buckets, key: string, limit: int, window: int, now: Time,
                                            others: seq<Request>, later: Time)
    requires window > 0 && limit >= 1 && ZERO_TIME < now <= later
    requires key in buckets ==> ZERO_TIME < buckets[key].start <= now
    requires Decide(buckets, key, limit, window, now).1.Rejected?
    requires forall r | r in others :: r.key != key
    ensures var rejected := Decide(buckets, key, limit, window, now).0;
            Decide(AfterOthers(rejected, others), key, limit, window, later).1 == Allowed
            <==> later >= rejected[key].start + window
  {
    OthersLeaveTheKeyAlone(Decide(buckets, key, limit, window, now).0, others, key);
  }

  /** So a client that waits for the announced time gets through. */
  lemma {:induction false} WaitingRetryAfterSuffices(
      buckets: Buckets, key: string, limit: int, window: int, now: Time, others: seq<Request>, later: Time)
    requires window > 0 && limit >= 1 && ZERO_TIME < now
    requires key in buckets ==> ZERO_TIME < buckets[key].start <= now
    requires Decide(buckets, key, limit, window, now).1.Rejected?
    requires later >= now + Decide(buckets, key, limit, window, now).1.retryAfter
    requires forall r | r in others :: r.key != key
    ensures Decide(AfterOthers(Decide(buckets, key, limit, window, now).0, others), key, limit, window, later).1
            == Allowed
  {
    RetrySucceedsIff(buckets, key, limit, window, now, others, later);
  }

  // ---------------------------------------------------------------- exactly which requests are allowed

  /** The request that opened the present window of `key`: the first one, or one a whole window after the last. */
  function Opener(requests: seq<Request>, key: string): (opener: Option<nat>)
    ensures opener.Some? ==> opener.value < |requests| && requests[opener.value].key == key
  {
    if requests == [] then None else
    var before, r := requests[..|requests| - 1], requests[|requests| - 1];
    var opener := Opener(before, key);
    if r.key != key then opener
    else if opener == None || r.now - before[opener.value].now >= r.window then Some(|before|)
    else opener
  }

  /** How many requests of `key` there are from index `from` on. */
  function Counted(requests: seq<Request>, key: string, from: nat): nat {
    if |requests| <= from then 0
    else Counted(requests[..|requests| - 1], key, from) + if requests[|requests| - 1].key == key then 1 else 0
  }

  /** The bucket is the window the list shows. */
  lemma {:induction false} BucketIsTheWindow(requests: seq<Request>, key: string, limit: int, window: int)
    requires Steady(requests, key, limit, window) && window > 0
    ensures key in BucketsAfter(requests) <==> Opener(requests, key).Some?
    ensures Opener(requests, key).Some? ==>
              var o := Opener(requests, key).value;
              BucketsAfter(requests)[key] == Bucket(requests[o].now, Counted(requests, key, o))
  {
    if requests != [] {
      var before := requests[..|requests| - 1];
      SteadyPrefix(requests, key, limit, window);
      BucketIsTheWindow(before, key, limit, window);
      if Opener(before, key).Some? {
        assert before[Opener(before, key).value] == requests[Opener(before, key).value];
      }
      assert Counted(requests, key, |before|) == if requests[|before|].key == key then 1 else 0;
    }
  }

  /** The request that opened the window request `i` is counted in. */
  function OpenerOf(requests: seq<Request>, i: nat): (o: nat)
    requires i < |requests|
    ensures o <= i && requests[o].key == requests[i].key
  {
    var upTo := requests[..i + 1];
    assert upTo[i] == requests[i] && Opener(upTo, requests[i].key).Some?;
    Opener(upTo, requests[i].key).value
  }

  /** The place of request `i` among the requests of its key in that window. */
  function PlaceOf(requests: seq<Request>, i: nat): nat
    requires i < |requests|
  {
    Counted(requests[..i + 1], requests[i].key, OpenerOf(requests, i))
  }

  lemma {:induction false} SteadyUpTo(requests: seq<Request>, key: string, limit: int, window: int, n: nat)
    requires Steady(requests, key, limit, window) && n <= |requests|
    ensures Steady(requests[..n], key, limit, window)
  {
  }

  /**
   * A request is allowed if and only if it is among the first `limit` of its key in its window; otherwise it is
   * rejected, and told to wait for what is left of the window, but for one second at least.
   */
  lemma AllowedIffAmongTheFirst(requests: seq<Request>, limit: int, window: int, i: nat)
    requires i < |requests| && Steady(requests, requests[i].key, limit, window) && window > 0
    ensures AllowedAt(requests, i) <==> PlaceOf(requests, i) <= limit
    ensures var left := requests[OpenerOf(requests, i)].now + window - requests[i].now;
            !AllowedAt(requests, i) ==>
              AnswerAt(requests, i) == Rejected(if left > 1_000_000_000 then left else 1_000_000_000)
  {
    var upTo, before, key := requests[..i + 1], requests[..i], requests[i].key;
    assert upTo[..|upTo| - 1] == before && upTo[i] == requests[i];
    SteadyUpTo(requests, key, limit, window, i + 1);
    SteadyUpTo(requests, key, limit, window, i);
    BucketIsTheWindow(upTo, key, limit, window);
    BucketIsTheWindow(before, key, limit, window);
    assert upTo[OpenerOf(requests, i)] == requests[OpenerOf(requests, i)];
    assert BucketsAfter(upTo)[key] == Bucket(requests[OpenerOf(requests, i)].now, PlaceOf(requests, i));
  }

  function AnswerAt(requests: seq<Request>, i: nat): Decision
    requires i < |requests|
  {
    var r := requests[i];
    Decide(BucketsAfter(requests[..i]), r.key, r.limit, r.window, r.now).1
  }

  /** How many requests of `key` came strictly after `lo`. */
  function CountedAfter(requests: seq<Request>, key: string, lo: Time): nat {
    if requests == [] then 0
    else
      var last := requests[|requests| - 1];
      CountedAfter(requests[..|requests| - 1], key, lo) + if last.key == key && last.now > lo then 1 else 0
  }

  lemma {:induction false} WindowIsRecent(requests: seq<Request>, key: string, from: nat, lo: Time)
    requires forall i | from <= i < |requests| :: requests[i].now > lo
    ensures Counted(requests, key, from) <= CountedAfter(requests, key, lo)
  {
    if |requests| > from {
      WindowIsRecent(requests[..|requests| - 1], key, from, lo);
    }
  }

  /** The window request `i` is counted in has not been open for a whole window. */
  lemma {:induction false} OpenerIsRecent(requests: seq<Request>, key: string, limit: int, window: int)
    requires Steady(requests, key, limit, window) && window > 0 && requests != []
    requires requests[|requests| - 1].key == key && Opener(requests, key).Some?
    ensures requests[|requests| - 1].now - requests[Opener(requests, key).value].now < window
  {
  }

  /** A client with at most `limit` requests in the window-long interval that ends now is never refused. */
  lemma FewRecentRequestsAreAllowed(requests: seq<Request>, limit: int, window: int, i: nat)
    requires i < |requests| && Steady(requests, requests[i].key, limit, window) && window > 0
    requires CountedAfter(requests[..i + 1], requests[i].key, requests[i].now - window) <= limit
    ensures AllowedAt(requests, i)
  {
    var upTo, key, o := requests[..i + 1], requests[i].key, OpenerOf(requests, i);
    SteadyUpTo(requests, key, limit, window, i + 1);
    assert upTo[|upTo| - 1] == requests[i] && upTo[o] == requests[o];
    OpenerIsRecent(upTo, key, limit, window);
    WindowIsRecent(upTo, key, o, requests[i].now - window);
    AllowedIffAmongTheFirst(requests, limit, window, i);
  }

  /** A window that is not positive is refused and counts nothing. */
  lemma BadWindowIsRefused(buckets: Buckets, key: string, limit: int, window: int, now: Time)
    requires window <= 0
    ensures Decide(buckets, key, limit, window, now) == (buckets, Invalid)
  {
  }
}
