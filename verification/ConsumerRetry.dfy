/**
 * The consumer's retry path: a failed delivery is republished to the next delayed retry queue, or at last to the
 * dead-letter queue, and the original is acknowledged once the next confirmation on the channel is an ack.
 */
module ConsumerRetry {
  import opened Collections

  const MAX_CONSUMER_RETRIES := 5
  const RETRY_DELAYS_MILLIS: seq<int> := [5_000, 30_000, 120_000, 600_000, 1_800_000]

  const RETRY_COUNT := "x-cityevents-retry-count"
  const RETRY_DELAY := "x-cityevents-retry-delay-ms"
  const LAST_ERROR := "x-cityevents-last-error"
  const ORIGINAL_ROUTING := "x-cityevents-original-routing-key"
  const DEAD_LETTER_REASON := "x-cityevents-dead-letter-reason"

  /** A header: a number, a text together with the number it reads as if any, or something else. */
  datatype Value = Number(n: int) | Text(text: string, number: Option<int>) | Unknown

  type Headers = map<string, Value>

  datatype Delivery = Delivery(routingKey: string, body: string, headers: Headers)

  /** Where a failed delivery goes: retry queue 1 to 5, or the dead-letter queue. */
  datatype Target = RetryQueue(n: int) | DeadLetters

  datatype Publication = Publication(target: Target, headers: Headers, body: string)

  function NonNegative(n: int): nat { if n < 0 then 0 else n }

  function RetryCount(headers: Headers): nat {
    if RETRY_COUNT !in headers then 0
    else match headers[RETRY_COUNT]
      case Number(n) => NonNegative(n)
      case Text(_, Some(n)) => NonNegative(n)
      case _ => 0
  }

  function RoutingKeyOf(d: Delivery): string {
    if ORIGINAL_ROUTING in d.headers && d.headers[ORIGINAL_ROUTING].Text?
        && Trim(d.headers[ORIGINAL_ROUTING].text) != ""
    then Trim(d.headers[ORIGINAL_ROUTING].text)
    else d.routingKey
  }

  function FailureHeaders(headers: Headers, retryCount: int, delayMillis: int, cause: string): Headers {
    var out := headers[RETRY_COUNT := Number(retryCount)][RETRY_DELAY := Number(delayMillis)];
    var withRouting := if ORIGINAL_ROUTING in out then out else out[ORIGINAL_ROUTING := Text("", None)];
    withRouting[LAST_ERROR := Text(cause, None)]
  }

  /** The headers as published: an empty original routing key is filled in. */
  function PublishedHeaders(d: Delivery, headers: Headers): Headers {
    if ORIGINAL_ROUTING in headers && headers[ORIGINAL_ROUTING].Text? && headers[ORIGINAL_ROUTING].text == ""
    then headers[ORIGINAL_ROUTING := Text(d.routingKey, None)]
    else headers
  }

  /** What a failed delivery is republished as, and where to; every retry finds its delay in the table. */
  function Republished(d: Delivery, cause: string): (Target, Headers) {
    var retryCount := RetryCount(d.headers);
    if retryCount >= MAX_CONSUMER_RETRIES then
      (DeadLetters,
       PublishedHeaders(d, FailureHeaders(d.headers, retryCount, 0, cause)
                             [DEAD_LETTER_REASON := Text("max_retries_exhausted", None)]))
    else
      var nextRetry := retryCount + 1;
      var delay := RETRY_DELAYS_MILLIS[nextRetry - 1];
      (RetryQueue(nextRetry), PublishedHeaders(d, FailureHeaders(d.headers, nextRetry, delay, cause)))
  }

  function PublicationOf(d: Delivery, cause: string): Publication {
    Publication(Republished(d, cause).0, Republished(d, cause).1, d.body)
  }

  /** A retry queue hands the message back to the consumer's own queue, under that queue's name. */
  function Returned(queue: string, d: Delivery, cause: string): Delivery {
    Delivery(queue, d.body, Republished(d, cause).1)
  }

  // ---------------------------------------------------------------- the channel and its confirmations

  /**
   * A channel in confirm mode: what was published on it, the broker's answers (true for an ack) in the order of
   * the publications, and how many of them the consumer has read. Answer `i` belongs to publication `i`.
   */
  datatype Line = Line(published: seq<Publication>, answers: seq<bool>, read: nat) {
    predicate Ordered() { read <= |answers| <= |published| }

    /** Publications whose answer was never read. */
    function Unread(): int { |published| - read }

    function Put(p: Publication): Line { this.(published := published + [p]) }

    function Hear(acks: seq<bool>): Line { this.(answers := answers + acks) }

    /** The consumer takes the next answer, whichever publication it belongs to. */
    function Next(): Line { this.(read := read + 1) }
  }

  /** One publish and the wait for its confirmation: the broker answers `arriving` in the meantime. */
  datatype Wait = Wait(sent: bool, arriving: seq<bool>, patient: bool)

  predicate Fits(line: Line, wait: Wait) { |line.answers| + |wait.arriving| <= |line.published| + 1 }

  function Exchange(line: Line, p: Publication, wait: Wait): (Line, bool) {
    if !wait.sent then (line, false) else
    var heard := line.Put(p).Hear(wait.arriving);
    if !wait.patient || heard.read >= |heard.answers| then (heard, false)
    else (heard.Next(), heard.answers[heard.read])
  }

  /** If every earlier answer was read, success means that the broker took this very publication. */
  lemma SuccessIsOwnAck(line: Line, p: Publication, wait: Wait)
    requires line.Ordered() && line.Unread() == 0 && Fits(line, wait) && Exchange(line, p, wait).1
    ensures var after := Exchange(line, p, wait).0;
            after.published[|line.published|] == p && after.answers[|line.published|] && after.Unread() == 0
  {
  }

  class Channel {
    var published: seq<Publication>
    var answers: seq<bool>
    var read: nat

    function State(): Line
      reads this
    {
      Line(published, answers, read)
    }

    constructor ()
      ensures State() == Line([], [], 0)
    {
      published, answers, read := [], [], 0;
    }

    /** Copies the headers one by one and adds its own. */
    static method BuildFailureHeaders(headers: Headers, retryCount: int, delayMillis: int, cause: string)
      returns (out: Headers)
      ensures out == FailureHeaders(headers, retryCount, delayMillis, cause)
    {
      out := map[];
      var rest := headers.Keys;
      while rest != {}
        invariant rest <= headers.Keys
        invariant out == map key | key in headers && key !in rest :: headers[key]
        decreases |rest|
      {
        var key :| key in rest;
        rest := rest - {key};
        out := out[key := headers[key]];
      }
      assert out == headers;
      out := out[RETRY_COUNT := Number(retryCount)];
      out := out[RETRY_DELAY := Number(delayMillis)];
      if ORIGINAL_ROUTING !in out {
        out := out[ORIGINAL_ROUTING := Text("", None)];
      }
      out := out[LAST_ERROR := Text(cause, None)];
    }

    /** Reads whatever answer comes next on the channel; a timeout leaves the answer to whoever reads next. */
    method PublishWithConfirm(target: Target, d: Delivery, headers: Headers, wait: Wait) returns (ok: bool)
      requires State().Ordered() && Fits(State(), wait)
      modifies this
      ensures (State(), ok) == Exchange(old(State()), Publication(target, PublishedHeaders(d, headers), d.body), wait)
      ensures State().Ordered()
    {
      var out := headers;
      if ORIGINAL_ROUTING in out && out[ORIGINAL_ROUTING].Text? && out[ORIGINAL_ROUTING].text == "" {
        out := out[ORIGINAL_ROUTING := Text(d.routingKey, None)];
      }
      if !wait.sent {
        return false;
      }
      published := published + [Publication(target, out, d.body)];
      answers := answers + wait.arriving;
      if !wait.patient || read >= |answers| {
        return false;
      }
      ok := answers[read];
      read := read + 1;
    }

    method PublishFailedDelivery(d: Delivery, cause: string, wait: Wait) returns (action: Option<Target>)
      requires State().Ordered() && Fits(State(), wait)
      modifies this
      ensures var (after, ok) := Exchange(old(State()), PublicationOf(d, cause), wait);
              State() == after && action == if ok then Some(Republished(d, cause).0) else None
      ensures action.Some? && old(State()).Unread() == 0 ==>
                published[|old(published)|] == PublicationOf(d, cause) && answers[|old(published)|]
    {
      ghost var before := State();
      var retryCount := RetryCount(d.headers);
      var headers, ok;
      if retryCount >= MAX_CONSUMER_RETRIES {
        headers := BuildFailureHeaders(d.headers, retryCount, 0, cause);
        headers := headers[DEAD_LETTER_REASON := Text("max_retries_exhausted", None)];
        ok := PublishWithConfirm(DeadLetters, d, headers, wait);
        action := if ok then Some(DeadLetters) else None;
      } else {
        var nextRetry := retryCount + 1;
        var delay := RETRY_DELAYS_MILLIS[nextRetry - 1];
        headers := BuildFailureHeaders(d.headers, nextRetry, delay, cause);
        ok := PublishWithConfirm(RetryQueue(nextRetry), d, headers, wait);
        action := if ok then Some(RetryQueue(nextRetry)) else None;
      }
      if ok && before.Unread() == 0 {
        SuccessIsOwnAck(before, PublicationOf(d, cause), wait);
      }
    }
  }

  // ---------------------------------------------------------------- a delivery that always fails

  datatype Hop = Hop(delivery: Delivery, target: Target)

  lemma HeaderNamesDiffer()
    ensures RETRY_COUNT != RETRY_DELAY && RETRY_COUNT != LAST_ERROR && RETRY_COUNT != ORIGINAL_ROUTING
    ensures ORIGINAL_ROUTING != RETRY_DELAY && ORIGINAL_ROUTING != LAST_ERROR && ORIGINAL_ROUTING != DEAD_LETTER_REASON
  {
    assert |RETRY_COUNT| == 24 && |RETRY_DELAY| == 27 && |LAST_ERROR| == 23 && |ORIGINAL_ROUTING| == 33
           && |DEAD_LETTER_REASON| == 31;
  }

  lemma RetryCountGrows(queue: string, d: Delivery, cause: string)
    requires RetryCount(d.headers) < MAX_CONSUMER_RETRIES
    ensures RetryCount(Returned(queue, d, cause).headers) == RetryCount(d.headers) + 1
  {
    HeaderNamesDiffer();
  }

  /** Every handling of a message whose handler always fails, up to its dead letter. */
  function Journey(queue: string, d: Delivery, cause: string): (hops: seq<Hop>)
    ensures hops != [] && hops[0].delivery == d
    decreases MAX_CONSUMER_RETRIES - RetryCount(d.headers)
  {
    var target := Republished(d, cause).0;
    if target.DeadLetters? then [Hop(d, target)]
    else
      RetryCountGrows(queue, d, cause);
      [Hop(d, target)] + Journey(queue, Returned(queue, d, cause), cause)
  }

  /**
   * It is handled once per retry left and once more: a fresh message six times, through retry queues
   * 1 to 5 in order and then the dead letters.
   */
  lemma {:induction false} JourneyLadder(queue: string, d: Delivery, cause: string)
    ensures var hops, start := Journey(queue, d, cause), RetryCount(d.headers);
            && |hops| == Max(MAX_CONSUMER_RETRIES - start, 0) + 1
            && (forall i | 0 <= i < |hops| - 1 :: hops[i].target == RetryQueue(start + i + 1))
            && hops[|hops| - 1].target == DeadLetters
    decreases MAX_CONSUMER_RETRIES - RetryCount(d.headers)
  {
    if RetryCount(d.headers) < MAX_CONSUMER_RETRIES {
      RetryCountGrows(queue, d, cause);
      JourneyLadder(queue, Returned(queue, d, cause), cause);
    }
  }

  /** No original routing key in the headers, or an empty one: the next publish fills it in. */
  predicate KeyIsFilledIn(d: Delivery) {
    ORIGINAL_ROUTING !in d.headers || (d.headers[ORIGINAL_ROUTING].Text? && d.headers[ORIGINAL_ROUTING].text == "")
  }

  /**
   * A retry keeps the reported routing key if the header holds a text that is not all white space; if the header is
   * filled in from a key without white space around it; or if the key is the queue's own name (and, when the header is
   * filled in, blank).
   */
  predicate KeyIsKept(queue: string, d: Delivery) {
    || (ORIGINAL_ROUTING in d.headers && d.headers[ORIGINAL_ROUTING].Text?
        && Trim(d.headers[ORIGINAL_ROUTING].text) != "")
    || (KeyIsFilledIn(d) && d.routingKey != "" && Trim(d.routingKey) == d.routingKey)
    || (d.routingKey == queue && (KeyIsFilledIn(d) ==> Trim(d.routingKey) == ""))
  }

  lemma OneReturnKeepsKeyIff(queue: string, d: Delivery, cause: string)
    ensures RoutingKeyOf(Returned(queue, d, cause)) == RoutingKeyOf(d) <==> KeyIsKept(queue, d)
    ensures ORIGINAL_ROUTING in Returned(queue, d, cause).headers
  {
    HeaderNamesDiffer();
    assert Trim("") == "";
  }

  /** A message that came back once reports the same key ever after. */
  lemma ReturnedKeepsItsKey(queue: string, d: Delivery, cause: string)
    requires d.routingKey == queue && ORIGINAL_ROUTING in d.headers
    requires d.headers[ORIGINAL_ROUTING].Text? ==> d.headers[ORIGINAL_ROUTING].text != ""
    ensures var back := Returned(queue, d, cause);
            && RoutingKeyOf(back) == RoutingKeyOf(d)
            && back.routingKey == queue && ORIGINAL_ROUTING in back.headers
            && (back.headers[ORIGINAL_ROUTING].Text? ==> back.headers[ORIGINAL_ROUTING].text != "")
  {
    HeaderNamesDiffer();
  }

  lemma {:induction false} LaterHopsKeepTheKey(queue: string, d: Delivery, cause: string)
    requires d.routingKey == queue && ORIGINAL_ROUTING in d.headers
    requires d.headers[ORIGINAL_ROUTING].Text? ==> d.headers[ORIGINAL_ROUTING].text != ""
    ensures forall hop | hop in Journey(queue, d, cause) :: RoutingKeyOf(hop.delivery) == RoutingKeyOf(d)
    decreases MAX_CONSUMER_RETRIES - RetryCount(d.headers)
  {
    if RetryCount(d.headers) < MAX_CONSUMER_RETRIES {
      RetryCountGrows(queue, d, cause);
      ReturnedKeepsItsKey(queue, d, cause);
      LaterHopsKeepTheKey(queue, Returned(queue, d, cause), cause);
    }
  }

  /** Every hop of a message reports the routing key it first came with, exactly if that key is kept once. */
  lemma EveryHopReportsTheFirstKeyIff(queue: string, d: Delivery, cause: string)
    requires RetryCount(d.headers) < MAX_CONSUMER_RETRIES && d.routingKey != ""
    ensures (forall hop | hop in Journey(queue, d, cause) :: RoutingKeyOf(hop.delivery) == RoutingKeyOf(d))
            <==> KeyIsKept(queue, d)
  {
    var back := Returned(queue, d, cause);
    RetryCountGrows(queue, d, cause);
    HeaderNamesDiffer();
    OneReturnKeepsKeyIff(queue, d, cause);
    LaterHopsKeepTheKey(queue, back, cause);
    var rest := Journey(queue, back, cause);
    assert Journey(queue, d, cause) == [Hop(d, Republished(d, cause).0)] + rest;
    assert rest[0] in Journey(queue, d, cause);
  }

  /** A message as the relay publishes it, without the header and under a key without white space around it. */
  lemma PlainDeliveryKeepsItsKey(queue: string, d: Delivery, cause: string)
    requires ORIGINAL_ROUTING !in d.headers && d.routingKey != "" && Trim(d.routingKey) == d.routingKey
    ensures forall hop | hop in Journey(queue, d, cause) :: RoutingKeyOf(hop.delivery) == d.routingKey
  {
    if RetryCount(d.headers) < MAX_CONSUMER_RETRIES {
      EveryHopReportsTheFirstKeyIff(queue, d, cause);
    }
  }

  /** A header of white space is neither filled in nor read: after one retry the queue's name is reported. */
  lemma BlankHeaderLosesTheKey(queue: string, key: string, body: string, cause: string)
    ensures var d := Delivery(key, body, map[ORIGINAL_ROUTING := Text(" ", None)]);
            RoutingKeyOf(d) == key && RoutingKeyOf(Returned(queue, d, cause)) == queue
  {
    HeaderNamesDiffer();
    assert TrimStart(" ") == TrimStart("");
  }

  // ---------------------------------------------------------------- the ladder in numbers

  /** What one failed handling writes into the headers: the count, the delay in milliseconds, and the error. */
  lemma FailureIsWritten(d: Delivery, cause: string)
    ensures var (target, headers) := Republished(d, cause);
            var n := RetryCount(d.headers);
            && RETRY_COUNT in headers && RETRY_DELAY in headers && LAST_ERROR in headers
            && headers[LAST_ERROR] == Text(cause, None)
            && (forall key | key in d.headers
                  && key !in {RETRY_COUNT, RETRY_DELAY, LAST_ERROR, ORIGINAL_ROUTING, DEAD_LETTER_REASON} ::
                  key in headers && headers[key] == d.headers[key])
            && (n < 5 ==>
                  && target == RetryQueue(n + 1) && headers[RETRY_COUNT] == Number(n + 1)
                  && headers[RETRY_DELAY] == Number(if n == 0 then 5_000 else if n == 1 then 30_000
                                                    else if n == 2 then 120_000 else if n == 3 then 600_000
                                                    else 1_800_000))
            && (n >= 5 ==>
                  && target == DeadLetters && headers[RETRY_COUNT] == Number(n) && headers[RETRY_DELAY] == Number(0)
                  && DEAD_LETTER_REASON in headers
                  && headers[DEAD_LETTER_REASON] == Text("max_retries_exhausted", None))
  {
    HeaderNamesDiffer();
  }

  lemma {:induction false} BodyIsCarried(queue: string, d: Delivery, cause: string)
    ensures forall hop | hop in Journey(queue, d, cause) :: hop.delivery.body == d.body
    decreases MAX_CONSUMER_RETRIES - RetryCount(d.headers)
  {
    if RetryCount(d.headers) < MAX_CONSUMER_RETRIES {
      RetryCountGrows(queue, d, cause);
      BodyIsCarried(queue, Returned(queue, d, cause), cause);
    }
  }

  /** A message that has not failed yet is handled six times: through retry queues 1 to 5, and then it is dead. */
  lemma FreshMessageIsHandledSixTimes(queue: string, d: Delivery, cause: string)
    requires RETRY_COUNT !in d.headers
    ensures var hops := Journey(queue, d, cause);
            && |hops| == 6 && hops[5].target == DeadLetters
            && (forall i | 0 <= i < 5 :: hops[i].target == RetryQueue(i + 1))
            && forall hop | hop in hops :: hop.delivery.body == d.body
  {
    JourneyLadder(queue, d, cause);
    BodyIsCarried(queue, d, cause);
  }

  /** The count a message brings: a number, or a text that reads as one, and none below zero; anything else is zero. */
  lemma RetryCountReads(headers: Headers)
    ensures RETRY_COUNT !in headers ==> RetryCount(headers) == 0
    ensures RETRY_COUNT in headers ==>
              var value, count := headers[RETRY_COUNT], RetryCount(headers);
              && (value.Number? ==> count == (if value.n < 0 then 0 else value.n))
              && (value.Text? && value.number.Some? ==>
                    count == (if value.number.value < 0 then 0 else value.number.value))
              && (value == Unknown || (value.Text? && value.number == None) ==> count == 0)
  {
  }
}
