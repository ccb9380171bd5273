/** The in-memory feed listing: filter, sort, cut out a page. */
module FeedListing {
  import opened Collections
  import opened Messages

  const DEFAULT_LIMIT := 20
  const MAX_LIMIT := 100

  datatype FeedEvent = FeedEvent(eventId: Id, city: string, startsAt: Option<Time>, status: Status, confirmedCount: int)

  datatype Query = Query(city: string, limit: int, offset: int)

  function NormalizeQuery(query: Query): Query {
    Query(Trim(query.city),
          if query.limit <= 0 then DEFAULT_LIMIT else if query.limit > MAX_LIMIT then MAX_LIMIT else query.limit,
          if query.offset < 0 then 0 else query.offset)
  }

  /** Starts first, events without a start last, ids among equals. */
  predicate Less(a: FeedEvent, b: FeedEvent) {
    match (a.startsAt, b.startsAt)
    case (None, Some(_)) => false
    case (Some(_), None) => true
    case (Some(s), Some(t)) => if s != t then s < t else TextLess(a.eventId, b.eventId)
    case (None, None) => TextLess(a.eventId, b.eventId)
  }

  /** On distinct ids the comparator is a strict total order. */
  lemma LessIsStrictTotalOrder(a: FeedEvent, b: FeedEvent, c: FeedEvent)
    ensures !(Less(a, b) && Less(b, a)) && !Less(a, a)
    ensures a.eventId != b.eventId ==> Less(a, b) || Less(b, a)
    ensures Less(a, b) && Less(b, c) ==> Less(a, c)
  {
    TextLessIsTotal(a.eventId, b.eventId);
    TextLessIsTotal(a.eventId, a.eventId);
    if TextLess(a.eventId, b.eventId) && TextLess(b.eventId, c.eventId) {
      TextLessIsTransitive(a.eventId, b.eventId, c.eventId);
    }
  }

  predicate Matches(event: FeedEvent, city: string) {
    event.status == Published && (city == "" || event.city == city)
  }

  predicate Sorted(events: seq<FeedEvent>) {
    forall i, j | 0 <= i < j < |events| :: Less(events[i], events[j])
  }

  predicate Keyed(events: map<Id, FeedEvent>) { forall id | id in events :: events[id].eventId == id }

  /** `list` holds every matching event, each once, in order. */
  ghost predicate IsListing(events: map<Id, FeedEvent>, city: string, list: seq<FeedEvent>) {
    && Sorted(list)
    && forall event :: event in list <==>
         event.eventId in events && events[event.eventId] == event && Matches(event, city)
  }

  lemma HeadsAgree(a: seq<FeedEvent>, b: seq<FeedEvent>)
    requires Sorted(a) && Sorted(b) && a != [] && b != [] && a[0] in b && b[0] in a
    ensures a[0] == b[0]
  {
    var i :| 0 <= i < |b| && b[i] == a[0];
    var j :| 0 <= j < |a| && a[j] == b[0];
    LessIsStrictTotalOrder(a[0], b[0], a[0]);
  }

  lemma SortedOnce(list: seq<FeedEvent>, event: FeedEvent)
    requires Sorted(list) && list != []
    ensures event in list[1..] <==> event in list && event != list[0]
  {
    LessIsStrictTotalOrder(list[0], list[0], list[0]);
  }

  /** There is only one such list, whatever order the map was walked in. */
  lemma {:induction false} ListingIsUnique(a: seq<FeedEvent>, b: seq<FeedEvent>)
    requires Sorted(a) && Sorted(b) && forall event :: event in a <==> event in b
    ensures a == b
    decreases |a|
  {
    if b != [] { assert b[0] in b; }
    if a != [] {
      assert a[0] in b && b[0] in a by { assert a[0] in a && b[0] in b; }
      HeadsAgree(a, b);
      forall event ensures event in a[1..] <==> event in b[1..] {
        SortedOnce(a, event);
        SortedOnce(b, event);
      }
      ListingIsUnique(a[1..], b[1..]);
    }
  }

  lemma RestIsLater(list: seq<FeedEvent>, event: FeedEvent, i: nat)
    requires Sorted(list) && i <= |list| && (i < |list| ==> !Less(list[i], event))
    requires forall x | x in list :: x.eventId != event.eventId
    ensures forall j | i <= j < |list| :: Less(event, list[j])
  {
    forall j | i <= j < |list| ensures Less(event, list[j]) {
      assert list[i] in list;
      LessIsStrictTotalOrder(list[i], event, list[j]);
      LessIsStrictTotalOrder(event, list[i], list[j]);
    }
  }

  /** The page of a sorted list a query asks for. */
  function PageOf(list: seq<FeedEvent>, query: Query): seq<FeedEvent>
    requires query.limit >= 0 && query.offset >= 0
  {
    if query.offset >= |list| then [] else list[query.offset..Min(query.offset + query.limit, |list|)]
  }

  class MemoryRepository {
    var events: map<Id, FeedEvent>

    constructor (initial: seq<FeedEvent>)
      ensures Keyed(events)
    {
      var stored := map[];
      for i := 0 to |initial|
        invariant Keyed(stored)
      {
        stored := stored[initial[i].eventId := initial[i]];
      }
      events := stored;
    }

    method ListEvents(raw: Query) returns (page: seq<FeedEvent>)
      requires Keyed(events)
      ensures exists list :: IsListing(events, Trim(raw.city), list) && page == PageOf(list, NormalizeQuery(raw))
    {
      var query := NormalizeQuery(raw);
      var list: seq<FeedEvent> := [];
      var rest := events.Keys;
      while rest != {}
        invariant rest <= events.Keys
        invariant Sorted(list)
        invariant forall event :: event in list <==>
                    event.eventId in events && event.eventId !in rest && events[event.eventId] == event
                    && Matches(event, query.city)
        decreases |rest|
      {
        var id :| id in rest;
        rest := rest - {id};
        var event := events[id];
        if event.status != Published {
          continue;
        }
        if query.city != "" && event.city != query.city {
          continue;
        }
        list := SortIn(list, event);
      }
      assert IsListing(events, Trim(raw.city), list);
      if query.offset >= |list| {
        return [];
      }
      var end := query.offset + query.limit;
      if end > |list| {
        end := |list|;
      }
      return list[query.offset..end];
    }

    /** Keeps the collected events sorted as they come; the order of arrival does not show. */
    static method SortIn(list: seq<FeedEvent>, event: FeedEvent) returns (sorted: seq<FeedEvent>)
      requires Sorted(list) && forall x | x in list :: x.eventId != event.eventId
      ensures Sorted(sorted)
      ensures forall x :: x in sorted <==> x in list || x == event
    {
      var i := 0;
      while i < |list| && Less(list[i], event)
        invariant 0 <= i <= |list|
        invariant forall j | 0 <= j < i :: Less(list[j], event)
      {
        i := i + 1;
      }
      sorted := list[..i] + [event] + list[i..];
      RestIsLater(list, event, i);
      assert list == list[..i] + list[i..];
    }
  }

  /** The answer to a query does not depend on the order in which the map is walked. */
  lemma ListEventsIsDetermined(events: map<Id, FeedEvent>, city: string, a: seq<FeedEvent>, b: seq<FeedEvent>)
    requires IsListing(events, city, a) && IsListing(events, city, b)
    ensures a == b
  {
    ListingIsUnique(a, b);
  }

  // ---------------------------------------------------------------- paging through

  /** The first `n` pages of size `limit`, one after the other. */
  function Pages(list: seq<FeedEvent>, city: string, limit: int, n: nat): seq<FeedEvent>
    requires 1 <= limit <= MAX_LIMIT
  {
    if n == 0 then []
    else Pages(list, city, limit, n - 1) + PageOf(list, NormalizeQuery(Query(city, limit, (n - 1) * limit)))
  }

  lemma PageExtendsPrefix(list: seq<FeedEvent>, city: string, limit: int, offset: nat)
    requires 1 <= limit <= MAX_LIMIT
    ensures list[..Min(offset, |list|)] + PageOf(list, NormalizeQuery(Query(city, limit, offset)))
         == list[..Min(offset + limit, |list|)]
  {
    if offset < |list| {
      var end := Min(offset + limit, |list|);
      assert list[..offset] + list[offset..end] == list[..end];
    }
  }

  /** Pages at offsets 0, L, 2L, ... put together are the listing from the start, without gap or repetition. */
  lemma {:induction false} PagesAreThePrefix(list: seq<FeedEvent>, city: string, limit: int, n: nat)
    requires 1 <= limit <= MAX_LIMIT
    ensures n * limit >= 0
    ensures Pages(list, city, limit, n) == list[..Min(n * limit, |list|)]
  {
    if n > 0 {
      PagesAreThePrefix(list, city, limit, n - 1);
      assert n * limit == (n - 1) * limit + limit;
      PageExtendsPrefix(list, city, limit, (n - 1) * limit);
    }
  }

  /** Enough pages yield every matching published event exactly once and in order. */
  lemma PagingIsComplete(events: map<Id, FeedEvent>, city: string, list: seq<FeedEvent>, limit: int, n: nat)
    requires IsListing(events, Trim(city), list) && 1 <= limit <= MAX_LIMIT && n * limit >= |list|
    ensures IsListing(events, Trim(city), Pages(list, city, limit, n))
  {
    PagesAreThePrefix(list, city, limit, n);
    assert list[..|list|] == list;
  }

  // ---------------------------------------------------------------- what a listing and a page hold

  /** Exactly the published events of the city asked for, or of any city when none is. */
  lemma ListingHolds(events: map<Id, FeedEvent>, city: string, list: seq<FeedEvent>, event: FeedEvent)
    requires IsListing(events, city, list)
    ensures event in list
       <==> event.eventId in events && events[event.eventId] == event && event.status == Published
            && (city == "" || event.city == city)
  {
  }

  /** Earlier starts stand before later ones, events without a start last, and equal ones by id. */
  lemma ListingIsChronological(events: map<Id, FeedEvent>, city: string, list: seq<FeedEvent>, i: nat, j: nat)
    requires IsListing(events, city, list) && i < j < |list|
    ensures list[j].startsAt.Some? ==> list[i].startsAt.Some? && list[i].startsAt.value <= list[j].startsAt.value
    ensures list[i].startsAt == list[j].startsAt ==> TextLess(list[i].eventId, list[j].eventId)
  {
    assert Less(list[i], list[j]);
  }

  /** Twenty events unless a number is asked for, a hundred at most, from the offset on. */
  lemma PageHolds(list: seq<FeedEvent>, raw: Query)
    ensures var size := if raw.limit <= 0 then 20 else if raw.limit > 100 then 100 else raw.limit;
            var start := if raw.offset < 0 then 0 else raw.offset;
            var page := PageOf(list, NormalizeQuery(raw));
            && |page| == (if start >= |list| then 0 else if |list| - start < size then |list| - start else size)
            && forall k | 0 <= k < |page| :: start + k < |list| && page[k] == list[start + k]
  {
  }
}
