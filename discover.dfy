/** The discover page: the public events shown for a selected category
    and a search query. */
module Discover {
  import opened Text

  /** A public event; its date and time stay as the text shown. */
  datatype PublicEvent = PublicEvent(
    id: nat, title: string, date: string, time: string, location: string,
    organizer: string, attendees: nat, category: string)

  /** The category rule: "all" admits every event. */
  predicate InCategory(e: PublicEvent, category: string)
  {
    category == "all" || e.category == category
  }

  /** The lowercased query occurs in the lowercased title, location or
      organizer. */
  predicate MatchesQuery(e: PublicEvent, query: string)
  {
    var q := Lower(query);
    Includes(Lower(e.title), q) || Includes(Lower(e.location), q) || Includes(Lower(e.organizer), q)
  }

  /** The filter callback: the category rule, then the query rule when
      the query is non-empty. */
  predicate Passes(e: PublicEvent, category: string, query: string)
  {
    InCategory(e, category) && (query == "" || MatchesQuery(e, query))
  }

  /** `filteredEvents`: the events that pass, in their order. */
  function FilteredEvents(events: seq<PublicEvent>, category: string, query: string): (r: seq<PublicEvent>)
    ensures IsSubsequence(r, events)
    ensures forall e :: e in r <==> e in events && Passes(e, category, query)
    ensures forall e :: multiset(r)[e] == if Passes(e, category, query) then multiset(events)[e] else 0
    decreases |events|
  {
    if events == [] then []
    else
      var rest := FilteredEvents(events[1..], category, query);
      assert forall e :: e in events <==> e == events[0] || e in events[1..];
      assert events == [events[0]] + events[1..];
      if Passes(events[0], category, query) then [events[0]] + rest else rest
  }

  /** Category "all" with an empty query keeps every event. */
  lemma {:induction false} AllWithoutQuery(events: seq<PublicEvent>)
    ensures FilteredEvents(events, "all", "") == events
    decreases |events|
  {
    if events != [] {
      AllWithoutQuery(events[1..]);
    }
  }

  /** The query rule alone: with a non-empty query, an event passes the
      query rule exactly when the query, case folded, occurs in one of the
      three searched fields; the category and other fields are not
      searched. */
  lemma QueryRule(e: PublicEvent, category: string, query: string)
    requires query != ""
    ensures Passes(e, category, query) <==>
      InCategory(e, category)
      && (Includes(Lower(e.title), Lower(query))
          || Includes(Lower(e.location), Lower(query))
          || Includes(Lower(e.organizer), Lower(query)))
  {
  }

  /** Queries that differ only in letter case select the same events. */
  lemma {:induction false} CaseInsensitive(events: seq<PublicEvent>, category: string, q1: string, q2: string)
    requires Lower(q1) == Lower(q2)
    ensures FilteredEvents(events, category, q1) == FilteredEvents(events, category, q2)
    decreases |events|
  {
    assert |q1| == |Lower(q1)| == |Lower(q2)| == |q2|;
    if events != [] {
      CaseInsensitive(events[1..], category, q1, q2);
      assert Passes(events[0], category, q1) == Passes(events[0], category, q2);
    }
  }

  /** Filtering the result again with the same selection changes nothing. */
  lemma {:induction false} FilterIdempotent(events: seq<PublicEvent>, category: string, query: string)
    ensures var r := FilteredEvents(events, category, query);
      FilteredEvents(r, category, query) == r
    decreases |events|
  {
    if events != [] {
      FilterIdempotent(events[1..], category, query);
      var rest := FilteredEvents(events[1..], category, query);
      if Passes(events[0], category, query) {
        assert ([events[0]] + rest)[1..] == rest;
      }
    }
  }
}
