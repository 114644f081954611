/** The event list screen: the search filter over title, venue and city, and
    the list state the table reads (row count, cell source, delete-at-row). */
module EventTable {
  import opened Wrappers
  import opened EventModel
  import opened EventQueries

  /** ASCII lower-casing of one character. */
  function LowerChar(c: char): char
  {
    if 'A' <= c <= 'Z' then (c as int + 32) as char else c
  }

  function Lower(s: string): (r: string)
    ensures |r| == |s|
    ensures forall i :: 0 <= i < |s| ==> r[i] == LowerChar(s[i])
  {
    seq(|s|, i requires 0 <= i < |s| => LowerChar(s[i]))
  }

  lemma LowerIdempotent(s: string)
    ensures Lower(Lower(s)) == Lower(s)
  {
  }

  /** `term` occurs in `text`, searched from the front. */
  predicate Occurs(term: string, text: string)
    decreases |text|
  {
    |term| <= |text| && (text[..|term|] == term || Occurs(term, text[1..]))
  }

  /** `term` is the slice of `text` that starts at `i`. */
  predicate SliceAt(term: string, text: string, i: nat)
  {
    i + |term| <= |text| && text[i..i + |term|] == term
  }

  /** The search finds the term exactly when some slice of the text equals it. */
  lemma {:induction false} OccursAt(term: string, text: string)
    ensures Occurs(term, text) <==> exists i: nat :: SliceAt(term, text, i)
    decreases |text|
  {
    if |term| <= |text| {
      if text[..|term|] == term {
        assert SliceAt(term, text, 0);
      } else {
        OccursAt(term, text[1..]);
        if Occurs(term, text[1..]) {
          var i: nat :| SliceAt(term, text[1..], i);
          assert text[1..][i..i + |term|] == text[i + 1..i + 1 + |term|];
          assert SliceAt(term, text, i + 1);
        }
        if exists i: nat :: SliceAt(term, text, i) {
          var i: nat :| SliceAt(term, text, i);
          assert i != 0;
          assert text[1..][i - 1..i - 1 + |term|] == text[i..i + |term|];
          assert SliceAt(term, text[1..], i - 1);
        }
      }
    }
  }

  /** `contains[c]`: a non-empty term occurs in the text, ignoring case. An empty
      term matches nothing. */
  predicate ContainsIgnoringCase(text: string, term: string)
  {
    |term| > 0 && Occurs(Lower(term), Lower(text))
  }

  /** One predicate of the compound search: a string attribute containing the term. */
  predicate FieldContains(v: Option<Value>, term: string)
  {
    match v
    case Some(Text(s)) => ContainsIgnoringCase(s, term)
    case _ => false
  }

  /** The OR of the three predicates: title, venue or city contains the term. */
  predicate Matches(e: Event, term: string)
  {
    FieldContains(e.title, term) || FieldContains(e.venue, term) || FieldContains(e.city, term)
  }

  /** Only title, venue and city are searched: changing any other attribute
      never changes whether an event matches. */
  lemma {:induction false} OtherAttributesNotSearched(e: Event, a: Attribute, v: Value, term: string)
    requires a != Title && a != Venue && a != City
    ensures Matches(Set(e, a, v), term) <==> Matches(e, term)
  {
    var e' := Set(e, a, v);
    assert Get(e', Title) == Get(e, Title) && Get(e', Venue) == Get(e, Venue) && Get(e', City) == Get(e, City);
  }

  /** Lower-casing the term first, as the search does, changes nothing. */
  lemma LowercasedTermSameMatches(e: Event, term: string)
    ensures Matches(e, Lower(term)) <==> Matches(e, term)
  {
    LowerIdempotent(term);
  }

  /** A term is found in a venue written in another case. */
  lemma VenueMatchIgnoresCase()
    ensures Matches(EmptyEvent.(venue := Some(Text("The Milkyway"))), "milkyway")
  {
    var text := Lower("The Milkyway");
    assert text[4..12] == "milkyway";
    assert SliceAt("milkyway", text, 4);
    assert Lower("milkyway") == "milkyway";
    OccursAt("milkyway", text);
  }

  /** The search results: in order, the events of `events` matching the
      lower-cased term, each as often as it occurs. */
  function SearchResults(events: seq<Event>, searchTerm: string): (r: seq<Event>)
    ensures forall e :: e in r ==> e in events && Matches(e, searchTerm)
    ensures forall e :: multiset(r)[e] == if Matches(e, searchTerm) then multiset(events)[e] else 0
    ensures IsSubsequence(r, events)
  {
    var term := Lower(searchTerm);
    var p := (e: Event) => Matches(e, term);
    var r := Filter(events, p);
    LowerIdempotent(searchTerm);
    assert forall e :: p(e) <==> Matches(e, searchTerm) by {
      forall e ensures p(e) <==> Matches(e, searchTerm) {
        LowercasedTermSameMatches(e, searchTerm);
      }
    }
    assert forall e :: multiset(r)[e] == if Matches(e, searchTerm) then multiset(events)[e] else 0 by {
      forall e ensures multiset(r)[e] == if Matches(e, searchTerm) then multiset(events)[e] else 0 {
        FilterCount(events, p, e);
      }
    }
    FilterIsSubsequence(events, p);
    r
  }

  /** The screen title for a list of `n` events. */
  function TitleFor(n: nat): string
  {
    "Upcoming events (" + Decimal(n) + ")"
  }

  /** Distinct counts give distinct titles. */
  lemma TitleShowsCount(m: nat, n: nat)
    ensures TitleFor(m) == TitleFor(n) <==> m == n
  {
    if TitleFor(m) == TitleFor(n) {
      var dm, dn := Decimal(m), Decimal(n);
      assert |dm| == |dn|;
      assert dm == TitleFor(m)[17..17 + |dm|];
      assert dn == TitleFor(n)[17..17 + |dn|];
      DecimalRoundTrip(m);
      DecimalRoundTrip(n);
    }
  }

  class EventTableViewController {
    var eventList: seq<Event>
    var filteredEventList: seq<Event>
    /** Whether the search controller is active. */
    var searchActive: bool
    var title: string

    /** The screen as it appears: the events in the date range are loaded and
        counted in the title; no search is active. */
    constructor(eventsInDateRange: seq<Event>)
      ensures eventList == eventsInDateRange && filteredEventList == []
      ensures !searchActive && title == TitleFor(|eventsInDateRange|)
    {
      eventList := eventsInDateRange;
      filteredEventList := [];
      searchActive := false;
      title := TitleFor(|eventsInDateRange|);
    }

    /** The user opens or dismisses the search bar. */
    method SetSearchActive(active: bool)
      modifies this
      ensures searchActive == active
      ensures eventList == old(eventList) && filteredEventList == old(filteredEventList) && title == old(title)
    {
      searchActive := active;
    }

    /** filterEventListContent: discards the previous results and keeps the
        matching events of the unchanged event list. */
    method FilterEventListContent(searchTerm: string)
      modifies this
      ensures filteredEventList == SearchResults(eventList, searchTerm)
      ensures eventList == old(eventList) && searchActive == old(searchActive) && title == old(title)
    {
      filteredEventList := [];
      var term := Lower(searchTerm);
      filteredEventList := Filter(eventList, (e: Event) => Matches(e, term));
    }

    /** refreshTableData: reloads the events in the date range and recounts the title. */
    method RefreshTableData(eventsInDateRange: seq<Event>)
      modifies this
      ensures eventList == eventsInDateRange && title == TitleFor(|eventList|)
      ensures filteredEventList == old(filteredEventList) && searchActive == old(searchActive)
    {
      eventList := [];
      eventList := eventsInDateRange;
      title := TitleFor(|eventList|);
    }

    /** The list the table shows: the results while searching, else every event. */
    function Shown(): (r: seq<Event>)
      reads this
      ensures searchActive ==> r == filteredEventList
      ensures !searchActive ==> r == eventList
    {
      if searchActive then filteredEventList else eventList
    }

    /** numberOfRowsInSection. */
    function NumberOfRows(): (r: nat)
      reads this
      ensures r == |Shown()|
    {
      if searchActive then |filteredEventList| else |eventList|
    }

    /** The event behind the cell at `row`. */
    function CellEvent(row: nat): (r: Event)
      reads this
      requires row < NumberOfRows()
      ensures r == Shown()[row]
    {
      if searchActive then filteredEventList[row] else eventList[row]
    }

    /** commit editingStyle .delete: removes element `row` of the event list,
        whichever list the table shows, then deletes the row from the table and
        recounts the title. A row past the end of the event list traps when
        `eventList[row]` is read. Deleting a table row raises an exception
        unless the row count afterwards is the count before minus one; while
        searching the count is that of the untouched results, so the delete
        raises after the event list has changed. */
    method DeleteRow(row: nat) returns (outcome: Completion<()>)
      modifies this
      ensures outcome.Crashed? <==> row >= |old(eventList)| || old(searchActive)
      ensures row >= |old(eventList)| ==> eventList == old(eventList)
      ensures row < |old(eventList)| ==> eventList == RemovedAt(old(eventList), row)
      ensures title == if outcome.Finished? then TitleFor(|eventList|) else old(title)
      ensures filteredEventList == old(filteredEventList) && searchActive == old(searchActive)
    {
      if row >= |eventList| {
        return Crashed;
      }
      var rowsBefore: int := NumberOfRows();
      eventList := RemovedAt(eventList, row);
      if NumberOfRows() != rowsBefore - 1 {
        return Crashed;
      }
      title := TitleFor(|eventList|);
      outcome := Finished(());
    }

    /** Delete as evidently intended: removes the event shown in `row`, from the
        event list and from the results when searching. While searching, the
        shown event's first occurrence in the event list is the one removed. */
    method DeleteShownRow(row: nat)
      requires row < NumberOfRows()
      modifies this
      ensures !old(searchActive) ==> eventList == RemovedAt(old(eventList), row)
      ensures old(searchActive) ==> eventList == RemovedFirst(old(eventList), old(CellEvent(row)))
      ensures multiset(eventList) == multiset(old(eventList)) - multiset{old(CellEvent(row))}
      ensures filteredEventList == if old(searchActive) then RemovedAt(old(filteredEventList), row) else old(filteredEventList)
      ensures title == TitleFor(|eventList|) && searchActive == old(searchActive)
      ensures NumberOfRows() == old(NumberOfRows()) - 1
    {
      var shown := CellEvent(row);
      if searchActive {
        eventList := RemovedFirst(eventList, shown);
        filteredEventList := RemovedAt(filteredEventList, row);
      } else {
        RemovedAtCount(eventList, row);
        eventList := RemovedAt(eventList, row);
      }
      title := TitleFor(|eventList|);
    }
  }

  /** `events` without the first occurrence of `e`; unchanged when `e` is absent. */
  function RemovedFirst(events: seq<Event>, e: Event): (r: seq<Event>)
    ensures e in events ==> |r| == |events| - 1
    ensures e !in events ==> r == events
    ensures multiset(r) == multiset(events) - multiset{e}
  {
    var at := FirstIndex(events, e);
    if at < |events| then RemovedAtCount(events, at); RemovedAt(events, at) else events
  }

  /** While searching, a shown row holds an event of the list that matches the term. */
  method SearchedCellMatches(events: seq<Event>, searchTerm: string, row: nat) returns (cell: Event)
    requires row < |SearchResults(events, searchTerm)|
    ensures cell in events && Matches(cell, searchTerm)
  {
    var screen := new EventTableViewController(events);
    screen.SetSearchActive(true);
    screen.FilterEventListContent(searchTerm);
    cell := screen.CellEvent(row);
    assert cell in screen.filteredEventList;
  }

  /** Deleting row 0 while searching removes the first listed event, which is
      not the one shown: the shown event stays and the other is gone, and then
      the table's row-count check fails. */
  method DeleteWhileSearchingRemovesOther() returns (shown: Event, other: Event, remaining: seq<Event>, outcome: Completion<()>)
    ensures shown != other
    ensures remaining == [shown] && other !in remaining
    ensures outcome.Crashed?
  {
    other := EmptyEvent.(title := Some(Text("Concert")));
    var found := EmptyEvent.(title := Some(Text("Festival")));
    var screen := new EventTableViewController([other, found]);
    screen.SetSearchActive(true);
    screen.FilterEventListContent("Festival");
    assert Lower("Festival") == "festival";
    assert Lower("Festival") == Lower(Lower("Festival"))[..8];
    assert !Matches(other, "festival") && Matches(found, "festival");
    assert [other, found][..1] == [other];
    assert Filter([other], (e: Event) => Matches(e, "festival")) == [];
    assert screen.filteredEventList == [found];
    shown := screen.CellEvent(0);
    outcome := screen.DeleteRow(0);
    remaining := screen.eventList;
    assert remaining == [found];
  }
}
