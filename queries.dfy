/** The read queries a fetch request answers (filter by a predicate, sort by
    date) and the per-event anonymisation, as functions on lists of events. */
module EventQueries {
  import opened Wrappers
  import opened EventModel

  /** The order-preserving sub-list of `s` whose elements satisfy `p`. */
  function Filter(s: seq<Event>, p: Event -> bool): (r: seq<Event>)
    ensures |r| <= |s|
    ensures forall x :: x in r ==> x in s && p(x)
    decreases |s|
  {
    if s == [] then []
    else
      var rest := Filter(s[..|s| - 1], p);
      var last := s[|s| - 1];
      assert s == s[..|s| - 1] + [last];
      if p(last) then rest + [last] else rest
  }

  /** Each element is kept as often as it occurs when it satisfies `p`, and never otherwise. */
  lemma {:induction false} FilterCount(s: seq<Event>, p: Event -> bool, x: Event)
    ensures multiset(Filter(s, p))[x] == if p(x) then multiset(s)[x] else 0
    decreases |s|
  {
    if s != [] {
      var init, last := s[..|s| - 1], s[|s| - 1];
      FilterCount(init, p, x);
      assert s == init + [last];
    }
  }

  /** Filtering distributes over concatenation, so kept elements stay in the
      relative order they had. */
  lemma {:induction false} FilterAppend(s: seq<Event>, t: seq<Event>, p: Event -> bool)
    ensures Filter(s + t, p) == Filter(s, p) + Filter(t, p)
    decreases |t|
  {
    if t == [] {
      assert s + t == s;
    } else {
      var t', last := t[..|t| - 1], t[|t| - 1];
      FilterAppend(s, t', p);
      assert (s + t)[..|s + t| - 1] == s + t';
      assert (s + t)[|s + t| - 1] == last;
      if p(last) {
        calc {
          Filter(s + t, p);
          Filter(s + t', p) + [last];
          Filter(s, p) + Filter(t', p) + [last];
          Filter(s, p) + (Filter(t', p) + [last]);
        }
      }
    }
  }

  /** `r` can be obtained from `s` by deleting elements. */
  ghost predicate IsSubsequence<T>(r: seq<T>, s: seq<T>)
    decreases |s|
  {
    if r == [] then true
    else if s == [] then false
    else if r[|r| - 1] == s[|s| - 1] then IsSubsequence(r[..|r| - 1], s[..|s| - 1])
    else IsSubsequence(r, s[..|s| - 1])
  }

  lemma {:induction false} FilterIsSubsequence(s: seq<Event>, p: Event -> bool)
    ensures IsSubsequence(Filter(s, p), s)
    decreases |s|
  {
    if s != [] {
      var init, last := s[..|s| - 1], s[|s| - 1];
      var rest := Filter(init, p);
      FilterIsSubsequence(init, p);
      assert s == init + [last];
      if p(last) {
        assert (rest + [last])[..|rest|] == rest;
      } else {
        SubsequenceExtend(rest, init, last);
      }
    }
  }

  /** A subsequence of `s` stays one when `s` grows at the end. */
  lemma {:induction false} SubsequenceExtend<T>(r: seq<T>, s: seq<T>, x: T)
    requires IsSubsequence(r, s)
    ensures IsSubsequence(r, s + [x])
    decreases |s|, 1
  {
    assert (s + [x])[..|s|] == s;
    if r != [] && r[|r| - 1] == x {
      SubsequenceDropLast(r, s);
    }
  }

  lemma {:induction false} SubsequenceDropLast<T>(r: seq<T>, s: seq<T>)
    requires r != [] && IsSubsequence(r, s)
    ensures IsSubsequence(r[..|r| - 1], s)
    decreases |s|, 0
  {
    var r', s' := r[..|r| - 1], s[..|s| - 1];
    assert s == s' + [s[|s| - 1]];
    if r[|r| - 1] == s[|s| - 1] {
      SubsequenceExtend(r', s', s[|s| - 1]);
    } else {
      SubsequenceDropLast(r, s');
      SubsequenceExtend(r', s', s[|s| - 1]);
    }
  }

  /** The eventId attribute holds exactly the given string (the `eventId = %@` predicate). */
  predicate HasEventId(e: Event, id: string)
  {
    e.eventId == Some(Text(id))
  }

  /** The events whose eventId equals `id`: zero, one or several. */
  function WithEventId(events: seq<Event>, id: string): (r: seq<Event>)
    ensures forall e :: e in r ==> HasEventId(e, id)
    ensures forall e :: multiset(r)[e] == if HasEventId(e, id) then multiset(events)[e] else 0
  {
    var r := Filter(events, e => HasEventId(e, id));
    assert forall e :: multiset(r)[e] == if HasEventId(e, id) then multiset(events)[e] else 0 by {
      forall e ensures multiset(r)[e] == if HasEventId(e, id) then multiset(events)[e] else 0 {
        FilterCount(events, e => HasEventId(e, id), e);
      }
    }
    r
  }

  /** The date attribute as a timestamp, if it holds one. */
  function DateOf(e: Event): Option<int>
  {
    match e.date
    case Some(Moment(t)) => Some(t)
    case _ => None
  }

  /** The descending date order: `a` may come before `b`. An event without a date
      sorts after every dated event, as a NULL does under a descending SQL sort. */
  predicate LaterOrSame(a: Event, b: Event)
  {
    match (DateOf(a), DateOf(b))
    case (_, None) => true
    case (None, Some(_)) => false
    case (Some(x), Some(y)) => x >= y
  }

  ghost predicate DatesNonIncreasing(s: seq<Event>)
  {
    forall i, j :: 0 <= i < j < |s| ==> LaterOrSame(s[i], s[j])
  }

  lemma LaterOrSameTransitive(a: Event, b: Event, c: Event)
    requires LaterOrSame(a, b) && LaterOrSame(b, c)
    ensures LaterOrSame(a, c)
  {
  }

  /** An element that may precede every element of a sorted list may head it. */
  lemma ConsSorted(x: Event, r: seq<Event>)
    requires DatesNonIncreasing(r)
    requires forall y :: y in r ==> LaterOrSame(x, y)
    ensures DatesNonIncreasing([x] + r)
  {
    var s := [x] + r;
    forall i, j | 0 <= i < j < |s| ensures LaterOrSame(s[i], s[j]) {
      if i == 0 {
        assert s[j] == r[j - 1] && s[j] in r;
      } else {
        assert s[i] == r[i - 1] && s[j] == r[j - 1];
      }
    }
  }

  function InsertByDate(e: Event, s: seq<Event>): (r: seq<Event>)
    requires DatesNonIncreasing(s)
    ensures multiset(r) == multiset(s) + multiset{e}
    ensures DatesNonIncreasing(r)
    decreases |s|
  {
    if s == [] then [e]
    else if LaterOrSame(e, s[0]) then
      PrecedesSorted(e, s);
      ConsSorted(e, s);
      [e] + s
    else
      assert s == [s[0]] + s[1..];
      var rest := InsertByDate(e, s[1..]);
      HeadPrecedesInsertion(s, e, rest);
      ConsSorted(s[0], rest);
      [s[0]] + rest
  }

  /** An event that may precede the head of a sorted list may precede all of it. */
  lemma PrecedesSorted(e: Event, s: seq<Event>)
    requires DatesNonIncreasing(s) && s != [] && LaterOrSame(e, s[0])
    ensures forall y :: y in s ==> LaterOrSame(e, y)
  {
    forall y | y in s ensures LaterOrSame(e, y) {
      var k :| 0 <= k < |s| && s[k] == y;
      if k > 0 { LaterOrSameTransitive(e, s[0], s[k]); }
    }
  }

  /** The head of a sorted list may precede the tail with a later-sorting event inserted. */
  lemma HeadPrecedesInsertion(s: seq<Event>, e: Event, rest: seq<Event>)
    requires DatesNonIncreasing(s) && s != [] && !LaterOrSame(e, s[0])
    requires multiset(rest) == multiset(s[1..]) + multiset{e}
    ensures forall y :: y in rest ==> LaterOrSame(s[0], y)
  {
    var tail := s[1..];
    forall y | y in rest ensures LaterOrSame(s[0], y) {
      assert y in multiset(rest);
      if y != e {
        assert y in multiset(tail);
        var k :| 0 <= k < |tail| && tail[k] == y;
        assert s[k + 1] == y;
      }
    }
  }

  /** The fetched events ordered by date, latest first (a sort descriptor on
      `date` with `ascending: false`); ties keep no particular order. */
  function SortedByDateDescending(s: seq<Event>): (r: seq<Event>)
    ensures multiset(r) == multiset(s)
    ensures DatesNonIncreasing(r)
  {
    if s == [] then []
    else
      assert s == [s[0]] + s[1..];
      InsertByDate(s[0], SortedByDateDescending(s[1..]))
  }

  /** The attendees attribute holds a list of names, so its count can be taken. */
  predicate HasAttendeeList(e: Event)
  {
    e.attendees.Some? && e.attendees.value.Names?
  }

  /** The event with its attendees replaced by a same-length list of "anon". */
  function Anonymised(e: Event): (r: Event)
    requires HasAttendeeList(e)
    ensures HasAttendeeList(r)
    ensures |r.attendees.value.names| == |e.attendees.value.names|
    ensures forall i :: 0 <= i < |r.attendees.value.names| ==> r.attendees.value.names[i] == "anon"
    ensures forall a: Attribute :: a != Attendees ==> Get(r, a) == Get(e, a)
  {
    var anonymisedList := seq(|e.attendees.value.names|, _ => "anon");
    Set(e, Attendees, Names(anonymisedList))
  }

  /** Anonymising twice changes nothing more. */
  lemma AnonymisedIdempotent(e: Event)
    requires HasAttendeeList(e)
    ensures Anonymised(Anonymised(e)) == Anonymised(e)
  {
    var once, twice := Anonymised(e), Anonymised(Anonymised(e));
    assert twice.attendees.value.names == once.attendees.value.names;
    FieldsDetermineEvent(twice, once);
  }

  /** The list without its element at `at`; the others keep their order. */
  function RemovedAt(s: seq<Event>, at: nat): (r: seq<Event>)
    requires at < |s|
    ensures |r| == |s| - 1
    ensures forall i :: 0 <= i < at ==> r[i] == s[i]
    ensures forall i :: at <= i < |r| ==> r[i] == s[i + 1]
  {
    s[..at] + s[at + 1..]
  }

  /** Removing one position takes away exactly one occurrence of that element. */
  lemma RemovedAtCount(s: seq<Event>, at: nat)
    requires at < |s|
    ensures multiset(RemovedAt(s, at)) == multiset(s) - multiset{s[at]}
  {
    assert s == s[..at] + [s[at]] + s[at + 1..];
  }
}
