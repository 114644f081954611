/** The Event entity: its nine attribute names (the whitelist that decides which
    field-map keys are applied) and the record that holds one value per name. */
module EventModel {
  import opened Wrappers

  /** The values a field map carries and an attribute holds: strings, dates
      (seconds from the reference date) and lists of names. */
  datatype Value = Text(s: string) | Moment(seconds: int) | Names(names: seq<string>)

  /** The cases of the attribute enumeration. */
  datatype Attribute = EventId | Title | Date | Venue | City | Country | Attendees | FbUrl | TicketUrl

  /** The raw string of each case, which is also the key of the field map and of the entity. */
  function RawValue(a: Attribute): string
  {
    match a
    case EventId => "eventId"
    case Title => "title"
    case Date => "date"
    case Venue => "venue"
    case City => "city"
    case Country => "country"
    case Attendees => "attendees"
    case FbUrl => "fb_url"
    case TicketUrl => "ticket_url"
  }

  /** The static list of all attributes, in declaration order. */
  const GetAll: seq<Attribute> := [EventId, Title, Date, Venue, City, Country, Attendees, FbUrl, TicketUrl]

  /** The raw strings of a list of attributes, in order. */
  function RawNames(attrs: seq<Attribute>): (r: seq<string>)
    ensures |r| == |attrs|
    ensures forall i :: 0 <= i < |attrs| ==> r[i] == RawValue(attrs[i])
  {
    if attrs == [] then [] else [RawValue(attrs[0])] + RawNames(attrs[1..])
  }

  /** The same nine names as written out again in the constants file and in the legacy manager. */
  const ConstantsAttributeNames: seq<string> :=
    ["eventId", "title", "date", "venue", "city", "country", "attendees", "fb_url", "ticket_url"]
  const EventManagerAttributeNames: seq<string> :=
    ["eventId", "title", "date", "venue", "city", "country", "attendees", "fb_url", "ticket_url"]

  lemma GetAllListsEveryAttributeOnce()
    ensures |GetAll| == 9
    ensures forall a: Attribute :: a in GetAll
    ensures forall i, j :: 0 <= i < j < |GetAll| ==> GetAll[i] != GetAll[j]
  {
    forall a: Attribute ensures a in GetAll {
      assert GetAll[IndexOf(a)] == a;
    }
  }

  /** Distinct cases have distinct raw strings. */
  lemma RawValueInjective(a: Attribute, b: Attribute)
    ensures RawValue(a) == RawValue(b) ==> a == b
  {
    if RawValue(a) == RawValue(b) {
      var ra := RawValue(a);
      // the first characters and lengths already tell the nine names apart
      assert ra[0] == RawValue(b)[0] && |ra| == |RawValue(b)|;
    }
  }

  /** The three written-out copies of the whitelist are the same list. */
  lemma WhitelistCopiesAgree()
    ensures ConstantsAttributeNames == RawNames(GetAll)
    ensures EventManagerAttributeNames == RawNames(GetAll)
  {
  }

  /** The position of an attribute in GetAll. */
  function IndexOf(a: Attribute): (i: nat)
    ensures i < |GetAll| && GetAll[i] == a
  {
    match a
    case EventId => 0
    case Title => 1
    case Date => 2
    case Venue => 3
    case City => 4
    case Country => 5
    case Attendees => 6
    case FbUrl => 7
    case TicketUrl => 8
  }

  /** The attribute whose raw string is `key`, if the key is whitelisted. */
  function FromRaw(key: string): (r: Option<Attribute>)
    ensures r.Some? ==> RawValue(r.value) == key
    ensures r.None? ==> forall a: Attribute :: RawValue(a) != key
  {
    if key == "eventId" then Some(EventId)
    else if key == "title" then Some(Title)
    else if key == "date" then Some(Date)
    else if key == "venue" then Some(Venue)
    else if key == "city" then Some(City)
    else if key == "country" then Some(Country)
    else if key == "attendees" then Some(Attendees)
    else if key == "fb_url" then Some(FbUrl)
    else if key == "ticket_url" then Some(TicketUrl)
    else None
  }

  /** A key is whitelisted exactly when it is the raw string of some attribute. */
  predicate IsWhitelisted(key: string)
  {
    FromRaw(key).Some?
  }

  lemma FromRawOfRawValue(a: Attribute)
    ensures FromRaw(RawValue(a)) == Some(a)
  {
    RawValueInjective(a, FromRaw(RawValue(a)).value);
  }

  /** An Event managed object: one stored attribute per whitelisted name, each
      possibly nil. */
  datatype Event = Event(
    eventId: Option<Value>,
    title: Option<Value>,
    date: Option<Value>,
    venue: Option<Value>,
    city: Option<Value>,
    country: Option<Value>,
    attendees: Option<Value>,
    fbUrl: Option<Value>,
    ticketUrl: Option<Value>)

  /** A freshly inserted object: every attribute nil. */
  const EmptyEvent: Event := Event(None, None, None, None, None, None, None, None, None)

  /** Key-value read of an attribute (valueForKey). */
  function Get(e: Event, a: Attribute): Option<Value>
  {
    match a
    case EventId => e.eventId
    case Title => e.title
    case Date => e.date
    case Venue => e.venue
    case City => e.city
    case Country => e.country
    case Attendees => e.attendees
    case FbUrl => e.fbUrl
    case TicketUrl => e.ticketUrl
  }

  /** Key-value write of an attribute (setValue(_:forKey:)). */
  function Set(e: Event, a: Attribute, v: Value): (r: Event)
    ensures Get(r, a) == Some(v)
    ensures forall b: Attribute :: b != a ==> Get(r, b) == Get(e, b)
  {
    match a
    case EventId => e.(eventId := Some(v))
    case Title => e.(title := Some(v))
    case Date => e.(date := Some(v))
    case Venue => e.(venue := Some(v))
    case City => e.(city := Some(v))
    case Country => e.(country := Some(v))
    case Attendees => e.(attendees := Some(v))
    case FbUrl => e.(fbUrl := Some(v))
    case TicketUrl => e.(ticketUrl := Some(v))
  }

  /** The record has no stored field besides the nine attributes: two events that
      agree on every attribute are the same event. */
  lemma FieldsDetermineEvent(e1: Event, e2: Event)
    requires forall a: Attribute :: Get(e1, a) == Get(e2, a)
    ensures e1 == e2
  {
    assert Get(e1, EventId) == Get(e2, EventId);
    assert Get(e1, Title) == Get(e2, Title);
    assert Get(e1, Date) == Get(e2, Date);
    assert Get(e1, Venue) == Get(e2, Venue);
    assert Get(e1, City) == Get(e2, City);
    assert Get(e1, Country) == Get(e2, Country);
    assert Get(e1, Attendees) == Get(e2, Attendees);
    assert Get(e1, FbUrl) == Get(e2, FbUrl);
    assert Get(e1, TicketUrl) == Get(e2, TicketUrl);
  }

  /** Reference definition of the whitelisted field assignment: walk the given
      attributes and copy each one whose raw name is a key of the map. */
  function ApplyAttributes(e: Event, details: map<string, Value>, attrs: seq<Attribute>): Event
    decreases |attrs|
  {
    if attrs == [] then e
    else
      var before := ApplyAttributes(e, details, attrs[..|attrs| - 1]);
      var a := attrs[|attrs| - 1];
      if RawValue(a) in details then Set(before, a, details[RawValue(a)]) else before
  }

  lemma {:induction false} ApplyAttributesGet(e: Event, details: map<string, Value>, attrs: seq<Attribute>, a: Attribute)
    ensures Get(ApplyAttributes(e, details, attrs), a) ==
            if a in attrs && RawValue(a) in details then Some(details[RawValue(a)]) else Get(e, a)
    decreases |attrs|
  {
    if attrs != [] {
      var init := attrs[..|attrs| - 1];
      ApplyAttributesGet(e, details, init, a);
      assert attrs == init + [attrs[|attrs| - 1]];
    }
  }

  /** The event after every whitelisted key of `details` has been assigned. */
  function ApplyDetails(e: Event, details: map<string, Value>): (r: Event)
    ensures forall a: Attribute :: Get(r, a) ==
              if RawValue(a) in details then Some(details[RawValue(a)]) else Get(e, a)
  {
    var r := ApplyAttributes(e, details, GetAll);
    assert forall a: Attribute :: Get(r, a) ==
             if RawValue(a) in details then Some(details[RawValue(a)]) else Get(e, a) by {
      forall a: Attribute
        ensures Get(r, a) == if RawValue(a) in details then Some(details[RawValue(a)]) else Get(e, a)
      {
        ApplyAttributesGet(e, details, GetAll, a);
      }
    }
    r
  }

  /** A key that names no attribute never affects the result. */
  lemma UnknownKeyIgnored(e: Event, details: map<string, Value>, key: string, v: Value)
    requires !IsWhitelisted(key)
    ensures ApplyDetails(e, details[key := v]) == ApplyDetails(e, details)
  {
    var d := details[key := v];
    forall a: Attribute ensures Get(ApplyDetails(e, d), a) == Get(ApplyDetails(e, details), a) {
      assert RawValue(a) != key;
      assert (RawValue(a) in d) == (RawValue(a) in details);
    }
    FieldsDetermineEvent(ApplyDetails(e, d), ApplyDetails(e, details));
  }

  /** Only the whitelisted part of the map matters. */
  lemma OnlyWhitelistedKeysMatter(e: Event, d1: map<string, Value>, d2: map<string, Value>)
    requires forall a: Attribute :: (RawValue(a) in d1) == (RawValue(a) in d2)
    requires forall a: Attribute :: RawValue(a) in d1 ==> d1[RawValue(a)] == d2[RawValue(a)]
    ensures ApplyDetails(e, d1) == ApplyDetails(e, d2)
  {
    FieldsDetermineEvent(ApplyDetails(e, d1), ApplyDetails(e, d2));
  }

  /** The effect of the inner loop over GetAll for one (key, value) pair. */
  function AssignKey(e: Event, key: string, v: Value): Event
  {
    match FromRaw(key)
    case Some(a) => Set(e, a, v)
    case None => e
  }

  lemma AssignKeyExtends(e: Event, details: map<string, Value>, key: string, v: Value)
    requires key !in details
    ensures ApplyDetails(e, details[key := v]) == AssignKey(ApplyDetails(e, details), key, v)
  {
    var d := details[key := v];
    var lhs, rhs := ApplyDetails(e, d), AssignKey(ApplyDetails(e, details), key, v);
    forall a: Attribute ensures Get(lhs, a) == Get(rhs, a) {
      RawValueInjective(a, if FromRaw(key).Some? then FromRaw(key).value else a);
    }
    FieldsDetermineEvent(lhs, rhs);
  }

  function Restrict(m: map<string, Value>, keys: set<string>): (r: map<string, Value>)
    ensures r.Keys == m.Keys * keys
    ensures forall k :: k in r ==> r[k] == m[k]
  {
    map k | k in m && k in keys :: m[k]
  }

  /** The nested assignment loop of saveNewItem and updateEventItemDetails: for
      every (key, value) of the map, in the map's own iteration order, for every
      attribute of getAll, set the attribute whose raw value equals the key. */
  method AssignDetails(e: Event, details: map<string, Value>) returns (r: Event)
    ensures r == ApplyDetails(e, details)
  {
    r := e;
    var pending := details.Keys;
    FieldsDetermineEvent(e, ApplyDetails(e, Restrict(details, {})));
    while pending != {}
      invariant pending <= details.Keys
      invariant r == ApplyDetails(e, Restrict(details, details.Keys - pending))
      decreases pending
    {
      var key :| key in pending;
      var value := details[key];
      ghost var done := Restrict(details, details.Keys - pending);
      ghost var before := r;
      for j := 0 to |GetAll|
        invariant r == if FromRaw(key).Some? && IndexOf(FromRaw(key).value) < j
                       then AssignKey(before, key, value) else before
      {
        if key == RawValue(GetAll[j]) {
          FromRawOfRawValue(GetAll[j]);
          r := Set(r, GetAll[j], value);
        } else if FromRaw(key).Some? {
          assert GetAll[IndexOf(FromRaw(key).value)] != GetAll[j];
        }
      }
      assert FromRaw(key).Some? ==> IndexOf(FromRaw(key).value) < |GetAll|;
      AssignKeyExtends(e, done, key, value);
      assert Restrict(details, details.Keys - (pending - {key})) == done[key := value];
      pending := pending - {key};
    }
    assert Restrict(details, details.Keys - pending) == details;
  }
}
