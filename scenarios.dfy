/** The scenarios of the repository's tests (test/logic/test_calendar.py and
    test/logic/test_objects.py), stated about the model: the person lives in
    Amsterdam, and dates are the day numbers `date.toordinal` gives. */
module Scenarios {

  import opened Wrappers
  import opened Errors
  import opened Text
  import opened Requests
  import opened Objects
  import opened Sorting
  import opened Itinerary
  import opened Whereabouts
  import opened Calendar

  /** The day number of the given day of June 2024. */
  function June(day: int): int
  {
    739037 + day
  }

  const HOME: Location := Location(NETHERLANDS, "amsterdam")
  const ZURICH: Location := Location(SWITZERLAND, "zurich")
  const LONDON: Location := Location(UNITED_KINGDOM, "london")

  const OSLO: Location := Location(NORWAY, "oslo")

  /** The person of the tests, at home in Amsterdam. */
  const PERSON: Person := Person("lastname", "firstname", HOME)

  // ---------------------------------------------------------------------
  // Adding trips (test/logic/test_calendar.py, `TestAddTrips`).

  /** Which rule, if any, rejects the second trip of each test against the first. */
  lemma AddTripScenarios()
    ensures Violation(Trip(ZURICH, June(23), June(25)), Trip(ZURICH, June(23), June(24))) == Some(SameStart)
    ensures Violation(Trip(ZURICH, June(22), June(24)), Trip(ZURICH, June(23), June(24))) == Some(SameEnd)
    ensures Violation(Trip(ZURICH, June(22), June(24)), Trip(ZURICH, June(23), June(25))) == Some(OverlapsStart)
    ensures Violation(Trip(ZURICH, June(24), June(26)), Trip(ZURICH, June(23), June(25))) == Some(OverlapsEnd)
    ensures Violation(Trip(ZURICH, June(23), June(24)), Trip(ZURICH, June(25), June(26))) == None
  {
  }

  const EARLIER: Trip := Trip(ZURICH, June(23), June(24))
  const LATER: Trip := Trip(ZURICH, June(25), June(26))

  /** Trips come back ordered by start date, whatever order they were added in. */
  lemma TripsOrderedScenario()
    ensures TripList({LATER, EARLIER}) == [EARLIER, LATER]
  {
    assert (set t | t in [EARLIER, LATER]) == {LATER, EARLIER};
    AscendingListIsTripList([EARLIER, LATER]);
  }

  /** A trip inside another is accepted and follows it in the trip list. */
  lemma TripContainedScenario()
    ensures var outer := Trip(ZURICH, June(22), June(25));
            var inner := Trip(LONDON, June(23), June(24));
            Violation(inner, outer) == None && TripList({outer, inner}) == [outer, inner]
  {
    var outer := Trip(ZURICH, June(22), June(25));
    var inner := Trip(LONDON, June(23), June(24));
    assert (set t | t in [outer, inner]) == {outer, inner};
    AscendingListIsTripList([outer, inner]);
  }

  /** The calendar itself: the later trip is accepted first, the earlier one
      next, and the trip list is in date order. */
  method TripsReturnedOrdered() returns (l: seq<Trip>)
    ensures l == [EARLIER, LATER]
  {
    var calendar := new SinglePersonCalendar(PERSON);
    var r := calendar.AddTrip(LATER);
    assert Violation(EARLIER, LATER) == None;
    r := calendar.AddTrip(EARLIER);
    TripsOrderedScenario();
    assert calendar.trips == {LATER, EARLIER};
    assert SortedTrips(calendar.trips) == [EARLIER, LATER];
    l := calendar.TripList();
  }

  /** A second trip with the same start date is refused with a `CalendarError`,
      and the calendar keeps only the first. */
  method SameStartRefused() returns (r: Outcome<Exception>, trips: set<Trip>)
    ensures r.Fail? && r.error.CalendarError?
    ensures trips == {Trip(ZURICH, June(23), June(24))}
  {
    var calendar := new SinglePersonCalendar(PERSON);
    var first := Trip(ZURICH, June(23), June(24));
    r := calendar.AddTrip(first);
    r := calendar.AddTrip(Trip(ZURICH, June(23), June(25)));
    trips := calendar.trips;
  }

  // ---------------------------------------------------------------------
  // Daily calendars (test/logic/test_calendar.py, `TestDailyCalendar`).

  /** With no trips every day is spent at home. */
  lemma NoTripsScenario()
    ensures DailyCalendar(TravelDays(TripList({}), HOME), HOME, June(22), June(24)) ==
            map[June(22) := Day(HOME, HOME), June(23) := Day(HOME, HOME), June(24) := Day(HOME, HOME)]
  {
    assert |TripList({})| == |multiset(TripList({}))| == 0;
    DailyCalendarStep(map[], HOME, June(22), June(21));
    DailyCalendarStep(map[], HOME, June(22), June(22));
    DailyCalendarStep(map[], HOME, June(22), June(23));
  }

  /** One trip, to a Zurich recorded in the Netherlands as the test has it. */
  const SINGLE: Trip := Trip(Location(NETHERLANDS, "zurich"), June(23), June(25))

  const SINGLE_TRAVEL: map<int, Day> :=
    map[June(23) := Day(HOME, SINGLE.location), June(25) := Day(SINGLE.location, HOME)]

  lemma SingleTripTravelDays()
    ensures TripList({SINGLE}) == [SINGLE] && TravelDays([SINGLE], HOME) == SINGLE_TRAVEL
  {
    assert (set t | t in [SINGLE]) == {SINGLE};
    AscendingListIsTripList([SINGLE]);
    assert TravelDaysUpTo([SINGLE], HOME, 0) == map[];
  }

  lemma SingleTripEntries()
    ensures var z := SINGLE.location;
            DailyEntry(SINGLE_TRAVEL, HOME, June(22)) == Day(HOME, HOME) &&
            DailyEntry(SINGLE_TRAVEL, HOME, June(23)) == Day(HOME, z) &&
            DailyEntry(SINGLE_TRAVEL, HOME, June(24)) == Day(z, z) &&
            DailyEntry(SINGLE_TRAVEL, HOME, June(25)) == Day(z, HOME) &&
            DailyEntry(SINGLE_TRAVEL, HOME, June(26)) == Day(HOME, HOME)
  {
    assert June(23) in SINGLE_TRAVEL && June(25) in SINGLE_TRAVEL;
    LatestTravelDayBeforeUnique(SINGLE_TRAVEL, June(24), June(23));
  }

  /** Out on the first day of the trip, away in between, back on its last day. */
  lemma SingleTripScenario()
    ensures var z := SINGLE.location;
            DailyCalendar(TravelDays(TripList({SINGLE}), HOME), HOME, June(22), June(26)) ==
            map[June(22) := Day(HOME, HOME),
                June(23) := Day(HOME, z),
                June(24) := Day(z, z),
                June(25) := Day(z, HOME),
                June(26) := Day(HOME, HOME)]
  {
    SingleTripTravelDays();
    SingleTripEntries();
    var td := SINGLE_TRAVEL;
    DailyCalendarStep(td, HOME, June(22), June(21));
    DailyCalendarStep(td, HOME, June(22), June(22));
    DailyCalendarStep(td, HOME, June(22), June(23));
    DailyCalendarStep(td, HOME, June(22), June(24));
    DailyCalendarStep(td, HOME, June(22), June(25));
  }

  /** Two trips with a day at home between them. */
  const DISJOINT_1: Trip := Trip(ZURICH, June(23), June(25))
  const DISJOINT_2: Trip := Trip(LONDON, June(27), June(29))

  const DISJOINT_TRAVEL: map<int, Day> :=
    map[June(23) := Day(HOME, ZURICH), June(25) := Day(ZURICH, HOME),
        June(27) := Day(HOME, LONDON), June(29) := Day(LONDON, HOME)]

  lemma TripsDisjointTravelDays()
    ensures TripList({DISJOINT_1, DISJOINT_2}) == [DISJOINT_1, DISJOINT_2]
    ensures TravelDays([DISJOINT_1, DISJOINT_2], HOME) == DISJOINT_TRAVEL
  {
    var l := [DISJOINT_1, DISJOINT_2];
    assert (set t | t in l) == {DISJOINT_1, DISJOINT_2};
    AscendingListIsTripList(l);
    assert TravelDaysUpTo(l, HOME, 1) == map[June(23) := Day(HOME, ZURICH), June(25) := Day(ZURICH, HOME)];
  }

  lemma TripsDisjointEntries()
    ensures DailyEntry(DISJOINT_TRAVEL, HOME, June(22)) == Day(HOME, HOME)
    ensures DailyEntry(DISJOINT_TRAVEL, HOME, June(23)) == Day(HOME, ZURICH)
    ensures DailyEntry(DISJOINT_TRAVEL, HOME, June(24)) == Day(ZURICH, ZURICH)
    ensures DailyEntry(DISJOINT_TRAVEL, HOME, June(25)) == Day(ZURICH, HOME)
    ensures DailyEntry(DISJOINT_TRAVEL, HOME, June(26)) == Day(HOME, HOME)
    ensures DailyEntry(DISJOINT_TRAVEL, HOME, June(27)) == Day(HOME, LONDON)
    ensures DailyEntry(DISJOINT_TRAVEL, HOME, June(28)) == Day(LONDON, LONDON)
    ensures DailyEntry(DISJOINT_TRAVEL, HOME, June(29)) == Day(LONDON, HOME)
    ensures DailyEntry(DISJOINT_TRAVEL, HOME, June(30)) == Day(HOME, HOME)
  {
    var td := DISJOINT_TRAVEL;
    assert June(23) in td && June(29) in td;
    LatestTravelDayBeforeUnique(td, June(24), June(23));
    LatestTravelDayBeforeUnique(td, June(26), June(25));
    LatestTravelDayBeforeUnique(td, June(28), June(27));
  }

  /** Each trip as if it were alone, with the day between them at home. */
  lemma TripsDisjointScenario()
    ensures DailyCalendar(TravelDays(TripList({DISJOINT_1, DISJOINT_2}), HOME), HOME, June(22), June(30)) ==
            map[June(22) := Day(HOME, HOME),
                June(23) := Day(HOME, ZURICH),
                June(24) := Day(ZURICH, ZURICH),
                June(25) := Day(ZURICH, HOME),
                June(26) := Day(HOME, HOME),
                June(27) := Day(HOME, LONDON),
                June(28) := Day(LONDON, LONDON),
                June(29) := Day(LONDON, HOME),
                June(30) := Day(HOME, HOME)]
  {
    TripsDisjointTravelDays();
    TripsDisjointEntries();
    var td := DISJOINT_TRAVEL;
    DailyCalendarStep(td, HOME, June(22), June(21));
    DailyCalendarStep(td, HOME, June(22), June(22));
    DailyCalendarStep(td, HOME, June(22), June(23));
    DailyCalendarStep(td, HOME, June(22), June(24));
    DailyCalendarStep(td, HOME, June(22), June(25));
    DailyCalendarStep(td, HOME, June(22), June(26));
    DailyCalendarStep(td, HOME, June(22), June(27));
    DailyCalendarStep(td, HOME, June(22), June(28));
    DailyCalendarStep(td, HOME, June(22), June(29));
  }

  /** Two trips back to back. */
  const CONNECTED_1: Trip := Trip(ZURICH, June(23), June(25))
  const CONNECTED_2: Trip := Trip(LONDON, June(25), June(27))

  const CONNECTED_TRAVEL: map<int, Day> :=
    map[June(23) := Day(HOME, ZURICH), June(25) := Day(ZURICH, LONDON), June(27) := Day(LONDON, HOME)]

  lemma TripsConnectedTravelDays()
    ensures TripList({CONNECTED_1, CONNECTED_2}) == [CONNECTED_1, CONNECTED_2]
    ensures TravelDays([CONNECTED_1, CONNECTED_2], HOME) == CONNECTED_TRAVEL
  {
    var l := [CONNECTED_1, CONNECTED_2];
    assert (set t | t in l) == {CONNECTED_1, CONNECTED_2};
    AscendingListIsTripList(l);
    assert TravelDaysUpTo(l, HOME, 1) == map[June(23) := Day(HOME, ZURICH), June(25) := Day(ZURICH, LONDON)];
  }

  lemma TripsConnectedEntries()
    ensures DailyEntry(CONNECTED_TRAVEL, HOME, June(22)) == Day(HOME, HOME)
    ensures DailyEntry(CONNECTED_TRAVEL, HOME, June(23)) == Day(HOME, ZURICH)
    ensures DailyEntry(CONNECTED_TRAVEL, HOME, June(24)) == Day(ZURICH, ZURICH)
    ensures DailyEntry(CONNECTED_TRAVEL, HOME, June(25)) == Day(ZURICH, LONDON)
    ensures DailyEntry(CONNECTED_TRAVEL, HOME, June(26)) == Day(LONDON, LONDON)
    ensures DailyEntry(CONNECTED_TRAVEL, HOME, June(27)) == Day(LONDON, HOME)
    ensures DailyEntry(CONNECTED_TRAVEL, HOME, June(28)) == Day(HOME, HOME)
  {
    var td := CONNECTED_TRAVEL;
    assert June(23) in td && June(27) in td;
    LatestTravelDayBeforeUnique(td, June(24), June(23));
    LatestTravelDayBeforeUnique(td, June(26), June(25));
  }

  /** The day of the change is spent travelling from one destination straight to the other. */
  lemma TripsConnectedScenario()
    ensures DailyCalendar(TravelDays(TripList({CONNECTED_1, CONNECTED_2}), HOME), HOME, June(22), June(28)) ==
            CONNECTED_TABLE
  {
    TripsConnectedTravelDays();
    TripsConnectedEntries();
    var td := CONNECTED_TRAVEL;
    DailyCalendarStep(td, HOME, June(22), June(21));
    DailyCalendarStep(td, HOME, June(22), June(22));
    DailyCalendarStep(td, HOME, June(22), June(23));
    DailyCalendarStep(td, HOME, June(22), June(24));
    DailyCalendarStep(td, HOME, June(22), June(25));
    DailyCalendarStep(td, HOME, June(22), June(26));
    DailyCalendarStep(td, HOME, June(22), June(27));
  }

  const CONNECTED_TABLE: map<int, Day> :=
    map[June(22) := Day(HOME, HOME),
        June(23) := Day(HOME, ZURICH),
        June(24) := Day(ZURICH, ZURICH),
        June(25) := Day(ZURICH, LONDON),
        June(26) := Day(LONDON, LONDON),
        June(27) := Day(LONDON, HOME),
        June(28) := Day(HOME, HOME)]

  /** The calendar itself: both trips are accepted and `get_daily_calendar` gives the table above. */
  method TripsConnectedCalendar() returns (daily: map<int, Day>)
    ensures daily == CONNECTED_TABLE
  {
    var calendar := new SinglePersonCalendar(PERSON);
    var r := calendar.AddTrip(CONNECTED_1);
    assert Violation(CONNECTED_2, CONNECTED_1) == None;
    r := calendar.AddTrip(CONNECTED_2);
    TripsConnectedScenario();
    assert calendar.trips == {CONNECTED_1, CONNECTED_2};
    daily := calendar.GetDailyCalendar(June(22), June(28));
  }

  /** A trip inside another. */
  const OUTER: Trip := Trip(ZURICH, June(22), June(28))
  const INNER: Trip := Trip(LONDON, June(24), June(26))

  const CONTAINED_TRAVEL: map<int, Day> :=
    map[June(22) := Day(HOME, ZURICH), June(28) := Day(ZURICH, HOME),
        June(24) := Day(ZURICH, LONDON), June(26) := Day(LONDON, ZURICH)]

  lemma TripFullyContainedTravelDays()
    ensures TripList({OUTER, INNER}) == [OUTER, INNER]
    ensures TravelDays([OUTER, INNER], HOME) == CONTAINED_TRAVEL
  {
    var l := [OUTER, INNER];
    assert (set t | t in l) == {OUTER, INNER};
    AscendingListIsTripList(l);
    assert TravelDaysUpTo(l, HOME, 1) == map[June(22) := Day(HOME, ZURICH), June(28) := Day(ZURICH, HOME)];
  }

  lemma TripFullyContainedEntries()
    ensures DailyEntry(CONTAINED_TRAVEL, HOME, June(22)) == Day(HOME, ZURICH)
    ensures DailyEntry(CONTAINED_TRAVEL, HOME, June(23)) == Day(ZURICH, ZURICH)
    ensures DailyEntry(CONTAINED_TRAVEL, HOME, June(24)) == Day(ZURICH, LONDON)
    ensures DailyEntry(CONTAINED_TRAVEL, HOME, June(25)) == Day(LONDON, LONDON)
    ensures DailyEntry(CONTAINED_TRAVEL, HOME, June(26)) == Day(LONDON, ZURICH)
    ensures DailyEntry(CONTAINED_TRAVEL, HOME, June(27)) == Day(ZURICH, ZURICH)
    ensures DailyEntry(CONTAINED_TRAVEL, HOME, June(28)) == Day(ZURICH, HOME)
  {
    var td := CONTAINED_TRAVEL;
    assert June(22) in td && June(28) in td;
    LatestTravelDayBeforeUnique(td, June(23), June(22));
    LatestTravelDayBeforeUnique(td, June(25), June(24));
    LatestTravelDayBeforeUnique(td, June(27), June(26));
  }

  /** Straight from the outer destination to the inner one, and back to the
      outer one when the inner trip ends. */
  lemma TripFullyContainedScenario()
    ensures DailyCalendar(TravelDays(TripList({OUTER, INNER}), HOME), HOME, June(22), June(28)) ==
            map[June(22) := Day(HOME, ZURICH),
                June(23) := Day(ZURICH, ZURICH),
                June(24) := Day(ZURICH, LONDON),
                June(25) := Day(LONDON, LONDON),
                June(26) := Day(LONDON, ZURICH),
                June(27) := Day(ZURICH, ZURICH),
                June(28) := Day(ZURICH, HOME)]
  {
    TripFullyContainedTravelDays();
    TripFullyContainedEntries();
    var td := CONTAINED_TRAVEL;
    DailyCalendarStep(td, HOME, June(22), June(21));
    DailyCalendarStep(td, HOME, June(22), June(22));
    DailyCalendarStep(td, HOME, June(22), June(23));
    DailyCalendarStep(td, HOME, June(22), June(24));
    DailyCalendarStep(td, HOME, June(22), June(25));
    DailyCalendarStep(td, HOME, June(22), June(26));
    DailyCalendarStep(td, HOME, June(22), June(27));
  }

  // ---------------------------------------------------------------------
  // Two trips inside one outer trip, one after the other.

  const SIBLINGS_OUTER: Trip := Trip(ZURICH, June(22), June(28))
  const SIBLINGS_FIRST: Trip := Trip(LONDON, June(23), June(24))
  const SIBLINGS_SECOND: Trip := Trip(OSLO, June(25), June(26))

  const SIBLINGS_TRAVEL: map<int, Day> :=
    map[June(22) := Day(HOME, ZURICH), June(28) := Day(ZURICH, HOME),
        June(23) := Day(ZURICH, LONDON), June(24) := Day(LONDON, ZURICH),
        June(25) := Day(HOME, OSLO), June(26) := Day(OSLO, HOME)]

  /** The calendar accepts the three trips in this order, and the rules as written
      send the person home for the second inner trip and after it. */
  lemma NestedSiblingsTravelDays()
    ensures Violation(SIBLINGS_FIRST, SIBLINGS_OUTER) == None
    ensures Violation(SIBLINGS_SECOND, SIBLINGS_OUTER) == None && Violation(SIBLINGS_SECOND, SIBLINGS_FIRST) == None
    ensures TripList({SIBLINGS_OUTER, SIBLINGS_FIRST, SIBLINGS_SECOND}) == [SIBLINGS_OUTER, SIBLINGS_FIRST, SIBLINGS_SECOND]
    ensures TravelDays([SIBLINGS_OUTER, SIBLINGS_FIRST, SIBLINGS_SECOND], HOME) == SIBLINGS_TRAVEL
  {
    var l := [SIBLINGS_OUTER, SIBLINGS_FIRST, SIBLINGS_SECOND];
    assert (set t | t in l) == {SIBLINGS_OUTER, SIBLINGS_FIRST, SIBLINGS_SECOND};
    AscendingListIsTripList(l);
    assert TravelDaysUpTo(l, HOME, 1) == map[June(22) := Day(HOME, ZURICH), June(28) := Day(ZURICH, HOME)];
    assert TravelDaysUpTo(l, HOME, 2) == TravelDaysUpTo(l, HOME, 1)[June(23) := Day(ZURICH, LONDON)][June(24) := Day(LONDON, ZURICH)];
  }

  /** Where the account places the person on the days around the second inner trip. */
  lemma NestedSiblingsReference()
    ensures var l := [SIBLINGS_OUTER, SIBLINGS_FIRST, SIBLINGS_SECOND];
            ReferenceEntry(l, HOME, June(25)) == Day(ZURICH, OSLO) &&
            ReferenceEntry(l, HOME, June(27)) == Day(ZURICH, ZURICH) &&
            ReferenceEntry(l, HOME, June(28)) == Day(ZURICH, HOME)
  {
    var l := [SIBLINGS_OUTER, SIBLINGS_FIRST, SIBLINGS_SECOND];
    NightAtLastCovering(l, HOME, June(24), 0);
    NightAtLastCovering(l, HOME, June(25), 2);
    NightAtLastCovering(l, HOME, June(26), 0);
    NightAtLastCovering(l, HOME, June(27), 0);
  }

  lemma NestedSiblingsEntries()
    ensures DailyEntry(SIBLINGS_TRAVEL, HOME, June(24)) == Day(LONDON, ZURICH)
    ensures DailyEntry(SIBLINGS_TRAVEL, HOME, June(25)) == Day(HOME, OSLO)
    ensures DailyEntry(SIBLINGS_TRAVEL, HOME, June(27)) == Day(HOME, HOME)
    ensures DailyEntry(SIBLINGS_TRAVEL, HOME, June(28)) == Day(ZURICH, HOME)
  {
    var td := SIBLINGS_TRAVEL;
    assert June(22) in td && June(28) in td;
    LatestTravelDayBeforeUnique(td, June(27), June(26));
  }

  /** The daily table as written breaks where the person is: 24 June ends in Zurich
      but 25 June starts at home, and 27 June ends at home but 28 June starts in
      Zurich. */
  lemma NestedSiblingsLeaveOuterTrip()
    ensures var l := TripList({SIBLINGS_OUTER, SIBLINGS_FIRST, SIBLINGS_SECOND});
            var daily := DailyCalendar(TravelDays(l, HOME), HOME, June(22), June(28));
            daily[June(24)].end == ZURICH && daily[June(25)].start == HOME &&
            daily[June(27)] == Day(HOME, HOME) && daily[June(28)].start == ZURICH
  {
    NestedSiblingsTravelDays();
    NestedSiblingsEntries();
    DailyCalendarDays(SIBLINGS_TRAVEL, HOME, June(22), June(28));
  }

  /** The account, and the table built from the corrected travel days, keep the
      person in Zurich around the second inner trip. */
  lemma NestedSiblingsCorrected()
    ensures var l := TripList({SIBLINGS_OUTER, SIBLINGS_FIRST, SIBLINGS_SECOND});
            var corrected := DailyCalendar(CorrectedTravelDays(l, HOME), HOME, June(22), June(28));
            corrected[June(24)].end == ZURICH && corrected[June(25)] == Day(ZURICH, OSLO) &&
            corrected[June(27)] == Day(ZURICH, ZURICH) && corrected[June(28)].start == ZURICH
  {
    var l := [SIBLINGS_OUTER, SIBLINGS_FIRST, SIBLINGS_SECOND];
    NestedSiblingsTravelDays();
    NestedSiblingsReference();
    CorrectedCalendarIsReference(l, HOME, June(22), June(28));
  }

  // ---------------------------------------------------------------------
  // Identifiers (test/logic/test_objects.py) and people
  // (test/logic/test_calendar.py, `TestFullCalendar`).

  lemma LowerTestString()
    ensures Lower("TEST STRING") == "test string"
  {
    var s := Lower("TEST STRING");
    assert forall i :: 0 <= i < |s| ==> s[i] == "test string"[i];
  }

  lemma LowerTitleTestString()
    ensures Lower("Test String") == "test string"
  {
    var a := "Test String";
    var s := Lower(a);
    assert s[0] == 't' by { assert a[0] == 'T'; }
    assert s[1] == 'e' by { assert a[1] == 'e'; }
    assert s[2] == 's' by { assert a[2] == 's'; }
    assert s[3] == 't' by { assert a[3] == 't'; }
    assert s[4] == ' ' by { assert a[4] == ' '; }
    assert s[5] == 's' by { assert a[5] == 'S'; }
    assert s[6] == 't' by { assert a[6] == 't'; }
    assert s[7] == 'r' by { assert a[7] == 'r'; }
    assert s[8] == 'i' by { assert a[8] == 'i'; }
    assert s[9] == 'n' by { assert a[9] == 'n'; }
    assert s[10] == 'g' by { assert a[10] == 'g'; }
  }

  /** Identifiers that differ only in case are the same identifier. */
  lemma StrIDScenario()
    ensures NewStrID("TEST STRING") == NewStrID("Test String") == NewStrID("test string") == "test string"
  {
    LowerTestString();
    LowerTitleTestString();
    LoweredIsFixpoint("test string");
  }

  /** A person added to the full calendar gets a calendar with no trips. */
  method AddPersonScenario() returns (l: seq<Trip>)
    ensures l == []
  {
    var calendar := new FullCalendar();
    var r := calendar.AddPerson(PERSON);
    var c := calendar.calendars[PERSON];
    l := c.TripList();
    assert |l| == |multiset(l)| == |multiset(c.trips)| == 0;
  }

  /** Adding an equal person a second time fails with a `CalendarError`, and the
      calendar still holds that one person. */
  method AddPersonTwiceScenario() returns (second: Outcome<Exception>, people: set<Person>)
    ensures second.Fail? && second.error.CalendarError? && people == {PERSON}
  {
    var calendar := new FullCalendar();
    var first := calendar.AddPerson(PERSON);
    second := calendar.AddPerson(PERSON);
    people := calendar.calendars.Keys;
  }

  /** A front-end request to add the sample person. */
  const ADD_PERSON_REQUEST: map<string, Value> :=
    map["request_type" := Str("ADD_PERSON"), "last_name" := Str("lastname"), "first_name" := Str("firstname"),
        "country" := Str("NETHERLANDS"), "city" := Str("amsterdam")]

  /** The payload of the sample request holds the four fields as sent. */
  lemma AddPersonRequestPayload()
    ensures NewRequest(ADD_PERSON_REQUEST).Success?
    ensures var payload := NewRequest(ADD_PERSON_REQUEST).value.payload;
            PayloadText(payload, "country") == "NETHERLANDS" && PayloadText(payload, "city") == "amsterdam" &&
            PayloadText(payload, "last_name") == "lastname" && PayloadText(payload, "first_name") == "firstname"
  {
    assert ADD_PERSON_REQUEST[REQUEST_TYPE_ID] == Str("ADD_PERSON");
    var payload := NewRequest(ADD_PERSON_REQUEST).value.payload;
    assert "country" in ADD_PERSON_REQUEST && "country" != REQUEST_TYPE_ID;
    assert "city" in ADD_PERSON_REQUEST && "city" != REQUEST_TYPE_ID;
    assert "last_name" in ADD_PERSON_REQUEST && "last_name" != REQUEST_TYPE_ID;
    assert "first_name" in ADD_PERSON_REQUEST && "first_name" != REQUEST_TYPE_ID;
  }

  /** A payload naming the sample person's fields gives the sample person. */
  lemma PersonFromSamplePayload(request: Request)
    requires PayloadText(request.payload, "country") == "NETHERLANDS"
    requires PayloadText(request.payload, "city") == "amsterdam"
    requires PayloadText(request.payload, "last_name") == "lastname"
    requires PayloadText(request.payload, "first_name") == "firstname"
    ensures PersonFromRequest(request) == Success(PERSON)
  {
    LoweredIsFixpoint("lastname");
    LoweredIsFixpoint("firstname");
    LoweredIsFixpoint("amsterdam");
    assert CountryByName("NETHERLANDS") == Some(NETHERLANDS);
    assert LocationFromRequest(request) == Success(HOME);
  }

  lemma AddPersonRequestParses()
    ensures NewRequest(ADD_PERSON_REQUEST).Success?
    ensures PersonFromRequest(NewRequest(ADD_PERSON_REQUEST).value) == Success(PERSON)
  {
    AddPersonRequestPayload();
    PersonFromSamplePayload(NewRequest(ADD_PERSON_REQUEST).value);
  }

  /** The same request sent twice: 200 the first time, 400 with the duplicate
      message the second time. */
  method AddPersonByRequestTwice() returns (first: Result<Response, Exception>, second: Result<Response, Exception>)
    ensures first == Success(Response(200, "Added person " + PersonRepr(PERSON) + "."))
    ensures second == Success(Response(400, "Failed to add person: " + DuplicatePersonMessage(PERSON)))
  {
    var calendar := new FullCalendar();
    AddPersonRequestParses();
    first := calendar.ProcessFrontendRequest(ADD_PERSON_REQUEST);
    second := calendar.ProcessFrontendRequest(ADD_PERSON_REQUEST);
  }
}
