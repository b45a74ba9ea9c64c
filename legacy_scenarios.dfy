/** Concrete calendars of the earlier engine, set beside the logic layer's
    answers for the same trips. */
module LegacyScenarios {

  import opened Wrappers
  import opened Sorting
  import opened LegacyObjects
  import opened LegacyCalendar
  import Scenarios

  const HOME: Location := Location(NETHERLANDS, "amsterdam")
  const ZURICH: Location := Location(SWITZERLAND, "zurich")
  const LONDON: Location := Location(UNITED_KINGDOM, "london")
  const PERSON: Person := Person("lastname", "firstname", HOME)

  /** A set of two trips with different keys has exactly the one sorting. */
  lemma PairSorting(a: Trip, b: Trip, l: seq<Trip>)
    requires KeyLe(TripKey(a), TripKey(b)) && TripKey(a) != TripKey(b)
    requires IsSortingOf(l, {a, b}, TripKey)
    ensures l == [a, b]
  {
    assert multiset([a, b]) == multiset{a, b} == multiset({a, b});
    SortingUnique(l, [a, b], {a, b}, TripKey);
  }

  /** A one-trip set has exactly the one sorting. */
  lemma SingletonSorting(t: Trip, l: seq<Trip>)
    requires IsSortingOf(l, {t}, TripKey)
    ensures l == [t]
  {
    assert multiset([t]) == multiset({t});
    SortingUnique(l, [t], {t}, TripKey);
  }

  // ---------------------------------------------------------------------
  // One trip: the days in between get no entry.

  const SINGLE: Trip := Trip(ZURICH, Scenarios.June(23), Scenarios.June(25))

  const SINGLE_TRAVEL: map<int, Day> :=
    map[Scenarios.June(23) := Day(HOME, ZURICH), Scenarios.June(25) := Day(ZURICH, HOME)]

  /** Home before and after the trip, the two travel days, and nothing for 24 June. */
  const SINGLE_TABLE: map<int, Day> :=
    map[Scenarios.June(22) := Day(HOME, HOME), Scenarios.June(23) := Day(HOME, ZURICH),
        Scenarios.June(25) := Day(ZURICH, HOME), Scenarios.June(26) := Day(HOME, HOME)]

  lemma SingleTripEntries()
    ensures DailyEntry(SINGLE_TRAVEL, HOME, Scenarios.June(22)) == Some(Day(HOME, HOME))
    ensures DailyEntry(SINGLE_TRAVEL, HOME, Scenarios.June(23)) == Some(Day(HOME, ZURICH))
    ensures DailyEntry(SINGLE_TRAVEL, HOME, Scenarios.June(24)) == None
    ensures DailyEntry(SINGLE_TRAVEL, HOME, Scenarios.June(25)) == Some(Day(ZURICH, HOME))
    ensures DailyEntry(SINGLE_TRAVEL, HOME, Scenarios.June(26)) == Some(Day(HOME, HOME))
  {
    assert Scenarios.June(23) in SINGLE_TRAVEL && Scenarios.June(25) in SINGLE_TRAVEL;
  }

  lemma SingleTripTable()
    ensures DailyCalendar(SINGLE_TRAVEL, HOME, Scenarios.June(22), Scenarios.June(26)) == SINGLE_TABLE
  {
    SingleTripEntries();
    var s := Scenarios.June(22);
    DailyCalendarStep(SINGLE_TRAVEL, HOME, s, Scenarios.June(21));
    DailyCalendarStep(SINGLE_TRAVEL, HOME, s, Scenarios.June(22));
    DailyCalendarStep(SINGLE_TRAVEL, HOME, s, Scenarios.June(23));
    DailyCalendarStep(SINGLE_TRAVEL, HOME, s, Scenarios.June(24));
    DailyCalendarStep(SINGLE_TRAVEL, HOME, s, Scenarios.June(25));
  }

  /** The calendar of one trip answers the table above. */
  method SingleTripCalendar() returns (daily: map<int, Day>)
    ensures daily == SINGLE_TABLE
  {
    var c := new Calendar(PERSON, {SINGLE});
    SingletonSorting(SINGLE, c.tripsOrdered);
    assert TravelDaysUpTo([SINGLE], HOME, 0) == map[];
    assert c.travelDays == SINGLE_TRAVEL;
    daily := c.GetDailyCalendar(Scenarios.June(22), Scenarios.June(26));
    SingleTripTable();
  }

  // ---------------------------------------------------------------------
  // Back-to-back trips: the later trip's first day replaces the earlier
  // trip's last day.

  const FIRST: Trip := Trip(ZURICH, Scenarios.June(23), Scenarios.June(25))
  const SECOND: Trip := Trip(LONDON, Scenarios.June(25), Scenarios.June(27))

  /** 25 June reads home to London: the return from Zurich is overwritten, where
      the logic layer has Zurich to London. */
  method ConnectedTripsTravelDay() returns (entry: Day)
    ensures entry == Day(HOME, LONDON)
  {
    var c := new Calendar(PERSON, {FIRST, SECOND});
    PairSorting(FIRST, SECOND, c.tripsOrdered);
    CalendarTravelDay(c, 1, Scenarios.June(25));
    entry := c.travelDays[Scenarios.June(25)];
  }
}
