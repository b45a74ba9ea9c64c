/** The earlier one-person calendar (schedules/calendar.py): a fixed set of
    trips whose travel days are worked out once, when the calendar is made,
    with the simple rule that every trip leaves from home and returns home;
    the day-by-day table has entries only outside the travel period and on
    travel days. Dates are day numbers. */
module LegacyCalendar {

  import opened Wrappers
  import opened Sorting
  import opened LegacyObjects
  import Itinerary

  /** The sort key of a trip: `(start_date, end_date)`. */
  function TripKey(t: Trip): (int, int)
  {
    (t.start, t.end)
  }

  // ---------------------------------------------------------------------
  // Travel days.

  /** `d` is the first or the last day of `t`. */
  predicate Touches(t: Trip, d: int)
  {
    t.start == d || t.end == d
  }

  /** The entry that `t` itself writes for `d`: home to the destination on its
      first day, the destination to home on its last (the later write wins
      on a trip that starts and ends on the same day). */
  function TripEntry(t: Trip, home: Location, d: int): Day
  {
    if t.end == d then Day(t.location, home) else Day(home, t.location)
  }

  /** The travel days written by the first `n` trips of `l`, in order, each
      trip's first day and then its last day, a later write replacing an
      earlier one. */
  function TravelDaysUpTo(l: seq<Trip>, home: Location, n: nat): map<int, Day>
    requires n <= |l|
  {
    if n == 0 then map[]
    else
      var t := l[n - 1];
      TravelDaysUpTo(l, home, n - 1)[t.start := Day(home, t.location)][t.end := Day(t.location, home)]
  }

  function TravelDays(l: seq<Trip>, home: Location): map<int, Day>
  {
    TravelDaysUpTo(l, home, |l|)
  }

  /** The travel days are exactly the first and last days of the trips. */
  lemma {:induction false} TravelDaysUpToKeys(l: seq<Trip>, home: Location, n: nat, d: int)
    requires n <= |l|
    ensures d in TravelDaysUpTo(l, home, n) <==> exists i :: 0 <= i < n && Touches(l[i], d)
  {
    if n > 0 {
      TravelDaysUpToKeys(l, home, n - 1, d);
      if Touches(l[n - 1], d) {
        assert d in TravelDaysUpTo(l, home, n);
      }
    }
  }

  /** A travel day holds the entry written by the last trip that starts or ends on it. */
  lemma {:induction false} TravelDayOfLastTouching(l: seq<Trip>, home: Location, n: nat, j: nat, d: int)
    requires j < n <= |l| && Touches(l[j], d)
    requires forall k :: j < k < n ==> !Touches(l[k], d)
    ensures d in TravelDaysUpTo(l, home, n)
    ensures TravelDaysUpTo(l, home, n)[d] == TripEntry(l[j], home, d)
  {
    if j < n - 1 {
      TravelDayOfLastTouching(l, home, n - 1, j, d);
    }
  }

  predicate IsTripDate(trips: set<Trip>, d: int)
  {
    exists t :: t in trips && Touches(t, d)
  }

  /** The travel days of any ordering of the trips are their first and last days. */
  lemma SortingTravelDaysKeys(l: seq<Trip>, trips: set<Trip>, home: Location, d: int)
    requires IsSortingOf(l, trips, TripKey)
    ensures d in TravelDays(l, home) <==> IsTripDate(trips, d)
  {
    TravelDaysUpToKeys(l, home, |l|, d);
    if d in TravelDays(l, home) {
      var i :| 0 <= i < |l| && Touches(l[i], d);
      assert l[i] in multiset(l);
    }
    if IsTripDate(trips, d) {
      var t :| t in trips && Touches(t, d);
      assert t in multiset(l);
      var i :| 0 <= i < |l| && l[i] == t;
    }
  }

  // ---------------------------------------------------------------------
  // The day-by-day table.

  /** `d` comes before every travel day or after every one; with no travel
      days this holds of every day. */
  predicate OutsideTravel(travelDays: map<int, Day>, d: int)
  {
    (forall k :: k in travelDays ==> d < k) || (forall k :: k in travelDays ==> k < d)
  }

  /** Being outside the travel days is being before the first or after the last of them. */
  lemma OutsideIffBeyondExtremes(travelDays: map<int, Day>, d: int, first: int, last: int)
    requires IsLeast(first, travelDays.Keys, Itinerary.AscendingKey)
    requires IsLeast(last, travelDays.Keys, Itinerary.DescendingKey)
    ensures OutsideTravel(travelDays, d) <==> d < first || d > last
  {
    assert forall k :: k in travelDays.Keys ==> KeyLe(Itinerary.AscendingKey(first), Itinerary.AscendingKey(k));
    assert forall k :: k in travelDays.Keys ==> KeyLe(Itinerary.DescendingKey(last), Itinerary.DescendingKey(k));
  }

  /** The entry of day `d`, if it gets one: home all day outside the travel
      period, the travel day's entry on a travel day, and none on any other
      day, since the loop has no branch for those. */
  ghost function DailyEntry(travelDays: map<int, Day>, home: Location, d: int): Option<Day>
  {
    if OutsideTravel(travelDays, d) then Some(Day(home, home))
    else if d in travelDays then Some(travelDays[d])
    else None
  }

  /** The entries of the days from `startDate` to `endDate` that get one. */
  ghost function DailyCalendar(travelDays: map<int, Day>, home: Location, startDate: int, endDate: int): map<int, Day>
  {
    map d | d in Itinerary.Days(startDate, endDate) && DailyEntry(travelDays, home, d).Some? ::
      DailyEntry(travelDays, home, d).value
  }

  /** The table of an empty range is empty, and the table grows one day at a time. */
  lemma DailyCalendarStep(travelDays: map<int, Day>, home: Location, startDate: int, endDate: int)
    ensures DailyCalendar(travelDays, home, startDate, startDate - 1) == map[]
    ensures startDate <= endDate + 1 ==>
              DailyCalendar(travelDays, home, startDate, endDate + 1) ==
              match DailyEntry(travelDays, home, endDate + 1)
              case Some(entry) => DailyCalendar(travelDays, home, startDate, endDate)[endDate + 1 := entry]
              case None => DailyCalendar(travelDays, home, startDate, endDate)
  {
    assert DailyCalendar(travelDays, home, startDate, startDate - 1).Keys == {};
  }

  /** The body of the loop of `get_daily_calendar`: the entry of `day`, if any. */
  method LocateDay(travelDays: map<int, Day>, home: Location, day: int) returns (entry: Option<Day>)
    ensures entry == DailyEntry(travelDays, home, day)
  {
    if |travelDays| == 0 {
      return Some(Day(home, home));
    }
    var first := LeastOf(travelDays.Keys, Itinerary.AscendingKey);
    var last := LeastOf(travelDays.Keys, Itinerary.DescendingKey);
    OutsideIffBeyondExtremes(travelDays, day, first, last);
    if day < first || day > last {
      entry := Some(Day(home, home));
    } else if day in travelDays {
      entry := Some(travelDays[day]);
    } else {
      entry := None;
    }
  }

  /** The loop of `get_daily_calendar`: walks the range in order and writes the
      entry of each day that gets one. */
  method BuildDailyCalendar(travelDays: map<int, Day>, home: Location, startDate: int, endDate: int)
    returns (daily: map<int, Day>)
    ensures daily == DailyCalendar(travelDays, home, startDate, endDate)
  {
    var numDays := endDate - startDate + 1;
    daily := map[];
    var i := 0;
    DailyCalendarStep(travelDays, home, startDate, startDate - 1);
    while i < numDays
      invariant 0 <= i <= if numDays > 0 then numDays else 0
      invariant daily == DailyCalendar(travelDays, home, startDate, startDate + i - 1)
    {
      var day := startDate + i;
      var entry := LocateDay(travelDays, home, day);
      DailyCalendarStep(travelDays, home, startDate, day - 1);
      if entry.Some? {
        daily := daily[day := entry.value];
      }
      i := i + 1;
    }
    if numDays <= 0 {
      assert DailyCalendar(travelDays, home, startDate, endDate).Keys == {};
    }
  }

  /** Every key of the table lies in the range. */
  lemma DailyCalendarInRange(travelDays: map<int, Day>, home: Location, startDate: int, endDate: int, d: int)
    requires d in DailyCalendar(travelDays, home, startDate, endDate)
    ensures startDate <= d <= endDate
  {
  }

  /** A day strictly between two travel days that is not a travel day itself
      has no entry. */
  lemma InteriorDayAbsent(travelDays: map<int, Day>, home: Location, startDate: int, endDate: int, d: int, a: int, b: int)
    requires a in travelDays && b in travelDays && a < d < b && d !in travelDays
    ensures d !in DailyCalendar(travelDays, home, startDate, endDate)
  {
  }

  /** With no trips every day of the range is spent at home. */
  lemma NoTripsAllHome(home: Location, startDate: int, endDate: int, d: int)
    requires startDate <= d <= endDate
    ensures d in DailyCalendar(TravelDays([], home), home, startDate, endDate)
    ensures DailyCalendar(TravelDays([], home), home, startDate, endDate)[d] == Day(home, home)
  {
  }

  // ---------------------------------------------------------------------
  // The calendar.

  class Calendar {
    const person: Person
    const trips: set<Trip>
    const home: Location
    /** The sorted trip list the travel days were built from. `sorted` is stable,
        so trips sharing both dates keep the set's iteration order, which is not
        modelled: any sorting may be the one. */
    ghost var tripsOrdered: seq<Trip>
    var travelDays: map<int, Day>

    /** The travel days are those of a sorting of the trips. */
    ghost predicate Valid()
      reads this
    {
      home == person.home && IsSortingOf(tripsOrdered, trips, TripKey) &&
      travelDays == TravelDays(tripsOrdered, home)
    }

    /** `__post_init__`: records the home location and works out the travel days once. */
    constructor (person: Person, trips: set<Trip>)
      ensures Valid()
      ensures this.person == person && this.trips == trips && home == person.home
    {
      this.person := person;
      this.trips := trips;
      this.home := person.home;
      new;
      var ordered;
      travelDays, ordered := GetTravelDays();
      tripsOrdered := ordered;
    }

    /** `_get_travel_days`: for each trip of the sorted list, its first day from home
        to the destination and then its last day from the destination to home. */
    method GetTravelDays() returns (travelDays: map<int, Day>, ordered: seq<Trip>)
      ensures IsSortingOf(ordered, trips, TripKey)
      ensures travelDays == TravelDays(ordered, home)
    {
      if trips == {} {
        assert |multiset(trips)| == 0;
        return map[], [];
      }
      var tripsSorted := SortByKey(trips, TripKey);
      ordered := tripsSorted;
      travelDays := map[];
      var i := 0;
      while i < |tripsSorted|
        invariant 0 <= i <= |tripsSorted|
        invariant travelDays == TravelDaysUpTo(tripsSorted, home, i)
      {
        var trip := tripsSorted[i];
        travelDays := travelDays[trip.start := Day(home, trip.location)];
        travelDays := travelDays[trip.end := Day(trip.location, home)];
        i := i + 1;
      }
    }

    /** `get_daily_calendar`: the entries of the days from `startDate` to `endDate`
        that are outside the travel period or travel days. */
    method GetDailyCalendar(startDate: int, endDate: int) returns (daily: map<int, Day>)
      requires Valid()
      ensures daily == DailyCalendar(travelDays, home, startDate, endDate)
      ensures forall d :: d in daily ==> startDate <= d <= endDate
      ensures forall d :: startDate <= d <= endDate && IsTripDate(trips, d) ==>
                d in daily && d in travelDays && daily[d] == travelDays[d]
      ensures forall d :: d in daily && !IsTripDate(trips, d) ==> daily[d] == Day(home, home)
    {
      daily := BuildDailyCalendar(travelDays, home, startDate, endDate);
      forall d | startDate <= d <= endDate && IsTripDate(trips, d)
        ensures d in daily && d in travelDays && daily[d] == travelDays[d]
      {
        SortingTravelDaysKeys(tripsOrdered, trips, home, d);
      }
      forall d | d in daily && !IsTripDate(trips, d)
        ensures daily[d] == Day(home, home)
      {
        SortingTravelDaysKeys(tripsOrdered, trips, home, d);
      }
    }
  }

  /** The travel day of a date is the entry that the last trip of the sorted list
      starting or ending on it writes. */
  lemma CalendarTravelDay(c: Calendar, j: nat, d: int)
    requires c.Valid() && j < |c.tripsOrdered| && Touches(c.tripsOrdered[j], d)
    requires forall k :: j < k < |c.tripsOrdered| ==> !Touches(c.tripsOrdered[k], d)
    ensures d in c.travelDays && c.travelDays[d] == TripEntry(c.tripsOrdered[j], c.home, d)
  {
    TravelDayOfLastTouching(c.tripsOrdered, c.home, |c.tripsOrdered|, j, d);
  }
}
