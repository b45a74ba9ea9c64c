/** The pure part of one person's calendar (schedules/logic/calendar.py):
    the rules a new trip must pass, the order of the trip list, the
    locations on each trip's first and last day, and the day-by-day table
    derived from those travel days. Dates are day numbers. */
module Itinerary {

  import opened Wrappers
  import opened Objects
  import opened Sorting

  /** The sort key of a trip: `(start_date, end_date)`. */
  function TripKey(t: Trip): (int, int)
  {
    (t.start, t.end)
  }

  // ---------------------------------------------------------------------
  // The rules a candidate trip is checked against, for each existing trip.

  datatype Rule =
    | SameStart      // same start date
    | SameEnd        // same end date
    | OverlapsStart  // starts before the existing trip and ends after its start
    | OverlapsEnd    // starts before the existing trip's end and ends after it

  /** The first rule, in the order they are checked, that `candidate` breaks
      against `existing`, if any. */
  function Violation(candidate: Trip, existing: Trip): Option<Rule>
  {
    if candidate.start == existing.start then Some(SameStart)
    else if candidate.end == existing.end then Some(SameEnd)
    else if candidate.start < existing.start && candidate.end > existing.start then Some(OverlapsStart)
    else if candidate.start < existing.end && candidate.end > existing.end then Some(OverlapsEnd)
    else None
  }

  /** The message of the `CalendarError` raised for a broken rule. */
  function RuleMessage(rule: Rule, candidate: Trip, existing: Trip): string
  {
    match rule
    case SameStart => "Candidate " + TripRepr(candidate) + " has same start date as " + TripRepr(existing) + "."
    case SameEnd => "Candidate " + TripRepr(candidate) + " has same end date as " + TripRepr(existing) + "."
    case _ => "Candidate " + TripRepr(candidate) + " falls partially in " + TripRepr(existing) + "."
  }

  /** `inner` lies strictly inside `outer`. */
  predicate Inside(inner: Trip, outer: Trip)
  {
    outer.start < inner.start && inner.end < outer.end
  }

  /** The rules accept a candidate exactly when it ends on or before the
      existing trip's start, starts on or after its end, or lies strictly inside it. */
  lemma AcceptedIffBeforeAfterOrInside(candidate: Trip, existing: Trip)
    requires candidate.Valid() && existing.Valid()
    ensures Violation(candidate, existing).None? <==>
            candidate.end <= existing.start || existing.end <= candidate.start || Inside(candidate, existing)
  {
  }

  /** A candidate that starts before an existing trip and ends after that trip
      starts is rejected; this includes a candidate that contains the existing trip. */
  lemma OverlappingStartRejected(candidate: Trip, existing: Trip)
    requires candidate.start < existing.start < candidate.end
    ensures Violation(candidate, existing) == Some(OverlapsStart) ||
            (candidate.end == existing.end && Violation(candidate, existing) == Some(SameEnd))
  {
  }

  /** A candidate that starts before an existing trip ends and ends after it is rejected. */
  lemma OverlappingEndRejected(candidate: Trip, existing: Trip)
    requires candidate.start < existing.end < candidate.end
    ensures Violation(candidate, existing).Some?
  {
  }

  /** Two trips of one calendar: one ends no later than the other starts, or
      one lies strictly inside the other. */
  predicate Compatible(a: Trip, b: Trip)
  {
    a.end <= b.start || b.end <= a.start || Inside(a, b) || Inside(b, a)
  }

  /** The invariant of a calendar's trip set: every trip is valid and any two are compatible. */
  ghost predicate Consistent(trips: set<Trip>)
  {
    (forall t :: t in trips ==> t.Valid()) &&
    (forall a, b :: a in trips && b in trips && a != b ==> Compatible(a, b))
  }

  /** Adding a valid candidate that every existing trip accepts keeps the set consistent. */
  lemma AcceptedKeepsConsistent(trips: set<Trip>, candidate: Trip)
    requires Consistent(trips) && candidate.Valid()
    requires forall e :: e in trips ==> Violation(candidate, e).None?
    ensures candidate !in trips
    ensures Consistent(trips + {candidate})
  {
    forall e | e in trips ensures Compatible(candidate, e) && Compatible(e, candidate) && e != candidate {
      AcceptedIffBeforeAfterOrInside(candidate, e);
    }
  }

  /** In a consistent set no two trips share a start date or an end date. */
  lemma ConsistentEndpointsDistinct(trips: set<Trip>)
    requires Consistent(trips)
    ensures forall a, b :: a in trips && b in trips && a.start == b.start ==> a == b
    ensures forall a, b :: a in trips && b in trips && a.end == b.end ==> a == b
    ensures KeyInjective(trips, TripKey)
  {
  }

  // ---------------------------------------------------------------------
  // The trip list.

  /** Trips in strictly ascending start order. */
  predicate StartsAscending(l: seq<Trip>)
  {
    forall i, j :: 0 <= i < j < |l| ==> l[i].start < l[j].start
  }

  /** The trip list of a trip set: its trips ordered by `(start_date, end_date)`. */
  ghost function TripList(trips: set<Trip>): (l: seq<Trip>)
    ensures IsSortingOf(l, trips, TripKey)
  {
    SortedOf(trips, TripKey)
  }

  /** Any sorting of a consistent set is its trip list, and its starts strictly ascend. */
  lemma SortingIsTripList(l: seq<Trip>, trips: set<Trip>)
    requires Consistent(trips) && IsSortingOf(l, trips, TripKey)
    ensures l == TripList(trips)
    ensures StartsAscending(l)
    ensures forall i :: 0 <= i < |l| ==> l[i] in trips
  {
    ConsistentEndpointsDistinct(trips);
    SortingUnique(l, TripList(trips), trips, TripKey);
    forall i | 0 <= i < |l| ensures l[i] in trips {
      assert l[i] in multiset(l);
    }
    SortingDistinct(l, trips, TripKey);
    forall i, j | 0 <= i < j < |l| ensures l[i].start < l[j].start {
      assert KeyLe(TripKey(l[i]), TripKey(l[j]));
    }
  }

  /** A list of consistent trips with strictly ascending starts is the trip list of its set. */
  lemma AscendingListIsTripList(l: seq<Trip>)
    requires StartsAscending(l)
    requires Consistent(set t | t in l)
    ensures TripList(set t | t in l) == l
  {
    var trips := set t | t in l;
    DistinctListMultiset(l);
    assert SortedBy(l, TripKey) by {
      forall i, j | 0 <= i < j < |l| ensures KeyLe(TripKey(l[i]), TripKey(l[j])) {
      }
    }
    SortingIsTripList(l, trips);
  }

  // ---------------------------------------------------------------------
  // Travel days.

  /** Where the day that trip `i` of the list `l` starts begins and ends:
      from home for the first trip; straight from the previous trip's
      destination when the trip starts on or before the previous trip's last
      day; otherwise from home. */
  function TravelStart(l: seq<Trip>, home: Location, i: nat): (d: Day)
    requires i < |l|
    ensures d.end == l[i].location
  {
    var trip := l[i];
    if trip == l[0] then Day(home, trip.location)
    else if trip.start <= l[i - 1].end then Day(l[i - 1].location, trip.location)
    else Day(home, trip.location)
  }

  /** Where the day that trip `i` of `l` ends begins and ends: back to the
      previous trip's destination when the trip ends before the previous
      trip does; otherwise home after the last trip; otherwise straight on to
      the next trip when it starts that day; otherwise home. */
  function TravelEnd(l: seq<Trip>, home: Location, i: nat): (d: Day)
    requires i < |l|
    ensures d.start == l[i].location
  {
    var trip := l[i];
    if trip != l[0] && trip.end < l[i - 1].end then Day(trip.location, l[i - 1].location)
    else if trip == l[|l| - 1] then Day(trip.location, home)
    else if trip.end == l[i + 1].start then Day(trip.location, l[i + 1].location)
    else Day(trip.location, home)
  }

  /** The travel days written by the first `n` trips of `l`, each trip writing
      its start day and then its end day over what was there. */
  function TravelDaysUpTo(l: seq<Trip>, home: Location, n: nat): map<int, Day>
    requires n <= |l|
  {
    if n == 0 then map[]
    else TravelDaysUpTo(l, home, n - 1)[l[n - 1].start := TravelStart(l, home, n - 1)]
                                        [l[n - 1].end := TravelEnd(l, home, n - 1)]
  }

  /** The travel days of a trip list. */
  function TravelDays(l: seq<Trip>, home: Location): map<int, Day>
  {
    TravelDaysUpTo(l, home, |l|)
  }

  /** The travel days are exactly the first and last days of the trips. */
  lemma {:induction false} TravelDaysUpToKeys(l: seq<Trip>, home: Location, n: nat)
    requires n <= |l|
    ensures forall d :: d in TravelDaysUpTo(l, home, n) <==>
              exists i :: 0 <= i < n && (l[i].start == d || l[i].end == d)
  {
    if n > 0 {
      TravelDaysUpToKeys(l, home, n - 1);
    }
  }

  lemma TravelDaysKeys(l: seq<Trip>, home: Location)
    ensures forall d :: d in TravelDays(l, home) <==>
              exists i :: 0 <= i < |l| && (l[i].start == d || l[i].end == d)
  {
    TravelDaysUpToKeys(l, home, |l|);
  }

  /** A date that no trip from index `n` on starts or ends keeps the entry written before. */
  lemma {:induction false} TravelDaysUpToStable(l: seq<Trip>, home: Location, n: nat, m: nat, d: int)
    requires n <= m <= |l|
    requires d in TravelDaysUpTo(l, home, n)
    requires forall j :: n <= j < m ==> l[j].start != d && l[j].end != d
    ensures d in TravelDaysUpTo(l, home, m) && TravelDaysUpTo(l, home, m)[d] == TravelDaysUpTo(l, home, n)[d]
    decreases m - n
  {
    if n < m {
      TravelDaysUpToStable(l, home, n, m - 1, d);
    }
  }

  /** The entry of a trip's first day is the start of that trip: no later trip
      of an ascending list starts or ends on it. */
  lemma TravelDaysAtStart(l: seq<Trip>, home: Location, i: nat)
    requires StartsAscending(l) && i < |l|
    requires forall t :: t in l ==> t.Valid()
    ensures l[i].start in TravelDays(l, home)
    ensures TravelDays(l, home)[l[i].start] == TravelStart(l, home, i)
  {
    assert l[i] in l;
    forall j | i + 1 <= j < |l| ensures l[j].start != l[i].start && l[j].end != l[i].start {
      assert l[j] in l;
    }
    TravelDaysUpToStable(l, home, i + 1, |l|, l[i].start);
  }

  /** The entry of a trip's last day is the end of that trip, unless a later trip
      starts that day, whose start then overwrites it. */
  lemma TravelDaysAtEnd(l: seq<Trip>, home: Location, i: nat)
    requires StartsAscending(l) && i < |l|
    requires forall t :: t in l ==> t.Valid()
    requires forall a, b :: 0 <= a < b < |l| ==> l[a].end != l[b].end
    ensures l[i].end in TravelDays(l, home)
    ensures forall j :: i < j < |l| && l[j].start == l[i].end ==>
              TravelDays(l, home)[l[i].end] == TravelStart(l, home, j)
    ensures (forall j :: i < j < |l| ==> l[j].start != l[i].end) ==>
              TravelDays(l, home)[l[i].end] == TravelEnd(l, home, i)
  {
    if j :| i < j < |l| && l[j].start == l[i].end {
      TravelDaysAtStart(l, home, j);
    } else {
      forall j | i + 1 <= j < |l| ensures l[j].start != l[i].end && l[j].end != l[i].end {
      }
      TravelDaysUpToStable(l, home, i + 1, |l|, l[i].end);
    }
  }

  // ---------------------------------------------------------------------
  // The day-by-day table.

  /** Sort keys that order day numbers ascending and descending. */
  function AscendingKey(d: int): (int, int) { (d, 0) }

  function DescendingKey(d: int): (int, int) { (-d, 0) }

  /** `d` comes before every travel day or after every one; with no travel
      days this holds of every day. */
  predicate OutsideTravel(travelDays: map<int, Day>, d: int)
  {
    (forall k :: k in travelDays ==> d < k) || (forall k :: k in travelDays ==> k < d)
  }

  /** The greatest travel day before `d`. */
  ghost function LatestTravelDayBefore(travelDays: map<int, Day>, d: int): (p: int)
    requires exists k :: k in travelDays && k < d
    ensures p in travelDays && p < d
    ensures forall k :: k in travelDays && k < d ==> k <= p
  {
    var below := set k | k in travelDays && k < d;
    var w :| w in travelDays && w < d;
    assert w in below;
    LeastExists(below, DescendingKey);
    var p :| IsLeast(p, below, DescendingKey);
    assert forall k :: k in travelDays && k < d ==> k in below && KeyLe(DescendingKey(p), DescendingKey(k));
    p
  }

  /** Being outside the travel days is being before the first or after the last of them. */
  lemma OutsideIffBeyondExtremes(travelDays: map<int, Day>, d: int, first: int, last: int)
    requires IsLeast(first, travelDays.Keys, AscendingKey)
    requires IsLeast(last, travelDays.Keys, DescendingKey)
    ensures OutsideTravel(travelDays, d) <==> d < first || d > last
  {
    assert forall k :: k in travelDays.Keys ==> KeyLe(AscendingKey(first), AscendingKey(k));
    assert forall k :: k in travelDays.Keys ==> KeyLe(DescendingKey(last), DescendingKey(k));
  }

  /** The greatest of the travel days before `d` is the latest travel day before `d`. */
  lemma LatestTravelDayBeforeIs(travelDays: map<int, Day>, d: int, below: set<int>, p: int)
    requires below == set k | k in travelDays && k < d
    requires IsLeast(p, below, DescendingKey)
    ensures exists k :: k in travelDays && k < d
    ensures LatestTravelDayBefore(travelDays, d) == p
  {
    assert p in below;
    assert forall k :: k in below ==> KeyLe(DescendingKey(p), DescendingKey(k));
  }

  /** A travel day before `d` with no travel day between it and `d` is the latest one. */
  lemma LatestTravelDayBeforeUnique(travelDays: map<int, Day>, d: int, p: int)
    requires p in travelDays && p < d
    requires forall k :: k in travelDays && k < d ==> k <= p
    ensures LatestTravelDayBefore(travelDays, d) == p
  {
    var q := LatestTravelDayBefore(travelDays, d);
    assert q <= p && p <= q;
  }

  /** Where the person is on day `d`: home all day outside the travel days;
      the travel day's entry on a travel day; otherwise all day where the
      latest earlier travel day ended. */
  ghost function DailyEntry(travelDays: map<int, Day>, home: Location, d: int): Day
  {
    if OutsideTravel(travelDays, d) then Day(home, home)
    else if d in travelDays then travelDays[d]
    else
      var p := LatestTravelDayBefore(travelDays, d);
      Day(travelDays[p].end, travelDays[p].end)
  }

  /** The days from `lo` to `hi`, both included. */
  function Days(lo: int, hi: int): (r: set<int>)
    ensures forall d :: d in r <==> lo <= d <= hi
    decreases hi - lo
  {
    if lo > hi then {} else Days(lo, hi - 1) + {hi}
  }

  lemma {:induction false} DaysSize(lo: int, hi: int)
    ensures |Days(lo, hi)| == if lo <= hi then hi - lo + 1 else 0
    decreases hi - lo
  {
    if lo <= hi {
      DaysSize(lo, hi - 1);
      assert hi !in Days(lo, hi - 1);
    }
  }

  /** The table of every day from `startDate` to `endDate`, both included. */
  ghost function DailyCalendar(travelDays: map<int, Day>, home: Location, startDate: int, endDate: int): map<int, Day>
  {
    map d | d in Days(startDate, endDate) :: DailyEntry(travelDays, home, d)
  }

  /** The table of an empty range is empty, and the table grows one day at a time. */
  lemma DailyCalendarStep(travelDays: map<int, Day>, home: Location, startDate: int, endDate: int)
    ensures DailyCalendar(travelDays, home, startDate, startDate - 1) == map[]
    ensures startDate <= endDate + 1 ==>
              DailyCalendar(travelDays, home, startDate, endDate + 1) ==
              DailyCalendar(travelDays, home, startDate, endDate)[endDate + 1 := DailyEntry(travelDays, home, endDate + 1)]
  {
    assert DailyCalendar(travelDays, home, startDate, startDate - 1).Keys == {};
  }

  /** The table has an entry for exactly the days of the range: `endDate - startDate + 1` of them. */
  lemma DailyCalendarDays(travelDays: map<int, Day>, home: Location, startDate: int, endDate: int)
    ensures forall d :: d in DailyCalendar(travelDays, home, startDate, endDate) <==> startDate <= d <= endDate
    ensures |DailyCalendar(travelDays, home, startDate, endDate)| ==
            if startDate <= endDate then endDate - startDate + 1 else 0
  {
    var m := DailyCalendar(travelDays, home, startDate, endDate);
    assert m.Keys == Days(startDate, endDate);
    DaysSize(startDate, endDate);
  }

  /** With no trips every day of the range is spent at home. */
  lemma NoTripsAllHome(home: Location, startDate: int, endDate: int)
    ensures TravelDays([], home) == map[]
    ensures forall d :: startDate <= d <= endDate ==>
              DailyCalendar(TravelDays([], home), home, startDate, endDate)[d] == Day(home, home)
  {
  }
}
