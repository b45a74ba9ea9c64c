/** An account of where a person is that is independent of the travel-day
    rules: overnight after day `d` they are at the destination of the
    innermost trip whose stay covers that night, and at home when no trip
    does; a day starts where the previous night was spent and ends where the
    next one is.  The module proves that the travel-day rules of
    schedules/logic/calendar.py give this account whenever no trip lies
    inside another, exhibits nested trips on which they do not, and gives a
    corrected table of travel days that agrees with it on every trip list. */
module Whereabouts {

  import opened Objects
  import opened Sorting
  import opened Itinerary

  /** Trip `t` covers the night after day `d`: it started on or before `d` and ends after `d`. */
  predicate Covers(t: Trip, d: int)
  {
    t.start <= d < t.end
  }

  /** Where the night after day `d` is spent: at the destination of the last
      trip of `l` covering it, or at home when none does. */
  function NightLocation(l: seq<Trip>, home: Location, d: int): (loc: Location)
    ensures (forall i :: 0 <= i < |l| ==> !Covers(l[i], d)) ==> loc == home
    decreases |l|
  {
    if l == [] then home
    else if Covers(l[|l| - 1], d) then l[|l| - 1].location
    else NightLocation(l[..|l| - 1], home, d)
  }

  /** The night is spent at the destination of the last trip covering it. */
  lemma {:induction false} NightAtLastCovering(l: seq<Trip>, home: Location, d: int, i: nat)
    requires i < |l| && Covers(l[i], d)
    requires forall j :: i < j < |l| ==> !Covers(l[j], d)
    ensures NightLocation(l, home, d) == l[i].location
    decreases |l|
  {
    if i < |l| - 1 {
      NightAtLastCovering(l[..|l| - 1], home, d, i);
    }
  }

  /** In a trip list whose starts ascend and whose trips are pairwise
      compatible, the last trip covering a night lies inside every other
      trip covering it: it is the innermost one. */
  lemma LastCoveringIsInnermost(l: seq<Trip>, d: int, i: nat)
    requires StartsAscending(l)
    requires forall a, b :: 0 <= a < b < |l| ==> Compatible(l[a], l[b])
    requires i < |l| && Covers(l[i], d)
    requires forall j :: i < j < |l| ==> !Covers(l[j], d)
    ensures forall j :: 0 <= j < |l| && j != i && Covers(l[j], d) ==> Inside(l[i], l[j])
  {
    forall j | 0 <= j < |l| && j != i && Covers(l[j], d) ensures Inside(l[i], l[j]) {
      assert j < i;
      assert Compatible(l[j], l[i]);
    }
  }

  /** Where day `d` starts and ends: where the night before it and the night after it are spent. */
  function ReferenceEntry(l: seq<Trip>, home: Location, d: int): Day
  {
    Day(NightLocation(l, home, d - 1), NightLocation(l, home, d))
  }

  /** The day-by-day table of the account, from `startDate` to `endDate`: one
      entry per day, each day starting where the one before ended. */
  function ReferenceCalendar(l: seq<Trip>, home: Location, startDate: int, endDate: int): (m: map<int, Day>)
    ensures forall d :: d in m <==> startDate <= d <= endDate
    ensures forall d :: d in m && d + 1 in m ==> m[d].end == m[d + 1].start
  {
    map d | d in Days(startDate, endDate) :: ReferenceEntry(l, home, d)
  }

  /** The first and last days of the trips of `l`. */
  function Boundaries(l: seq<Trip>): (r: set<int>)
    ensures forall d :: d in r <==> exists i :: 0 <= i < |l| && (l[i].start == d || l[i].end == d)
    decreases |l|
  {
    if l == [] then {} else Boundaries(l[..|l| - 1]) + {l[|l| - 1].start, l[|l| - 1].end}
  }

  /** The travel days as they are evidently meant: each first or last day of a
      trip mapped to where that day starts and ends. */
  function CorrectedTravelDays(l: seq<Trip>, home: Location): (m: map<int, Day>)
    ensures m.Keys == Boundaries(l)
  {
    map d | d in Boundaries(l) :: ReferenceEntry(l, home, d)
  }

  /** The corrected travel days fall on the same dates as those of the rules as written. */
  lemma CorrectedTravelDaysKeys(l: seq<Trip>, home: Location)
    ensures CorrectedTravelDays(l, home).Keys == TravelDays(l, home).Keys
  {
    TravelDaysKeys(l, home);
  }

  /** With no trip starting or ending after `p` up to `q`, the night after `q`
      is spent where the night after `p` is. */
  lemma {:induction false} NightStable(l: seq<Trip>, home: Location, p: int, q: int)
    requires p <= q
    requires forall i :: 0 <= i < |l| ==> !(p < l[i].start <= q) && !(p < l[i].end <= q)
    ensures NightLocation(l, home, q) == NightLocation(l, home, p)
    decreases |l|
  {
    if l != [] {
      var t := l[|l| - 1];
      assert Covers(t, q) <==> Covers(t, p);
      NightStable(l[..|l| - 1], home, p, q);
    }
  }

  /** Before the first boundary day and after the last, every day is spent at home. */
  lemma OutsideBoundariesAtHome(l: seq<Trip>, home: Location, d: int)
    requires (forall k :: k in Boundaries(l) ==> d < k) || (forall k :: k in Boundaries(l) ==> k < d)
    ensures ReferenceEntry(l, home, d) == Day(home, home)
  {
    forall i | 0 <= i < |l| ensures !Covers(l[i], d) && !Covers(l[i], d - 1) {
      assert l[i].start in Boundaries(l) && l[i].end in Boundaries(l);
    }
  }

  /** A day that is not a boundary day, with an earlier boundary day `p` and none
      between, starts and ends where the night after `p` is spent. */
  lemma BetweenBoundariesStays(l: seq<Trip>, home: Location, p: int, d: int)
    requires p in Boundaries(l) && p < d && d !in Boundaries(l)
    requires forall k :: k in Boundaries(l) && k < d ==> k <= p
    ensures ReferenceEntry(l, home, d) == Day(NightLocation(l, home, p), NightLocation(l, home, p))
  {
    forall i | 0 <= i < |l| ensures !(p < l[i].start <= d) && !(p < l[i].end <= d) {
      assert l[i].start in Boundaries(l) && l[i].end in Boundaries(l);
    }
    NightStable(l, home, p, d);
    NightStable(l, home, p, d - 1);
  }

  /** Filling the corrected travel days into a table the way `get_daily_calendar`
      does gives the account's entry on every day. */
  lemma CorrectedEntryIsReference(l: seq<Trip>, home: Location, d: int)
    ensures DailyEntry(CorrectedTravelDays(l, home), home, d) == ReferenceEntry(l, home, d)
  {
    var td := CorrectedTravelDays(l, home);
    if OutsideTravel(td, d) {
      OutsideBoundariesAtHome(l, home, d);
    } else if d !in td {
      var p := LatestTravelDayBefore(td, d);
      BetweenBoundariesStays(l, home, p, d);
    }
  }

  /** The table built from the corrected travel days is the account's table. */
  lemma CorrectedCalendarIsReference(l: seq<Trip>, home: Location, startDate: int, endDate: int)
    ensures DailyCalendar(CorrectedTravelDays(l, home), home, startDate, endDate) ==
            ReferenceCalendar(l, home, startDate, endDate)
  {
    var corrected := DailyCalendar(CorrectedTravelDays(l, home), home, startDate, endDate);
    var reference := ReferenceCalendar(l, home, startDate, endDate);
    forall d | d in Days(startDate, endDate) ensures corrected[d] == reference[d] {
      CorrectedEntryIsReference(l, home, d);
    }
    assert corrected.Keys == reference.Keys;
  }

  // ---------------------------------------------------------------------
  // The rules as written, on trips that do not nest.

  /** A trip list in which every trip is valid and ends on or before the next one starts. */
  predicate Chain(l: seq<Trip>)
  {
    (forall i :: 0 <= i < |l| ==> l[i].Valid()) &&
    (forall i, j :: 0 <= i < j < |l| ==> l[i].end <= l[j].start)
  }

  /** The trip list of a consistent set in which no trip lies inside another is a chain. */
  lemma FlatSetIsChain(trips: set<Trip>)
    requires Consistent(trips)
    requires forall a, b :: a in trips && b in trips ==> !Inside(a, b)
    ensures Chain(TripList(trips))
  {
    var l := TripList(trips);
    SortingIsTripList(l, trips);
    forall i, j | 0 <= i < j < |l| ensures l[i].end <= l[j].start {
      assert l[i] in trips && l[j] in trips;
      assert l[i] != l[j];
      assert Compatible(l[i], l[j]);
    }
  }

  /** On a chain, the night after a trip's first day is spent at its destination. */
  lemma ChainNightOfStart(l: seq<Trip>, home: Location, i: nat)
    requires Chain(l) && i < |l|
    ensures NightLocation(l, home, l[i].start) == l[i].location
  {
    forall j | i < j < |l| ensures !Covers(l[j], l[i].start) {
      assert l[i].end <= l[j].start;
    }
    NightAtLastCovering(l, home, l[i].start, i);
  }

  /** On a chain, the night before a trip's first day is spent at the previous
      trip's destination when that trip ends that day, and at home otherwise. */
  lemma ChainNightBeforeStart(l: seq<Trip>, home: Location, i: nat)
    requires Chain(l) && i < |l|
    ensures NightLocation(l, home, l[i].start - 1) ==
            if i > 0 && l[i].start <= l[i - 1].end then l[i - 1].location else home
  {
    var d := l[i].start;
    if i > 0 && d <= l[i - 1].end {
      forall j | i - 1 < j < |l| ensures !Covers(l[j], d - 1) {
        assert l[i - 1].end <= l[j].start;
      }
      NightAtLastCovering(l, home, d - 1, i - 1);
    } else {
      forall j | 0 <= j < |l| ensures !Covers(l[j], d - 1) {
        if j < i - 1 {
          assert l[j].end <= l[i - 1].start;
        } else if j > i {
          assert l[i].end <= l[j].start;
        }
      }
    }
  }

  /** On a chain, the start-of-trip rule gives the account's entry of the trip's first day. */
  lemma ChainStartEntry(l: seq<Trip>, home: Location, i: nat)
    requires Chain(l) && i < |l|
    ensures TravelStart(l, home, i) == ReferenceEntry(l, home, l[i].start)
  {
    ChainNightOfStart(l, home, i);
    ChainNightBeforeStart(l, home, i);
    if i > 0 {
      assert l[0].end <= l[i].start;
    }
  }

  /** On a chain, the end-of-trip rule gives the account's entry of the trip's
      last day when no trip starts that day. */
  lemma ChainEndEntry(l: seq<Trip>, home: Location, i: nat)
    requires Chain(l) && i < |l|
    requires forall j :: i < j < |l| ==> l[j].start != l[i].end
    ensures TravelEnd(l, home, i) == ReferenceEntry(l, home, l[i].end)
  {
    var d := l[i].end;
    assert forall j :: i < j < |l| ==> l[j].start > d by {
      forall j | i < j < |l| ensures l[j].start > d {
        assert l[i].end <= l[j].start;
      }
    }
    assert forall j :: 0 <= j < i ==> l[j].end <= l[i].start < d;
    NightAtLastCovering(l, home, d - 1, i);
    assert NightLocation(l, home, d) == home;
    if i > 0 {
      assert l[i - 1].end <= l[i].start;
    }
    if i < |l| - 1 {
      assert l[i].start < l[|l| - 1].start;
    }
  }

  /** A chain's starts strictly ascend and no two of its trips end on the same day. */
  lemma ChainOrdered(l: seq<Trip>)
    requires Chain(l)
    ensures StartsAscending(l)
    ensures forall t :: t in l ==> t.Valid()
    ensures forall a, b :: 0 <= a < b < |l| ==> l[a].end != l[b].end
  {
    forall a, b | 0 <= a < b < |l| ensures l[a].start < l[b].start && l[a].end != l[b].end {
      assert l[a].end <= l[b].start;
    }
  }

  /** On a chain, the travel day as written on a boundary day is the account's entry. */
  lemma ChainTravelDayIsCorrected(l: seq<Trip>, home: Location, d: int)
    requires Chain(l) && d in Boundaries(l)
    ensures d in TravelDays(l, home) && TravelDays(l, home)[d] == ReferenceEntry(l, home, d)
  {
    ChainOrdered(l);
    if i :| 0 <= i < |l| && l[i].start == d {
      TravelDaysAtStart(l, home, i);
      ChainStartEntry(l, home, i);
    } else {
      var i :| 0 <= i < |l| && l[i].end == d;
      TravelDaysAtEnd(l, home, i);
      ChainEndEntry(l, home, i);
    }
  }

  /** On a chain, the travel days as written are the corrected ones. */
  lemma ChainTravelDaysAreCorrected(l: seq<Trip>, home: Location)
    requires Chain(l)
    ensures TravelDays(l, home) == CorrectedTravelDays(l, home)
  {
    CorrectedTravelDaysKeys(l, home);
    forall d | d in Boundaries(l) ensures TravelDays(l, home)[d] == CorrectedTravelDays(l, home)[d] {
      ChainTravelDayIsCorrected(l, home, d);
    }
  }

  /** For a consistent set of trips none of which lies inside another, the
      daily table as the calendar builds it is the account's table. */
  lemma FlatCalendarIsReference(trips: set<Trip>, home: Location, startDate: int, endDate: int)
    requires Consistent(trips)
    requires forall a, b :: a in trips && b in trips ==> !Inside(a, b)
    ensures DailyCalendar(TravelDays(TripList(trips), home), home, startDate, endDate) ==
            ReferenceCalendar(TripList(trips), home, startDate, endDate)
  {
    FlatSetIsChain(trips);
    ChainTravelDaysAreCorrected(TripList(trips), home);
    CorrectedCalendarIsReference(TripList(trips), home, startDate, endDate);
  }
}
