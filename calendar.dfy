/** The calendars of the logic layer (schedules/logic/calendar.py): one
    person's calendar, which keeps a set of trips and a lazily filled sorted
    list of them, and the full calendar, which keeps one such calendar per
    person and answers front-end requests. */
module Calendar {

  import opened Wrappers
  import opened Errors
  import opened Requests
  import opened Objects
  import opened Sorting
  import opened Itinerary

  /** The trip list of a trip set, as `sorted` orders it by `(start_date, end_date)`. */
  ghost function SortedTrips(trips: set<Trip>): seq<Trip>
  {
    TripList(trips)
  }

  /** The body of the loop of `get_daily_calendar`: where the person is on `day`,
      given the travel days. */
  method LocateDay(travelDays: map<int, Day>, home: Location, day: int) returns (entry: Day)
    ensures entry == DailyEntry(travelDays, home, day)
  {
    if |travelDays| == 0 {
      return Day(home, home);
    }
    var first := LeastOf(travelDays.Keys, AscendingKey);
    var last := LeastOf(travelDays.Keys, DescendingKey);
    OutsideIffBeyondExtremes(travelDays, day, first, last);
    if day < first || day > last {
      entry := Day(home, home);
    } else if day in travelDays {
      entry := travelDays[day];
    } else {
      var below := set k | k in travelDays && k < day;
      assert first in below;
      var lastTravelDay := LeastOf(below, DescendingKey);
      LatestTravelDayBeforeIs(travelDays, day, below, lastTravelDay);
      var lastTravelEnd := travelDays[lastTravelDay].end;
      entry := Day(lastTravelEnd, lastTravelEnd);
    }
  }

  /** The loop of `get_daily_calendar`: one entry per day of the range, in order. */
  method BuildDailyCalendar(travelDays: map<int, Day>, home: Location, startDate: int, endDate: int)
    returns (daily: map<int, Day>)
    ensures daily == DailyCalendar(travelDays, home, startDate, endDate)
  {
    var numDays := endDate - startDate + 1;
    daily := map[];
    var i := 0;
    DailyCalendarStep(travelDays, home, startDate, startDate - 1);
    while i < numDays
      invariant 0 <= i <= if numDays > 0 then numDays else 0
      invariant daily == DailyCalendar(travelDays, home, startDate, startDate + i - 1)
    {
      var day := startDate + i;
      var entry := LocateDay(travelDays, home, day);
      DailyCalendarStep(travelDays, home, startDate, day - 1);
      daily := daily[day := entry];
      i := i + 1;
    }
    if numDays <= 0 {
      assert DailyCalendar(travelDays, home, startDate, endDate).Keys == {};
    }
  }

  class SinglePersonCalendar {
    const person: Person
    const home: Location
    var trips: set<Trip>
    /** The sorted trip list, once computed; cleared whenever a trip is added. */
    var tripListCache: Option<seq<Trip>>

    /** The trips are valid and pairwise compatible, and a filled cache holds their trip list. */
    ghost predicate Valid()
      reads this
    {
      person.Valid() && home == person.home && Consistent(trips) &&
      (tripListCache.Some? ==> tripListCache.value == SortedTrips(trips))
    }

    constructor (person: Person)
      requires person.Valid()
      ensures Valid()
      ensures this.person == person && trips == {} && tripListCache == None
    {
      this.person := person;
      this.home := person.home;
      trips := {};
      tripListCache := None;
    }

    /** `_raise_if_invalid_trip`: checks the candidate against every existing trip,
        failing with the first rule it breaks against the first such trip met. */
    method RaiseIfInvalidTrip(candidate: Trip) returns (r: Outcome<Exception>)
      ensures r.Pass? <==> forall e :: e in trips ==> Violation(candidate, e).None?
      ensures r.Fail? ==> exists e :: e in trips && Violation(candidate, e).Some? &&
                            r.error == CalendarError(RuleMessage(Violation(candidate, e).value, candidate, e))
    {
      var unchecked := trips;
      while unchecked != {}
        invariant unchecked <= trips
        invariant forall e :: e in trips - unchecked ==> Violation(candidate, e).None?
        decreases unchecked
      {
        var existing :| existing in unchecked;
        match Violation(candidate, existing)
        case Some(rule) =>
          return Fail(CalendarError(RuleMessage(rule, candidate, existing)));
        case None =>
        unchecked := unchecked - {existing};
      }
      return Pass;
    }

    /** `trip_list`: the trips ordered by `(start_date, end_date)`, sorted on the
        first read after a change and then served from the cache. */
    method TripList() returns (l: seq<Trip>)
      requires Valid()
      modifies this`tripListCache
      ensures Valid()
      ensures l == SortedTrips(trips) && IsSortingOf(l, trips, TripKey) && StartsAscending(l)
      ensures tripListCache == Some(l)
      ensures old(tripListCache).Some? ==> l == old(tripListCache).value
    {
      if tripListCache.None? {
        var sorted := SortByKey(trips, TripKey);
        SortingIsTripList(sorted, trips);
        tripListCache := Some(sorted);
      }
      l := tripListCache.value;
      SortingIsTripList(l, trips);
    }

    /** `add_trip`: clears the cache, then adds the trip unless it breaks a rule
        against an existing trip, in which case the trip set is left as it was. */
    method AddTrip(trip: Trip) returns (r: Outcome<Exception>)
      requires Valid() && trip.Valid()
      modifies this`trips, this`tripListCache
      ensures Valid()
      ensures tripListCache == None
      ensures r.Pass? <==> forall e :: e in old(trips) ==> Violation(trip, e).None?
      ensures trips == if r.Pass? then old(trips) + {trip} else old(trips)
      ensures r.Pass? ==> trip !in old(trips)
      ensures r.Fail? ==> exists e :: e in old(trips) && Violation(trip, e).Some? &&
                            r.error == CalendarError(RuleMessage(Violation(trip, e).value, trip, e))
    {
      tripListCache := None;
      r := RaiseIfInvalidTrip(trip);
      if r.Pass? {
        AcceptedKeepsConsistent(trips, trip);
        trips := trips + {trip};
      }
    }

    /** `_get_travel_days`: for each trip of the trip list in order, the entry of
        its first day and then that of its last day. */
    method GetTravelDays() returns (travelDays: map<int, Day>)
      requires Valid()
      modifies this`tripListCache
      ensures Valid()
      ensures travelDays == TravelDays(SortedTrips(trips), home)
    {
      if trips == {} {
        assert |SortedTrips(trips)| == |multiset(SortedTrips(trips))| == 0;
        return map[];
      }
      var l := TripList();
      travelDays := map[];
      var i := 0;
      while i < |l|
        invariant 0 <= i <= |l|
        invariant travelDays == TravelDaysUpTo(l, home, i)
      {
        travelDays := travelDays[l[i].start := TravelStart(l, home, i)];
        travelDays := travelDays[l[i].end := TravelEnd(l, home, i)];
        i := i + 1;
      }
    }

    /** `get_daily_calendar`: the entry of every day from `startDate` to `endDate`,
        both included. */
    method GetDailyCalendar(startDate: int, endDate: int) returns (daily: map<int, Day>)
      requires Valid()
      modifies this`tripListCache
      ensures Valid()
      ensures daily == DailyCalendar(TravelDays(SortedTrips(trips), home), home, startDate, endDate)
    {
      var travelDays := GetTravelDays();
      daily := BuildDailyCalendar(travelDays, home, startDate, endDate);
    }
  }

  /** The message of the error raised for a person who already has a calendar. */
  function DuplicatePersonMessage(person: Person): string
  {
    "Person " + PersonRepr(person) + " is already in calendar."
  }

  class FullCalendar {
    var calendars: map<Person, SinglePersonCalendar>

    /** Every calendar belongs to the person it is filed under and is valid. */
    ghost predicate Valid()
      reads this, calendars.Values
    {
      forall p :: p in calendars ==> calendars[p].person == p && calendars[p].Valid()
    }

    constructor ()
      ensures Valid() && calendars == map[]
    {
      calendars := map[];
    }

    /** `_add_person`: rejects a person already present, and otherwise files a new,
        empty calendar under them. */
    method AddPerson(person: Person) returns (r: Outcome<Exception>)
      requires Valid() && person.Valid()
      modifies this
      ensures Valid()
      ensures r.Fail? <==> person in old(calendars)
      ensures r.Fail? ==> calendars == old(calendars) &&
                          r == Fail(CalendarError(DuplicatePersonMessage(person)))
      ensures r.Pass? ==> calendars.Keys == old(calendars).Keys + {person} && fresh(calendars[person]) &&
                          calendars[person].trips == {} && calendars[person].tripListCache == None &&
                          forall p :: p in old(calendars) ==> calendars[p] == old(calendars)[p]
    {
      if person in calendars {
        return Fail(CalendarError(DuplicatePersonMessage(person)));
      }
      var c := new SinglePersonCalendar(person);
      calendars := calendars[person := c];
      r := Pass;
    }

    /** `process_frontend_request`: parses the request (failures there are raised to
        the caller), then for `ADD_PERSON` builds the person and adds them, answering
        200 on success and 400 for a `CalendarBaseException`; any other exception is
        raised to the caller. */
    method ProcessFrontendRequest(requestRaw: map<string, Value>) returns (r: Result<Response, Exception>)
      requires Valid()
      modifies this
      ensures Valid()
      ensures NewRequest(requestRaw).Failure? ==>
                r == Failure(NewRequest(requestRaw).error) && calendars == old(calendars)
      ensures NewRequest(requestRaw).Success? && PersonFromRequest(NewRequest(requestRaw).value).Failure? ==>
                calendars == old(calendars) &&
                var e := PersonFromRequest(NewRequest(requestRaw).value).error;
                r == if IsCalendarBase(e) then Success(Response(400, "Failed to add person: " + e.message)) else Failure(e)
      ensures NewRequest(requestRaw).Success? && PersonFromRequest(NewRequest(requestRaw).value).Success? ==>
                var p := PersonFromRequest(NewRequest(requestRaw).value).value;
                if p in old(calendars) then
                  calendars == old(calendars) &&
                  r == Success(Response(400, "Failed to add person: " + DuplicatePersonMessage(p)))
                else
                  calendars.Keys == old(calendars).Keys + {p} &&
                  fresh(calendars[p]) && calendars[p].trips == {} && calendars[p].tripListCache == None &&
                  (forall q :: q in old(calendars) ==> calendars[q] == old(calendars)[q]) &&
                  r == Success(Response(200, "Added person " + PersonRepr(p) + "."))
    {
      var request := NewRequest(requestRaw);
      if request.Failure? {
        return Failure(request.error);
      }
      match request.value.requestType
      case ADD_PERSON =>
        var person := PersonFromRequest(request.value);
        if person.Failure? {
          if IsCalendarBase(person.error) {
            return Success(Response(400, "Failed to add person: " + person.error.message));
          }
          return Failure(person.error);
        }
        var added := AddPerson(person.value);
        if added.Fail? {
          return Success(Response(400, "Failed to add person: " + added.error.message));
        }
        return Success(Response(200, "Added person " + PersonRepr(person.value) + "."));
    }
  }
}
