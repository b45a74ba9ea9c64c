# Trip calendar: a verified model

This project models the scheduling core of a small trip calendar. Each
person has a home location and a set of trips. A trip has a destination, a
first day and a last day. The calendar checks every new trip against the
trips already stored. It works out where the person starts and ends each
trip's first and last day (the *travel days*), and it builds a day-by-day
table of where the person wakes up and goes to sleep.

Two engines are modelled:

- **The logic layer** (`schedules/logic/`). It has four parts:
  - the one-person calendar, `SinglePersonCalendar`, which keeps a mutable set of trips and a sorted-list cache;
  - the multi-person calendar, `FullCalendar`, which answers `ADD_PERSON` requests with a 200 or 400 `Response`;
  - the value types, which check their invariants when they are made;
  - request parsing.
- **The earlier engine** (`schedules/calendar.py`, `schedules/objects.py`).
  - It works out its travel days once, when the calendar is made.
  - Every trip there leaves from home and returns home.
  - Its daily table has no entry for a day inside the travel period that is not a travel day.

Modules, one per source file or concern:

| module | file | models |
|---|---|---|
| `Wrappers` | wrappers.dfy | `Option`, `Result` and `Outcome`, the last standing for a call that returns nothing or raises |
| `Errors` | errors.dfy | the exceptions; `CalendarError` and `RequestError` are the `CalendarBaseException` kinds |
| `Text` | text.dfy | ASCII `lower`, `upper` and `title`, and integer formatting and parsing |
| `Requests` | requests.dfy | `RequestType`, `Request(...)`, `Response.frontend_message` |
| `Objects` | objects.dfy | `Country`, `StrID`, `Location`, `Person`, `Trip`, `Day` and the `from_request` constructors |
| `Sorting` | sorting.dfy | `sorted(..., key=...)` and `min`/`max` with a key |
| `Itinerary` | itinerary.dfy | the trip rules, the trip list, the travel-day rules and the day-by-day table, as functions |
| `Calendar` | calendar.dfy | the classes `SinglePersonCalendar` and `FullCalendar` and their loops |
| `Whereabouts` | whereabouts.dfy | a reference meaning for the tables ("where does the person sleep each night") and a corrected travel-day rule |
| `Scenarios` | scenarios.dfy | the test cases of the logic layer as lemmas and methods |
| `LegacyObjects`, `LegacyCalendar`, `LegacyScenarios` | legacy_*.dfy | the earlier engine |

Modelling choices:

- **Dates** are integer day numbers, as `date.toordinal()` gives them.
  - `Scenarios.June(d)` is the day number of `d` June 2024.
  - A day count `(end - start).days` is `end - start`.
- **Exceptions** are values.
  - An operation that may raise returns `Result` or `Outcome`.
  - Each exception is one constructor of `Errors.Exception`, carrying the message the source builds, except where "## Left out" says otherwise.
- **Raw request values** are `Requests.Value`: a string, or any other value kept as the text `str()` gives for it.
  - `payload.get(key)` on a missing key gives the text `"None"`, as `str(None)` does.
- **`strptime`** is a parameter `parseDate` of `Objects.TripFromRequest`. It is a library call.
- **Mutable state** is held by classes:
  - the trip set and the cache of `SinglePersonCalendar`;
  - the `calendars` dictionary of `FullCalendar`;
  - the `_travel_days` attribute of the earlier `Calendar`.
- **The loops** become methods with loop invariants, each proved equal to a specification function:
  - the rule check over the trip set;
  - the travel-day loop;
  - the day-by-day loop;
  - `min` and `max` over the travel days;
  - `sorted`.

Three behaviours of the code that shape the model:

- **Nesting is one-sided.**
  - A trip that is inside an existing trip is accepted.
  - A trip that *contains* an existing trip is refused by the third rule (`schedules/logic/calendar.py:32-33`).
  - `Itinerary.AcceptedIffBeforeAfterOrInside` states this.
- **Persons compare by value.** `Person` is a frozen dataclass (`schedules/logic/objects.py:53-57`), so two persons with equal names and home are the same key of `FullCalendar.calendars`.
- **The logic-layer travel-day rule looks only at a trip's neighbours in the sorted list** (`schedules/logic/calendar.py:50-82`).
  - So it does not return a person to an enclosing trip after a second nested trip. See "## Findings".
  - The classes keep the code's behaviour.
  - The corrected rule is modelled beside it, in `Whereabouts`.

## Model

| member | source | states |
|---|---|---|
| `Text.Lower` | schedules/logic/objects.py:22-23 | `str.lower` keeps the length and maps each character through the ASCII case map |
| `Text.SameLowerIffEqualIgnoringCase` | schedules/logic/objects.py:19-23 | two strings lower to the same string exactly when they are equal up to letter case |
| `Text.LowerOfTitle` | schedules/logic/objects.py:25-26 | lowering the title-cased form of a string gives the lowered string back |
| `Text.LowerOfUpper` | schedules/logic/objects.py:34-35 | lowering the upper-cased form of a lower-case string gives it back |
| `Text.IntToStringRoundTrip` | schedules/logic/requests.py:44 | the decimal text of a status code reads back as that code |
| `Requests.RequestTypeOf` | schedules/logic/requests.py:14-17 | `ADD_PERSON` is the only request type; a string names a request type exactly when it is its value |
| `Requests.RequestTypeRoundTrip` | schedules/logic/requests.py:14-17 | looking up the value of a request type gives that type |
| `Requests.NewRequest` | schedules/logic/requests.py:23-31 | a missing or non-string `request_type` fails with the "must contain key" `RequestError`; an unknown type fails with "Unknown request type"; otherwise the request has that type and a payload equal to the raw map without the type key, key for key |
| `Requests.FrontendMessageRoundTrip` | schedules/logic/requests.py:41-44 | `Error (<code>): <message>` names its response unambiguously: it parses back to the same code and message |
| `Objects.CountryByName` | schedules/logic/objects.py:12-16 | `Country[name]` finds the member with exactly that name, and there is none for any other string |
| `Objects.CountryByNameRoundTrip` | schedules/logic/objects.py:12-16 | every country is found by its own name |
| `Objects.NewStrID` | schedules/logic/objects.py:22-23 | an identifier holds no upper-case letter and equals its source string up to case |
| `Objects.StrIDCaseInsensitive` | schedules/logic/objects.py:19-23 | two strings give the same identifier exactly when they differ only in letter case |
| `Objects.StrIDIdempotent` | schedules/logic/objects.py:22-23 | normalising an identifier again changes nothing |
| `Objects.StrIDRepr` | schedules/logic/objects.py:25-26 | the title-cased `repr` of an identifier names the same identifier |
| `Objects.NewLocation` | schedules/logic/objects.py:37-39 | a location is built exactly when the city is non-empty; otherwise `RequestError` "City name must be set" |
| `Objects.LocationFromRequest` | schedules/logic/objects.py:41-46 | the country is looked up by member name, and an unknown name raises `KeyError` with that name; the city is the lowered payload text; success needs a known country and a non-empty city |
| `Objects.NewPerson` | schedules/logic/objects.py:59-61 | a person is built exactly when both names are non-empty; otherwise it fails with a `RequestError` |
| `Objects.PersonFromRequest` | schedules/logic/objects.py:63-69 | the names are the lowered payload texts and the home is `Location.from_request`; a home failure is passed on first; success needs a valid home and both names non-empty |
| `Objects.NewTrip` | schedules/logic/objects.py:86-88 | a trip is built exactly when it starts strictly before it ends; otherwise it fails with a `ValueError` naming both dates, which is not a `CalendarBaseException` |
| `Objects.PayloadDate` | schedules/logic/objects.py:94-95 | a date field parses exactly when the key is present, holds a string, and the date parser accepts it; the day is the parser's |
| `Objects.TripFromRequest` | schedules/logic/objects.py:90-96 | the trip has the request's location and parsed dates; it is built exactly when the location builds, both dates parse, and the start is before the end |
| `Objects.LocationFromRequestRoundTrip` | schedules/logic/objects.py:41-46 | a valid location is rebuilt from the payload that names it |
| `Objects.PersonFromRequestRoundTrip` | schedules/logic/objects.py:63-69 | a valid person is rebuilt from the payload that names them |
| `Objects.TripFromRequestRoundTrip` | schedules/logic/objects.py:90-96 | given a date parser that reads back a date formatter's output, a valid trip is rebuilt from the payload that names it |
| `Sorting.SortByKey` | schedules/logic/calendar.py:41 | `sorted` returns every element of the set exactly once, in ascending `(start, end)` order |
| `Sorting.LeastOf` | schedules/logic/calendar.py:104 | `min` over a non-empty set returns an element no greater than any other |
| `Sorting.SortingUnique` | schedules/logic/calendar.py:41 | when no two elements share a key, the sorted list is unique |
| `Sorting.SortingDistinct` | schedules/logic/calendar.py:41 | a sorting of a set lists no element twice |
| `Itinerary.AcceptedIffBeforeAfterOrInside` | schedules/logic/calendar.py:25-35 | a valid candidate passes the four rules against a valid trip exactly when it ends no later than that trip starts, starts no earlier than it ends, or lies strictly inside it |
| `Itinerary.OverlappingStartRejected` | schedules/logic/calendar.py:32-33 | a candidate that starts before an existing trip and ends after its start is refused, also when it contains that trip |
| `Itinerary.OverlappingEndRejected` | schedules/logic/calendar.py:34-35 | a candidate that starts before an existing trip's end and ends after it is refused |
| `Itinerary.AcceptedKeepsConsistent` | schedules/logic/calendar.py:44-48 | adding a valid trip that every stored trip accepts keeps the set pairwise compatible, and the trip was not already stored |
| `Itinerary.ConsistentEndpointsDistinct` | schedules/logic/calendar.py:28-31 | in a stored trip set no two trips share a start date or an end date |
| `Itinerary.SortingIsTripList` | schedules/logic/calendar.py:37-42 | any sorting of a stored set is its trip list, and its start dates strictly ascend |
| `Itinerary.AscendingListIsTripList` | schedules/logic/calendar.py:37-42 | a compatible list with ascending starts is the trip list of its own set |
| `Itinerary.TravelDaysKeys` | schedules/logic/calendar.py:84-94 | the travel days are exactly the first and last days of the trips |
| `Itinerary.TravelDaysAtStart` | schedules/logic/calendar.py:90-91 | a trip's first day holds the start-of-trip entry |
| `Itinerary.TravelDaysAtEnd` | schedules/logic/calendar.py:90-92 | a trip's last day holds the end-of-trip entry, unless a later trip starts that day, which then overwrites it |
| `Itinerary.OutsideIffBeyondExtremes` | schedules/logic/calendar.py:104 | a day is before or after every travel day exactly when it is below `min` or above `max` of them |
| `Itinerary.LatestTravelDayBefore` | schedules/logic/calendar.py:109 | the greatest travel day before a day is a travel day before it, and no later travel day precedes the day |
| `Itinerary.DailyCalendarDays` | schedules/logic/calendar.py:96-113 | the daily table has an entry for exactly the days from start to end: `end - start + 1` of them |
| `Itinerary.NoTripsAllHome` | schedules/logic/calendar.py:104-105 | with no trips, there are no travel days and every day of the range is home all day |
| `Calendar.LocateDay` | schedules/logic/calendar.py:104-111 | the loop body gives the entry of the day: home outside the travel period, the travel day's entry on a travel day, otherwise all day where the latest earlier travel day ended |
| `Calendar.BuildDailyCalendar` | schedules/logic/calendar.py:98-113 | the loop over the range builds the daily table |
| `Calendar.SinglePersonCalendar.constructor` | schedules/logic/calendar.py:15-20 | a new calendar has no trips and an empty cache |
| `Calendar.SinglePersonCalendar.RaiseIfInvalidTrip` | schedules/logic/calendar.py:25-35 | passes exactly when no stored trip refuses the candidate; otherwise raises `CalendarError` with the message of a rule a stored trip breaks |
| `Calendar.SinglePersonCalendar.TripList` | schedules/logic/calendar.py:37-42 | returns the trips sorted by `(start, end)`, a permutation of the set with strictly ascending starts; fills the cache, and returns the cached list unchanged when there is one |
| `Calendar.SinglePersonCalendar.AddTrip` | schedules/logic/calendar.py:44-48 | clears the cache in every case; adds the trip exactly when no stored trip refuses it, and otherwise leaves the set unchanged and raises `CalendarError`; keeps the set compatible |
| `Calendar.SinglePersonCalendar.GetTravelDays` | schedules/logic/calendar.py:84-94 | the travel days of the trip list, each trip writing its start entry and then its end entry |
| `Calendar.SinglePersonCalendar.GetDailyCalendar` | schedules/logic/calendar.py:96-113 | the daily table of the calendar's travel days over the inclusive range |
| `Calendar.FullCalendar.constructor` | schedules/logic/calendar.py:119-120 | a new full calendar holds no person |
| `Calendar.FullCalendar.AddPerson` | schedules/logic/calendar.py:125-129 | a person already present is refused with `CalendarError` "Person ... is already in calendar." and the map unchanged; otherwise a fresh calendar with no trips is filed under them and the other entries are kept |
| `Calendar.FullCalendar.ProcessFrontendRequest` | schedules/logic/calendar.py:131-143 | a request error is raised to the caller; a person error of kind `CalendarBaseException` answers 400 with its message, any other is raised; a duplicate person answers 400; a new person is added with a fresh, empty calendar, every other person's calendar is kept, and it answers 200 "Added person ..." |
| `Whereabouts.NightAtLastCovering` | schedules/logic/calendar.py:50-82 | the night after a day is spent at the destination of the last trip of the list whose stay covers that night |
| `Whereabouts.LastCoveringIsInnermost` | schedules/logic/calendar.py:50-82 | in a compatible ascending list, the last trip covering a night lies inside every other trip covering it |
| `Whereabouts.ReferenceCalendar` | schedules/logic/calendar.py:96-113 | the reference table has exactly the days of the range, and each day starts where the previous day ended |
| `Whereabouts.CorrectedTravelDays` | schedules/logic/calendar.py:50-82 | the corrected travel days fall on the same dates as the code's: the first and last days of the trips |
| `Whereabouts.CorrectedTravelDaysKeys` | schedules/logic/calendar.py:84-94 | the corrected travel days and the code's travel days have the same dates |
| `Whereabouts.CorrectedEntryIsReference` | schedules/logic/calendar.py:104-111 | reading any day from the corrected travel days with the code's daily rule gives the reference entry |
| `Whereabouts.CorrectedCalendarIsReference` | schedules/logic/calendar.py:96-113 | for every trip list, the daily table of the corrected travel days is the reference table |
| `Whereabouts.FlatSetIsChain` | schedules/logic/calendar.py:37-42 | the trip list of a compatible set with no nesting is a chain: each trip ends no later than the next starts |
| `Whereabouts.ChainStartEntry` | schedules/logic/calendar.py:50-63 | on a chain, the code's start-of-trip entry is the reference entry of the trip's first day |
| `Whereabouts.ChainEndEntry` | schedules/logic/calendar.py:65-82 | on a chain, the code's end-of-trip entry is the reference entry of the trip's last day when no trip starts that day |
| `Whereabouts.ChainTravelDaysAreCorrected` | schedules/logic/calendar.py:84-94 | on a chain, the code's travel days are the corrected ones |
| `Whereabouts.FlatCalendarIsReference` | schedules/logic/calendar.py:96-113 | without nested trips, the code's daily table is the reference table: it is only nesting that the code handles by neighbours |
| `Scenarios.AddTripScenarios` | test/logic/test_calendar.py:46-72 | the same-start, same-end and two overlap cases of the tests break the expected rules |
| `Scenarios.TripsOrderedScenario` | test/logic/test_calendar.py:37-44 | two trips added later-first come out earlier-first |
| `Scenarios.TripsReturnedOrdered` | test/logic/test_calendar.py:37-44 | the class returns the earlier trip first |
| `Scenarios.SameStartRefused` | test/logic/test_calendar.py:46-51 | a second trip with the same start date raises `CalendarError`, and the set keeps only the first trip |
| `Scenarios.TripContainedScenario` | test/logic/test_calendar.py:74-80 | a trip inside another is accepted, and both are listed, outer first |
| `Scenarios.NoTripsScenario` | test/logic/test_calendar.py:90-100 | with no trips, 22 to 24 June are home all day |
| `Scenarios.SingleTripScenario` | test/logic/test_calendar.py:102-117 | the daily table of one trip from 23 to 25 June |
| `Scenarios.TripsDisjointScenario` | test/logic/test_calendar.py:119-138 | the daily table of two trips with a day at home between them |
| `Scenarios.TripsConnectedScenario` | test/logic/test_calendar.py:140-157 | the daily table of two back-to-back trips, travelling straight from one to the next |
| `Scenarios.TripsConnectedCalendar` | test/logic/test_calendar.py:140-157 | the class gives that same table |
| `Scenarios.TripFullyContainedScenario` | test/logic/test_calendar.py:159-176 | the daily table of a trip inside another, returning to the outer destination |
| `Scenarios.NestedSiblingsLeaveOuterTrip` | schedules/logic/calendar.py:50-82 | two trips nested in one outer trip: the code has the person leave Zurich on 24 June but start 25 June at home |
| `Scenarios.NestedSiblingsCorrected` | schedules/logic/calendar.py:50-82 | the corrected rule has the person travel Zurich to Oslo on 25 June and stay in Zurich on 27 June |
| `Scenarios.StrIDScenario` | test/logic/test_objects.py:5-9 | "TEST STRING", "Test String" and "test string" make the same identifier |
| `Scenarios.AddPersonScenario` | test/logic/test_calendar.py:182-186 | a person just added has an empty trip list |
| `Scenarios.AddPersonTwiceScenario` | test/logic/test_calendar.py:188-193 | adding an equal person again raises `CalendarError` and keeps one person |
| `Scenarios.AddPersonRequestParses` | schedules/logic/objects.py:63-69 | the sample `ADD_PERSON` request parses to the sample person |
| `Scenarios.AddPersonByRequestTwice` | schedules/logic/calendar.py:131-143 | the same request answers 200 the first time and 400 with the duplicate message the second |
| `LegacyObjects.CountryOfValue` | schedules/objects.py:8-13 | the five countries, the United States included, are found by their values, and no other string names one |
| `LegacyObjects.LocationReprRoundTrip` | schedules/objects.py:31-32 | `<COUNTRY>:<CITY upper-cased>` names its location unambiguously: reading it back gives the location |
| `LegacyCalendar.TravelDaysUpToKeys` | schedules/calendar.py:28-30 | the travel days are exactly the first and last days of the trips |
| `LegacyCalendar.TravelDayOfLastTouching` | schedules/calendar.py:28-30 | a date holds the entry of the last trip in sorted order that starts or ends on it: home to destination on a first day, destination to home on a last day |
| `LegacyCalendar.SortingTravelDaysKeys` | schedules/calendar.py:22-30 | for any sorting of the trip set, the travel days are the trip dates; no trips, no travel days |
| `LegacyCalendar.OutsideIffBeyondExtremes` | schedules/calendar.py:41 | a day is before or after every travel day exactly when it is below `min` or above `max` of them |
| `LegacyCalendar.LocateDay` | schedules/calendar.py:41-44 | the loop body gives home all day outside the travel period, the travel day's entry on a travel day, and no entry otherwise |
| `LegacyCalendar.BuildDailyCalendar` | schedules/calendar.py:36-46 | the loop over the range builds the table of the days that get an entry |
| `LegacyCalendar.DailyCalendarInRange` | schedules/calendar.py:36-46 | every key of the table lies in the range |
| `LegacyCalendar.InteriorDayAbsent` | schedules/calendar.py:40-44 | a day strictly between two travel days that is not itself one gets no entry |
| `LegacyCalendar.NoTripsAllHome` | schedules/calendar.py:22-23 | with no trips, every day of the range is home all day |
| `LegacyCalendar.Calendar.constructor` | schedules/calendar.py:16-18 | the calendar keeps the person, their home and the trips, and its travel days are worked out once from a sorting of the trips |
| `LegacyCalendar.Calendar.GetTravelDays` | schedules/calendar.py:20-32 | returns a sorting of the trip set and the travel days its trips write in order |
| `LegacyCalendar.Calendar.GetDailyCalendar` | schedules/calendar.py:34-46 | all keys lie in the range; a trip date in the range has its travel day's entry; any other day with an entry is home all day |
| `LegacyCalendar.CalendarTravelDay` | schedules/calendar.py:28-30 | on a calendar, a date's travel day is the entry of the last sorted trip starting or ending on it |
| `LegacyScenarios.SingleTripCalendar` | schedules/calendar.py:34-46 | for one trip from 23 to 25 June, 22 and 26 June are home all day, 23 and 25 June are travel days, and 24 June has no entry |
| `LegacyScenarios.ConnectedTripsTravelDay` | schedules/calendar.py:28-30 | with back-to-back trips, the shared day reads home to the second destination: the later write replaces the return from the first |

## Left out

- Storage (`schedules/logic/storage.py`) is not part of this model. It uses a database library.
- The web front end, `main.py`, the configuration and the packaging are not part of this model. They contain no calendar logic.
- Logging is left out. It is output only.
- The `__repr__` of the two calendar classes is left out.
- `display_name_frontend` is left out.
- `FullCalendar.render` is left out. It returns a fixed placeholder.
- `Person.unique_id` is left out. It is Python's `hash` of the person, which cannot be modelled.
- Case mapping covers ASCII letters only. Python's `lower`, `upper` and `title` follow Unicode.
- `strptime` is a parameter of `Objects.TripFromRequest`. The date format string is kept as `Objects.DATE_FORMAT`.
- In the `repr` of a trip, dates are written as day numbers. Python's dataclass `repr` writes them as `datetime.date(2024, 6, 23)`.
- `Objects.NewTrip`: the `ValueError` message names the two dates as day numbers, where Python writes them with `str(date)` as `2024-06-23`. Calendar formatting of dates is not modelled.
- The `RequestError` for a missing or non-string `request_type` omits the raw-request `repr` that Python puts in the message. Python dictionary formatting is not modelled.
- `Requests.NewRequest`: `Request.__init__` copies the raw map and pops the type key from the copy. Maps are values, so this is a function, and the caller's map is never changed.
- `Calendar.FullCalendar.ProcessFrontendRequest`: the `else` branch ("Unknown request type") cannot be reached, because `ADD_PERSON` is the only request type. The model has no branch for it.
- `Calendar.SinglePersonCalendar.RaiseIfInvalidTrip` iterates the set in an unspecified order. When several stored trips refuse the candidate, the model promises the message of one refusing trip, not of a particular one.
- `LegacyCalendar.Calendar.GetTravelDays`: `sorted` is stable. Trips with the same two dates keep the set's iteration order, which is not specified. The model therefore promises the travel days of *some* sorting of the trips.
- Python's `set` and `dict` iteration order is not modelled. Nothing in the core depends on it except the two members above.
- The earlier engine's `StrID` (`schedules/objects.py:16-23`) behaves exactly like the logic layer's. The model uses the same type, `Objects.StrID`, with `Objects.NewStrID` and `Objects.StrIDRepr`.
- The tests that pass `unique_id=` or use `DayLocation`/`home_location` call constructors the source does not define. They are not modelled.

## Findings

| source | as written | input that shows it | evidently intended | confidence | as-written member | corrected member |
|---|---|---|---|---|---|---|
| schedules/logic/calendar.py:50-82 | the start and end of a trip look only at its neighbours in the sorted list, so after the second of two trips nested in one outer trip the person is sent home, not back to the outer destination | trips Zurich 22-28 June, London 23-24 June and Oslo 25-26 June (all accepted by the rules): 24 June ends in Zurich but 25 June starts at home; 27 June is home all day but 28 June starts in Zurich | each day starts where the previous one ended, at the destination of the innermost trip covering that night, as containment is meant to be handled | not executed | `Scenarios.NestedSiblingsLeaveOuterTrip` (on `Itinerary.TravelDays`) | `Whereabouts.CorrectedTravelDays` with `Whereabouts.CorrectedCalendarIsReference` and `Scenarios.NestedSiblingsCorrected` |

The `Calendar` classes keep the behaviour as written, so that they model the
source. The corrected travel days fall on the same dates as the code's
(`Whereabouts.CorrectedTravelDaysKeys`). Read with the same daily rule, they
give the reference table for every trip list
(`Whereabouts.CorrectedCalendarIsReference`). On calendars without nested trips,
the code's travel days are already the corrected ones
(`Whereabouts.FlatCalendarIsReference`).
