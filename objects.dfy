/** The value types of the calendar logic (schedules/logic/objects.py):
    frozen records whose construction checks an invariant, and the
    constructors that build them from a request payload. */
module Objects {

  import opened Wrappers
  import opened Errors
  import opened Text
  import opened Requests

  datatype Country = NETHERLANDS | NORWAY | SWITZERLAND | UNITED_KINGDOM

  /** The member name of a country, which is also its value. */
  function CountryName(c: Country): string
  {
    match c
    case NETHERLANDS => "NETHERLANDS"
    case NORWAY => "NORWAY"
    case SWITZERLAND => "SWITZERLAND"
    case UNITED_KINGDOM => "UNITED_KINGDOM"
  }

  /** `Country[name]`: the member with that exact name, if any. */
  function CountryByName(name: string): (r: Option<Country>)
    ensures r.Some? ==> CountryName(r.value) == name
    ensures r.None? ==> forall c :: CountryName(c) != name
  {
    if name == "NETHERLANDS" then Some(NETHERLANDS)
    else if name == "NORWAY" then Some(NORWAY)
    else if name == "SWITZERLAND" then Some(SWITZERLAND)
    else if name == "UNITED_KINGDOM" then Some(UNITED_KINGDOM)
    else None
  }

  lemma CountryByNameRoundTrip(c: Country)
    ensures CountryByName(CountryName(c)) == Some(c)
  {
  }

  /** A case-normalised identifier: a string with no upper-case letter. */
  type StrID = s: string | IsLowered(s)

  /** `StrID(s)`: the identifier that `s` names, stored lower-cased. */
  function NewStrID(s: string): (r: StrID)
    ensures EqualIgnoringCase(r, s)
  {
    LowerIdempotent(s);
    SameLowerIffEqualIgnoringCase(Lower(s), s);
    Lower(s)
  }

  /** Two strings give the same identifier exactly when they differ only in case. */
  lemma StrIDCaseInsensitive(a: string, b: string)
    ensures NewStrID(a) == NewStrID(b) <==> EqualIgnoringCase(a, b)
  {
    SameLowerIffEqualIgnoringCase(a, b);
  }

  /** Normalising an identifier again changes nothing. */
  lemma StrIDIdempotent(s: string)
    ensures NewStrID(NewStrID(s)) == NewStrID(s)
  {
    LowerIdempotent(s);
  }

  /** The `repr` of an identifier: its title-cased form, which names the same identifier. */
  function StrIDRepr(id: StrID): (r: string)
    ensures NewStrID(r) == id
  {
    LowerOfTitle(id);
    LoweredIsFixpoint(id);
    Title(id)
  }

  datatype Location = Location(country: Country, city: StrID)
  {
    /** The invariant `__post_init__` checks: the city is set. */
    predicate Valid() { |city| > 0 }
  }

  /** The `repr` of a location: `<COUNTRY>:<CITY>` with the city upper-cased. */
  function LocationRepr(l: Location): string
  {
    CountryName(l.country) + ":" + Upper(l.city)
  }

  /** `Location(country, city)`, which raises `RequestError` when the city is empty. */
  function NewLocation(country: Country, city: StrID): (r: Result<Location, Exception>)
    ensures r.Success? <==> |city| > 0
    ensures r.Success? ==> r.value == Location(country, city) && r.value.Valid()
    ensures r.Failure? ==> r.error == RequestError("City name must be set: `" + city + "`.")
  {
    if |city| > 0 then Success(Location(country, city))
    else Failure(RequestError("City name must be set: `" + city + "`."))
  }

  /** `str(payload.get(key))`: the text of the value, or "None" when the key is absent. */
  function PayloadText(payload: map<string, Value>, key: string): string
  {
    if key in payload then ToStr(payload[key]) else "None"
  }

  /** `Location.from_request`: the country is looked up by member name (an unknown
      name raises `KeyError`) and the city is normalised before the city check. */
  function LocationFromRequest(request: Request): (r: Result<Location, Exception>)
    ensures r.Success? <==> CountryByName(PayloadText(request.payload, "country")).Some? &&
                            |PayloadText(request.payload, "city")| > 0
    ensures r.Success? ==> r.value.Valid() &&
                           CountryName(r.value.country) == PayloadText(request.payload, "country") &&
                           r.value.city == NewStrID(PayloadText(request.payload, "city"))
    ensures CountryByName(PayloadText(request.payload, "country")).None? ==>
              r == Failure(KeyError(PayloadText(request.payload, "country")))
  {
    var countryName := PayloadText(request.payload, "country");
    match CountryByName(countryName)
    case None => Failure(KeyError(countryName))
    case Some(country) => NewLocation(country, NewStrID(PayloadText(request.payload, "city")))
  }

  datatype Person = Person(lastName: StrID, firstName: StrID, home: Location)
  {
    /** The invariant `__post_init__` checks, together with that of the home location. */
    predicate Valid() { |lastName| > 0 && |firstName| > 0 && home.Valid() }
  }

  /** The `repr` of a person, as the dataclass writes it from its fields' `repr`s. */
  function PersonRepr(p: Person): string
  {
    "Person(last_name=" + StrIDRepr(p.lastName) + ", first_name=" + StrIDRepr(p.firstName) +
    ", home=" + LocationRepr(p.home) + ")"
  }

  /** `Person(last_name, first_name, home)`, which raises `RequestError` unless both names are set. */
  function NewPerson(lastName: StrID, firstName: StrID, home: Location): (r: Result<Person, Exception>)
    requires home.Valid()
    ensures r.Success? <==> |lastName| > 0 && |firstName| > 0
    ensures r.Success? ==> r.value == Person(lastName, firstName, home) && r.value.Valid()
    ensures r.Failure? ==> r.error.RequestError?
  {
    if |lastName| > 0 && |firstName| > 0 then Success(Person(lastName, firstName, home))
    else Failure(RequestError("Both first name and last name must be set: `" + lastName + "`, `" + firstName + "`."))
  }

  /** `Person.from_request`: the names are normalised, then the home location is built
      from the same payload (its errors come first), then the names are checked. */
  function PersonFromRequest(request: Request): (r: Result<Person, Exception>)
    ensures r.Success? <==> LocationFromRequest(request).Success? &&
                            |PayloadText(request.payload, "last_name")| > 0 &&
                            |PayloadText(request.payload, "first_name")| > 0
    ensures r.Success? ==> r.value.Valid() && r.value.home == LocationFromRequest(request).value &&
                           r.value.lastName == NewStrID(PayloadText(request.payload, "last_name")) &&
                           r.value.firstName == NewStrID(PayloadText(request.payload, "first_name"))
    ensures LocationFromRequest(request).Failure? ==> r == Failure(LocationFromRequest(request).error)
  {
    var lastName := NewStrID(PayloadText(request.payload, "last_name"));
    var firstName := NewStrID(PayloadText(request.payload, "first_name"));
    match LocationFromRequest(request)
    case Failure(e) => Failure(e)
    case Success(home) => NewPerson(lastName, firstName, home)
  }

  datatype Trip = Trip(location: Location, start: int, end: int)
  {
    /** The invariant `__post_init__` checks (start strictly before end), together with
        that of the destination. */
    predicate Valid() { location.Valid() && start < end }
  }

  /** The `repr` of a trip; its dates are written as day numbers. */
  function TripRepr(t: Trip): string
  {
    "Trip(location=" + LocationRepr(t.location) + ", start_date=" + IntToString(t.start) +
    ", end_date=" + IntToString(t.end) + ")"
  }

  /** `Trip(location, start_date, end_date)`, which raises `ValueError` unless the trip
      starts strictly before it ends. */
  function NewTrip(location: Location, start: int, end: int): (r: Result<Trip, Exception>)
    requires location.Valid()
    ensures r.Success? <==> start < end
    ensures r.Success? ==> r.value == Trip(location, start, end) && r.value.Valid()
    ensures r.Failure? ==> r.error == ValueError(TripDatesMessage(start, end))
  {
    if start < end then Success(Trip(location, start, end))
    else Failure(ValueError(TripDatesMessage(start, end)))
  }

  /** The message of a trip whose dates are out of order, naming both dates. */
  function TripDatesMessage(start: int, end: int): string
  {
    "Trip start date must be before end date: `" + IntToString(start) + "`, `" + IntToString(end) + "`."
  }

  /** The format both trip dates are parsed with. */
  const DATE_FORMAT: string := "%Y-%m-%d"

  /** `strptime(payload[key], "%Y-%m-%d")` as a day number: a missing key raises
      `KeyError`, a value that is not a string `TypeError`, and a string the date
      parser rejects `ValueError`. */
  function PayloadDate(payload: map<string, Value>, key: string, parseDate: string -> Option<int>): (r: Result<int, Exception>)
    ensures r.Success? <==> key in payload && payload[key].Str? && parseDate(payload[key].s).Some?
    ensures r.Success? ==> r.value == parseDate(payload[key].s).value
  {
    if key !in payload then Failure(KeyError(key))
    else match payload[key]
      case Other(t) => Failure(TypeError("strptime() argument 1 must be str"))
      case Str(s) =>
        match parseDate(s)
        case None => Failure(ValueError("time data '" + s + "' does not match format '" + DATE_FORMAT + "'"))
        case Some(d) => Success(d)
  }

  /** `Trip.from_request`: the destination first, then the start and end dates
      (parsed by `parseDate` in the `YYYY-MM-DD` format), then the date check. */
  function TripFromRequest(request: Request, parseDate: string -> Option<int>): (r: Result<Trip, Exception>)
    ensures r.Success? <==> LocationFromRequest(request).Success? &&
                            PayloadDate(request.payload, "start_date", parseDate).Success? &&
                            PayloadDate(request.payload, "end_date", parseDate).Success? &&
                            PayloadDate(request.payload, "start_date", parseDate).value <
                            PayloadDate(request.payload, "end_date", parseDate).value
    ensures r.Success? ==> r.value.Valid() &&
                           r.value.location == LocationFromRequest(request).value &&
                           r.value.start == PayloadDate(request.payload, "start_date", parseDate).value &&
                           r.value.end == PayloadDate(request.payload, "end_date", parseDate).value
  {
    match LocationFromRequest(request)
    case Failure(e) => Failure(e)
    case Success(location) =>
      match PayloadDate(request.payload, "start_date", parseDate)
      case Failure(e) => Failure(e)
      case Success(start) =>
        match PayloadDate(request.payload, "end_date", parseDate)
        case Failure(e) => Failure(e)
        case Success(end) => NewTrip(location, start, end)
  }

  /** Where a person starts and ends one day. */
  datatype Day = Day(start: Location, end: Location)

  // ---------------------------------------------------------------------
  // Building a value from the payload that describes it gives the value back.

  function LocationPayload(l: Location): map<string, Value>
  {
    map["country" := Str(CountryName(l.country)), "city" := Str(l.city)]
  }

  lemma LocationFromRequestRoundTrip(l: Location, t: RequestType)
    requires l.Valid()
    ensures LocationFromRequest(Request(t, LocationPayload(l))) == Success(l)
  {
    CountryByNameRoundTrip(l.country);
    LoweredIsFixpoint(l.city);
  }

  function PersonPayload(p: Person): map<string, Value>
  {
    LocationPayload(p.home)["last_name" := Str(p.lastName)]["first_name" := Str(p.firstName)]
  }

  lemma PersonFromRequestRoundTrip(p: Person)
    requires p.Valid()
    ensures PersonFromRequest(Request(ADD_PERSON, PersonPayload(p))) == Success(p)
  {
    var payload := PersonPayload(p);
    assert PayloadText(payload, "country") == CountryName(p.home.country);
    assert PayloadText(payload, "city") == p.home.city;
    CountryByNameRoundTrip(p.home.country);
    LoweredIsFixpoint(p.home.city);
    LoweredIsFixpoint(p.lastName);
    LoweredIsFixpoint(p.firstName);
  }

  /** With a date parser that reads back what `formatDate` writes, a trip is rebuilt
      from the payload that describes it. */
  lemma TripFromRequestRoundTrip(trip: Trip, t: RequestType, formatDate: int -> string, parseDate: string -> Option<int>)
    requires trip.Valid()
    requires forall d :: parseDate(formatDate(d)) == Some(d)
    ensures TripFromRequest(Request(t, LocationPayload(trip.location)["start_date" := Str(formatDate(trip.start))]
                                                 ["end_date" := Str(formatDate(trip.end))]), parseDate) == Success(trip)
  {
    var payload := LocationPayload(trip.location)["start_date" := Str(formatDate(trip.start))]
                                                 ["end_date" := Str(formatDate(trip.end))];
    assert PayloadText(payload, "country") == CountryName(trip.location.country);
    assert PayloadText(payload, "city") == trip.location.city;
    CountryByNameRoundTrip(trip.location.country);
    LoweredIsFixpoint(trip.location.city);
  }
}
