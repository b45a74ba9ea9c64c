/** The value types of the earlier engine (schedules/objects.py): frozen
    records with no construction checks. Its `StrID` lower-cases on
    construction and shows itself title-cased exactly as the logic layer's
    does, so it is the same type here (`Objects.StrID`, built by
    `Objects.NewStrID` and shown by `Objects.StrIDRepr`). */
module LegacyObjects {

  import opened Wrappers
  import opened Text
  import Objects
  import Requests

  type StrID = Objects.StrID

  /** The earlier country list, which also has the United States. */
  datatype Country = NETHERLANDS | NORWAY | SWITZERLAND | UNITED_KINGDOM | UNITED_STATES

  /** The value of a country, which is also its member name. */
  function CountryValue(c: Country): string
  {
    match c
    case NETHERLANDS => "NETHERLANDS"
    case NORWAY => "NORWAY"
    case SWITZERLAND => "SWITZERLAND"
    case UNITED_KINGDOM => "UNITED_KINGDOM"
    case UNITED_STATES => "UNITED_STATES"
  }

  /** `Country(value)`: the member with that value, if any. */
  function CountryOfValue(value: string): (r: Option<Country>)
    ensures r.Some? ==> CountryValue(r.value) == value
    ensures r.None? ==> forall c :: CountryValue(c) != value
  {
    if value == "NETHERLANDS" then Some(NETHERLANDS)
    else if value == "NORWAY" then Some(NORWAY)
    else if value == "SWITZERLAND" then Some(SWITZERLAND)
    else if value == "UNITED_KINGDOM" then Some(UNITED_KINGDOM)
    else if value == "UNITED_STATES" then Some(UNITED_STATES)
    else None
  }

  /** A location; the earlier engine accepts any city, the empty one included. */
  datatype Location = Location(country: Country, city: StrID)

  /** The `repr` of a location: `<COUNTRY>:<CITY>` with the city upper-cased. */
  function LocationRepr(l: Location): string
  {
    CountryValue(l.country) + ":" + Upper(l.city)
  }

  /** Reads a location back from its `repr`: the country value up to the first
      colon, and the identifier of everything after it. */
  function ParseLocationRepr(s: string): Option<Location>
  {
    match Requests.IndexOf(s, ':')
    case None => None
    case Some(k) =>
      match CountryOfValue(s[..k])
      case None => None
      case Some(c) => Some(Location(c, Objects.NewStrID(s[k + 1..])))
  }

  /** The `repr` of a location names it unambiguously: reading it back gives
      the location. */
  lemma LocationReprRoundTrip(l: Location)
    ensures ParseLocationRepr(LocationRepr(l)) == Some(l)
  {
    var value := CountryValue(l.country);
    var s := LocationRepr(l);
    assert s == value + (":" + Upper(l.city));
    Requests.IndexOfAfterPrefix(value, ":" + Upper(l.city), ':');
    assert s[..|value|] == value;
    assert s[|value| + 1..] == Upper(l.city);
    LowerOfUpper(l.city);
  }

  /** A person; the earlier engine has no identifier field, so two persons are
      equal exactly when their names and homes are. */
  datatype Person = Person(lastName: StrID, firstName: StrID, home: Location)

  /** A trip; the earlier engine does not check its dates. */
  datatype Trip = Trip(location: Location, start: int, end: int)

  /** Where a person starts and ends one day. */
  datatype Day = Day(start: Location, end: Location)
}
