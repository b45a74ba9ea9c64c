/** The request envelope sent by the front end and the response sent back
    (schedules/logic/requests.py). */
module Requests {

  import opened Wrappers
  import opened Errors
  import opened Text

  /** The key of a raw request that names its type. */
  const REQUEST_TYPE_ID: string := "request_type"

  /** A value of a raw request: a string, or any other value, kept as the
      text that `str()` gives for it. */
  datatype Value = Str(s: string) | Other(text: string)

  /** `str(v)`. */
  function ToStr(v: Value): string
  {
    match v
    case Str(s) => s
    case Other(t) => t
  }

  /** The request types; `ADD_PERSON` is the only one. */
  datatype RequestType = ADD_PERSON

  /** The string value of a request type. */
  function RequestTypeValue(t: RequestType): string
  {
    match t
    case ADD_PERSON => "ADD_PERSON"
  }

  /** The request type whose value is `s`, if any (`s in RequestType`, then `RequestType(s)`). */
  function RequestTypeOf(s: string): (r: Option<RequestType>)
    ensures r.Some? ==> RequestTypeValue(r.value) == s
    ensures r.None? ==> forall t: RequestType :: RequestTypeValue(t) != s
  {
    if s == "ADD_PERSON" then Some(ADD_PERSON) else None
  }

  lemma RequestTypeRoundTrip(t: RequestType)
    ensures RequestTypeOf(RequestTypeValue(t)) == Some(t)
  {
  }

  /** A parsed request: its type and the remaining fields. */
  datatype Request = Request(requestType: RequestType, payload: map<string, Value>)

  /** `Request(request_raw)`: checks that the type key of the raw map holds the
      string value of a known request type, and pops that key off a copy of
      the map to form the payload. Maps are values here, so the caller's map
      is never changed, as the copy in the source ensures. */
  function NewRequest(requestRaw: map<string, Value>): (r: Result<Request, Exception>)
    ensures REQUEST_TYPE_ID !in requestRaw || !requestRaw[REQUEST_TYPE_ID].Str? ==>
              r == Failure(RequestError("Raw request must contain key `" + REQUEST_TYPE_ID + "` with string value."))
    ensures REQUEST_TYPE_ID in requestRaw && requestRaw[REQUEST_TYPE_ID].Str? &&
            RequestTypeOf(requestRaw[REQUEST_TYPE_ID].s).None? ==>
              r == Failure(RequestError("Unknown request type: `" + requestRaw[REQUEST_TYPE_ID].s + "`."))
    ensures r.Success? <==> REQUEST_TYPE_ID in requestRaw && requestRaw[REQUEST_TYPE_ID].Str? &&
                            RequestTypeOf(requestRaw[REQUEST_TYPE_ID].s).Some?
    ensures r.Success? ==> RequestTypeValue(r.value.requestType) == requestRaw[REQUEST_TYPE_ID].s
    ensures r.Success? ==> REQUEST_TYPE_ID !in r.value.payload
    ensures r.Success? ==> forall k :: k in r.value.payload <==> k in requestRaw && k != REQUEST_TYPE_ID
    ensures r.Success? ==> forall k :: k in r.value.payload ==> r.value.payload[k] == requestRaw[k]
  {
    if REQUEST_TYPE_ID !in requestRaw || !requestRaw[REQUEST_TYPE_ID].Str? then
      Failure(RequestError("Raw request must contain key `" + REQUEST_TYPE_ID + "` with string value."))
    else
      var requestType := requestRaw[REQUEST_TYPE_ID].s;
      match RequestTypeOf(requestType)
      case None => Failure(RequestError("Unknown request type: `" + requestType + "`."))
      case Some(t) => Success(Request(t, requestRaw - {REQUEST_TYPE_ID}))
  }

  /** A response: a status code and a message. */
  datatype Response = Response(code: int, message: string)
  {
    /** The text the front end shows for this response. */
    function FrontendMessage(): string
    {
      "Error (" + IntToString(code) + "): " + message
    }
  }

  /** The index of the first occurrence of `c` in `s`. */
  function IndexOf(s: string, c: char): (r: Option<nat>)
    ensures r.Some? ==> r.value < |s| && s[r.value] == c && forall i :: 0 <= i < r.value ==> s[i] != c
    ensures r.None? ==> forall i :: 0 <= i < |s| ==> s[i] != c
  {
    if s == [] then None
    else if s[0] == c then Some(0)
    else match IndexOf(s[1..], c)
      case None => None
      case Some(k) => Some(k + 1)
  }

  /** Reads a front-end message back into the response it shows. */
  function ParseFrontendMessage(s: string): Option<Response>
  {
    if |s| < 7 || s[..7] != "Error (" then None
    else
      var rest := s[7..];
      match IndexOf(rest, ')')
      case None => None
      case Some(k) =>
        match ParseInt(rest[..k])
        case None => None
        case Some(code) =>
          if |rest| - k < 3 || rest[k..k + 3] != "): " then None
          else Some(Response(code, rest[k + 3..]))
  }

  lemma {:induction false} IndexOfAfterPrefix(a: string, b: string, c: char)
    requires forall i :: 0 <= i < |a| ==> a[i] != c
    requires |b| > 0 && b[0] == c
    ensures IndexOf(a + b, c) == Some(|a|)
  {
    if a != [] {
      assert (a + b)[1..] == a[1..] + b;
      IndexOfAfterPrefix(a[1..], b, c);
    }
  }

  /** The front-end message names the code and message of its response
      unambiguously: reading it back gives the response. */
  lemma FrontendMessageRoundTrip(r: Response)
    ensures ParseFrontendMessage(r.FrontendMessage()) == Some(r)
  {
    var digits := IntToString(r.code);
    var s := r.FrontendMessage();
    assert s[..7] == "Error (";
    var rest := s[7..];
    assert rest == digits + ("): " + r.message);
    IndexOfAfterPrefix(digits, "): " + r.message, ')');
    assert rest[..|digits|] == digits;
    IntToStringRoundTrip(r.code);
    assert rest[|digits|..] == "): " + r.message;
  }
}
