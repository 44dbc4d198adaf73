/**
 * What every operation of the client shares (Backblaze.swift): the error
 * cases, the shape of an outgoing request, the transport's answer and the
 * rule that turns that answer into a result. The network is not modelled:
 * a request is a value, and the answer to it is an input.
 */
module Http {
  import opened Wrappers
  import opened Octets
  import Digests

  /** `Backblaze.BackblazeError`. */
  datatype BackblazeError =
    | UrlConstructionFailed
    | UrlEncodingFailed
    | MalformedRequest
    | MalformedResponse
    | Unauthenticated
    | UploadFailed

  const AllBackblazeErrors: seq<BackblazeError> := [
    UrlConstructionFailed, UrlEncodingFailed, MalformedRequest,
    MalformedResponse, Unauthenticated, UploadFailed
  ]

  const UrlConstructionFailedText := "An error occurred construction the URL"
  const UrlEncodingFailedText := "An error occurred encoding the URL parameters"
  const MalformedRequestText := "The request could not be created with the given parameters"
  const MalformedResponseText := "The server responded with unparseable data"
  const UnauthenticatedText := "Authentication details are missing"
  const UploadFailedText := "An error occurred uploading the file"

  /** `errorDescription`: a fixed sentence per case, from which the case can be told again. */
  function ErrorDescription(e: BackblazeError): (d: string)
    ensures ErrorOfDescription(d) == Some(e)
  {
    match e
    case UrlConstructionFailed => UrlConstructionFailedText
    case UrlEncodingFailed => UrlEncodingFailedText
    case MalformedRequest => MalformedRequestText
    case MalformedResponse => MalformedResponseText
    case Unauthenticated => UnauthenticatedText
    case UploadFailed => UploadFailedText
  }

  /** The case a description belongs to, if it is one of the six sentences. */
  function ErrorOfDescription(d: string): Option<BackblazeError> {
    if d == UrlConstructionFailedText then Some(UrlConstructionFailed)
    else if d == UrlEncodingFailedText then Some(UrlEncodingFailed)
    else if d == MalformedRequestText then Some(MalformedRequest)
    else if d == MalformedResponseText then Some(MalformedResponse)
    else if d == UnauthenticatedText then Some(Unauthenticated)
    else if d == UploadFailedText then Some(UploadFailed)
    else None
  }

  /** There are six cases, listed once each, and no two share a description. */
  lemma SixErrors(e: BackblazeError, f: BackblazeError)
    ensures |AllBackblazeErrors| == 6 && e in AllBackblazeErrors
    ensures forall i, j | 0 <= i < j < 6 :: AllBackblazeErrors[i] != AllBackblazeErrors[j]
    ensures ErrorDescription(e) == ErrorDescription(f) ==> e == f
  {
  }

  /**
   * Every error an operation can fail with: one of the client's own, an error
   * the transport reported (passed through verbatim), or the error a JSON
   * decoder threw.
   */
  datatype Error =
    | B2(reason: BackblazeError)
    | Transport(description: string)
    | DecodingFailed

  /** A parsed URL; what it contains is left to Foundation. */
  datatype Url = Url(text: string)

  /** Where a request goes: a base URL, the path component appended to it, and a query. */
  datatype Location = Location(base: Url, component: Option<string>, query: Option<string>)

  datatype Method = Get | Post

  datatype JsonValue = JString(s: string) | JInt(i: int) | JNull

  /** A Swift optional as `JSONEncoder` writes it inside a dictionary: nil becomes `null`. */
  function OptionalString(o: Option<string>): (v: JsonValue)
    ensures v == JNull <==> o.None?
    ensures o.Some? ==> v == JString(o.value)
  {
    match o
    case Some(s) => JString(s)
    case None => JNull
  }

  /** A request body: none, a JSON object, or raw bytes. */
  datatype Body = NoBody | Json(members: map<string, JsonValue>) | Data(bytes: Bytes)

  /**
   * A `URLRequest`: method, location, header fields and body, together with the
   * additional headers of the session configuration it is executed with.
   */
  datatype Request = Request(
    verb: Method,
    location: Location,
    headers: map<string, string>,
    body: Body,
    sessionHeaders: map<string, string>)
  {
    /**
     * `addValue(_:forHTTPHeaderField:)`: sets a new field, or appends to an
     * existing one after a comma.
     */
    function AddValue(value: string, field: string): (r: Request)
      ensures r.headers.Keys == headers.Keys + {field}
      ensures field !in headers ==> r.headers[field] == value
      ensures field in headers ==> r.headers[field] == headers[field] + "," + value
      ensures forall f | f in headers && f != field :: r.headers[f] == headers[f]
      ensures r.(headers := headers) == this
    {
      var joined := if field in headers then headers[field] + "," + value else value;
      this.(headers := headers[field := joined])
    }
  }

  /** `URLRequest(url:)`: a GET with no headers and no body. */
  function NewRequest(location: Location): Request {
    Request(Get, location, map[], NoBody, map[])
  }

  /** What the transport hands to a completion handler: maybe a body, maybe an error. */
  datatype Response = Response(body: Option<Bytes>, error: Option<Error>)

  /**
   * The completion rule of `executeRequest` (with `fallback` MalformedResponse)
   * and of `executeUploadRequest` (with `fallback` UploadFailed): a body wins
   * even when an error is reported too; without one, the transport's error, or
   * the fallback when there is none.
   */
  function Complete(r: Response, fallback: BackblazeError): (result: Result<Bytes, Error>)
    ensures result.Success? <==> r.body.Some?
    ensures result.Success? ==> result.value == r.body.value
    ensures result.Failure? && r.error.Some? ==> result.error == r.error.value
    ensures result.Failure? && r.error.None? ==> result.error == B2(fallback)
  {
    match r.body
    case Some(data) => Success(data)
    case None => Failure(r.error.GetOr(B2(fallback)))
  }

  /** The two completion rules differ only when there is neither a body nor an error. */
  lemma CompletionRulesAgree(r: Response)
    ensures Complete(r, MalformedResponse) != Complete(r, UploadFailed)
        <==> r.body.None? && r.error.None?
  {
  }

  /**
   * Decoding the body of a completed request: a failure passes through; a
   * body the decoder rejects fails with `onReject` (the decoder's own error
   * where the source lets it propagate, MalformedResponse where it maps it).
   */
  function DecodeBody<T>(r: Result<Bytes, Error>, decode: Bytes -> Option<T>, onReject: Error): (d: Result<T, Error>)
    ensures r.Failure? ==> d == Failure(r.error)
    ensures r.Success? && decode(r.value).Some? ==> d == Success(decode(r.value).value)
    ensures r.Success? && decode(r.value).None? ==> d == Failure(onReject)
  {
    match r
    case Failure(e) => Failure(e)
    case Success(data) =>
      match decode(data)
      case Some(v) => Success(v)
      case None => Failure(onReject)
  }

  /**
   * The Foundation and Crypto primitives the client calls and this model does
   * not define: `URL(string:)`, `addingPercentEncoding(withAllowedCharacters:
   * .urlQueryAllowed)` and `Insecure.SHA1.hash(data:)`.
   */
  datatype Platform = Platform(
    parseUrl: string -> Option<Url>,
    percentEncode: string -> Option<string>,
    sha1: Bytes -> Digests.Digest)
}
