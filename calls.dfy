/** The values that flow in and out of the client's operations: errors,
    results, the outside collaborators (the HTTP transport and the JSON
    decoder) as plain functions, and the record of which URLs were
    requested. */
module Calls {

  newtype byte = b: int | 0 <= b < 256

  type Bytes = seq<byte>

  /** The errors the client returns. The first five are the fixed errors
      of the source (two of them, EmptyLocation and InvalidUnits, are
      package-level sentinels); Wrapped is an error built with
      fmt.Errorf, carrying its text. */
  datatype Error =
    | EmptyApiKey
    | EmptyLocation
    | InvalidUnits
    | NoLocations
    | EmptyOneCallData
    | Wrapped(message: string)

  /** The text of an error, as its Error() method would give it. */
  function Message(e: Error): string {
    match e
    case EmptyApiKey => "apiKey argument must not be empty"
    case EmptyLocation => "location argument must not be empty"
    case InvalidUnits => "units must be one of: standard, metric, imperial"
    case NoLocations => "response from Geocoding API must contain at least one location"
    case EmptyOneCallData => "data must be a non-empty response from the OneCall API"
    case Wrapped(message) => message
  }

  /** The fixed errors can be told apart by their texts alone. */
  lemma FixedMessagesDistinct(e1: Error, e2: Error)
    requires !e1.Wrapped? && !e2.Wrapped?
    ensures Message(e1) == Message(e2) <==> e1 == e2
  {
    if e1 != e2 {
      assert MessageLength(e1) != MessageLength(e2);
    }
  }

  /** The length of each fixed error's text; no two are alike. */
  function MessageLength(e: Error): (n: nat)
    requires !e.Wrapped?
    ensures n == |Message(e)|
  {
    match e
    case EmptyApiKey => 33
    case EmptyLocation => 35
    case InvalidUnits => 48
    case NoLocations => 62
    case EmptyOneCallData => 54
  }

  /** A value or an error, never both. */
  datatype Result<T> = Ok(value: T) | Err(error: Error)

  /** The outcome of an operation together with the URLs it sent a GET
      request to, in order. An empty list means nothing went out on the
      network. */
  datatype Exchange<T> = Exchange(result: Result<T>, requests: seq<string>)

  /** What one GET can come back with: a response body, a failure of the
      request itself, or a failure while reading the body. */
  datatype HttpReply = Body(data: Bytes) | GetFailed(cause: string) | ReadFailed(cause: string)

  /** The HTTP client: what a GET of a URL comes back with. */
  type Transport = string -> HttpReply

  /** What decoding JSON comes back with: the decoded value, or the text
      of the decoder's error. */
  datatype Json<T> = Parsed(value: T) | Malformed(cause: string)

  /** The JSON decoder for one target type. */
  type Decoder<T> = Bytes -> Json<T>
}
