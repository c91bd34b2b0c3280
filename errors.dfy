/**
 * The errors the bridge can produce, each with the text Go's `err.Error()` gives it.
 * Every stage failure ends up as that text in the body of a fallback reply.
 */
module Errors {

  datatype Error =
    /** An error from `encoding/json`, reported by its own message. */
    | JsonError(message: string)
    /** `ErrUnsupportedRequestType`: the payload carries none of the three discriminators. */
    | UnsupportedRequestType
    /** `url.PathUnescape` rejected `rawPath`; `escape` is the offending text (at most three bytes from a '%'). */
    | UnescapePath(rawPath: string, escape: string)
    /** `http.NewRequestWithContext` rejected the method. */
    | InvalidMethod(httpMethod: string)
    /** `http.NewRequestWithContext` could not parse the printed URL again; `message` is the parser's text. */
    | ParseUrl(message: string)
    /** `json.Marshal` could not serialise the reply envelope. */
    | MarshalResponse(message: string)

  /**
   * The text of `err.Error()`. Each failure of `Canonize` names its stage first, and the marshalling
   * failure says what failed; the decoding and classification errors are reported as they are.
   */
  function Message(e: Error): (r: string)
    ensures e.UnescapePath? ==> "failed to unescape path " + e.rawPath + " from request: " <= r
    ensures e.InvalidMethod? || e.ParseUrl? ==> CanonizePrefix <= r
    ensures e.MarshalResponse? ==> "failed to marshal response to JSON: " <= r
    ensures e.JsonError? ==> r == e.message
    ensures e.UnsupportedRequestType? ==> r == "unsupported request type"
  {
    match e
    case JsonError(m) => m
    case UnsupportedRequestType => "unsupported request type"
    case UnescapePath(raw, esc) =>
      "failed to unescape path " + raw + " from request: " + "invalid URL escape " + Quote(esc)
    case InvalidMethod(m) => CanonizePrefix + "net/http: invalid method " + Quote(m)
    case ParseUrl(m) => CanonizePrefix + m
    case MarshalResponse(m) => "failed to marshal response to JSON: " + m
  }

  const CanonizePrefix := "failed to canonize incoming http request: "

  function LowerHex(n: int): char
    requires 0 <= n < 16
  {
    if n < 10 then (n + '0' as int) as char else (n - 10 + 'a' as int) as char
  }

  /** Go's `strconv.Quote` on one byte of the text. */
  function QuoteChar(c: char): string {
    if c == '"' then "\\\""
    else if c == '\\' then "\\\\"
    else if c == '\n' then "\\n"
    else if c == '\r' then "\\r"
    else if c == '\t' then "\\t"
    else if c == 7 as char then "\\a"
    else if c == 8 as char then "\\b"
    else if c == 11 as char then "\\v"
    else if c == 12 as char then "\\f"
    else if c as int < 0x20 || c as int == 0x7f then
      ['\\', 'x', LowerHex(c as int / 16), LowerHex(c as int % 16)]
    else [c]
  }

  function QuoteBody(s: string): string
    decreases |s|
  {
    if |s| == 0 then "" else QuoteChar(s[0]) + QuoteBody(s[1..])
  }

  /** Go's `strconv.Quote` (the `%q` verb) for ASCII text. */
  function Quote(s: string): string {
    "\"" + QuoteBody(s) + "\""
  }
}
