/**
 * The response transcoders: each turns the captured writer state into the reply envelope of one
 * Lambda integration (API Gateway v2, API Gateway v1, ALB), and the dispatcher used when the
 * format was only learnt while classifying the request.
 */
module Responses {
  import opened Wrappers
  import opened Text
  import opened Headers
  import opened Writer
  import Base64
  import opened Errors

  /** `events.APIGatewayV2HTTPResponse`. */
  datatype V2Response = V2Response(
    statusCode: int, headers: map<string, string>, cookies: seq<string>, body: string, isBase64Encoded: bool)

  /** `events.APIGatewayProxyResponse`. */
  datatype V1Response = V1Response(
    statusCode: int, headers: map<string, string>, multiValueHeaders: map<string, seq<string>>,
    body: string, isBase64Encoded: bool)

  /** `events.ALBTargetGroupResponse`. */
  datatype AlbResponse = AlbResponse(
    statusCode: int, statusDescription: string, headers: map<string, string>,
    multiValueHeaders: map<string, seq<string>>, body: string, isBase64Encoded: bool)

  /** `leastCommonDenominatorResponse`: the fields every integration understands. */
  datatype LcdResponse = LcdResponse(statusCode: int, body: string, isBase64Encoded: bool)

  /** Whatever is handed to `json.Marshal`. */
  datatype Envelope = V2Env(v2: V2Response) | V1Env(v1: V1Response) | AlbEnv(alb: AlbResponse) | LcdEnv(lcd: LcdResponse)

  /** `json.Marshal`, supplied by the caller; it may fail with a message. */
  type Marshal = Envelope -> Result<seq<uint8>, string>

  /**
   * The end of a transcoding: a value, an error, or a Go runtime panic (an assignment into the
   * never-allocated `MultiValueHeaders` map).
   */
  datatype Transcoded<T> = Done(value: T) | Failed(err: Error) | Panicked

  /**
   * The reply body: standard base64 exactly when the first Content-Type value is
   * "application/octet-stream", the raw bytes otherwise.
   */
  function EncodeBody(s: WriterState): (r: (string, bool))
    ensures r.1 <==> Get(s.header, ContentType) == OctetStream
    ensures r.1 ==> Base64.Decode(r.0) == Some(s.body)
    ensures !r.1 ==> r.0 == BytesToString(s.body)
  {
    if Get(s.header, ContentType) == OctetStream then
      Base64.DecodeEncode(s.body);
      (Base64.Encode(s.body), true)
    else (BytesToString(s.body), false)
  }

  /** Whether some header key holds more than one value. */
  predicate HasMultiValue(h: Header) {
    exists k :: k in h && |h[k]| > 1
  }

  /** The header keys that hold exactly one value, each mapped to it. */
  function SingleValues(h: Header): map<string, string> {
    map k | k in h && |h[k]| == 1 :: h[k][0]
  }

  /** The header keys other than Set-Cookie, each mapped to its values joined with ",". */
  function JoinedValues(h: Header): map<string, string> {
    map k | k in h && k != SetCookie :: Join(h[k], ",")
  }

  /** The Set-Cookie values, in order. */
  function Cookies(h: Header): seq<string> {
    if SetCookie in h then h[SetCookie] else []
  }

  /** `apiGatewayV2Response.TranscodeFrom` on a fresh envelope. */
  function TranscodeV2(s: WriterState): V2Response {
    var (body, b64) := EncodeBody(s);
    V2Response(s.statusCode, JoinedValues(s.header), Cookies(s.header), body, b64)
  }

  /** `apiGatewayV1Response.TranscodeFrom` on a fresh envelope, whose `MultiValueHeaders` is nil. */
  function TranscodeV1(s: WriterState): Transcoded<V1Response> {
    if HasMultiValue(s.header) then Panicked
    else
      var (body, b64) := EncodeBody(s);
      Done(V1Response(s.statusCode, SingleValues(s.header), map[], body, b64))
  }

  /** `albResponse.TranscodeFrom` on a fresh envelope, whose `MultiValueHeaders` is nil. */
  function TranscodeAlb(s: WriterState): Transcoded<AlbResponse> {
    if HasMultiValue(s.header) then Panicked
    else
      var (body, b64) := EncodeBody(s);
      Done(AlbResponse(s.statusCode, StatusText(s.statusCode), SingleValues(s.header), map[], body, b64))
  }

  /** The reply used when no format was prepared: status and body only. */
  function TranscodeLcd(s: WriterState): LcdResponse {
    var (body, b64) := EncodeBody(s);
    LcdResponse(s.statusCode, body, b64)
  }

  /** The envelope `ambiguousLambdaResponse.TranscodeFrom` hands to `json.Marshal`. */
  function PreparedEnvelope(s: WriterState): Transcoded<Envelope> {
    match s.prepared
    case None => Done(LcdEnv(TranscodeLcd(s)))
    case Some(V2) => Done(V2Env(TranscodeV2(s)))
    case Some(V1) =>
      (match TranscodeV1(s) case Done(r) => Done(V1Env(r)) case Failed(e) => Failed(e) case Panicked => Panicked)
    case Some(Alb) =>
      (match TranscodeAlb(s) case Done(r) => Done(AlbEnv(r)) case Failed(e) => Failed(e) case Panicked => Panicked)
  }

  /** `ambiguousLambdaResponse.TranscodeFrom`: the serialised reply bytes, or why there are none. */
  function TranscodeAmbiguous(s: WriterState, marshal: Marshal): Transcoded<seq<uint8>> {
    match PreparedEnvelope(s)
    case Done(env) =>
      (match marshal(env)
       case Success(bytes) => Done(bytes)
       case Failure(m) => Failed(MarshalResponse(m)))
    case Failed(e) => Failed(e)
    case Panicked => Panicked
  }

  /** Go's `http.StatusText`: the reason phrase of a registered code, "" for any other. */
  function StatusText(code: int): (r: string)
    ensures r != "" ==> 100 <= code <= 511
  {
    match code
    case 100 => "Continue"
    case 101 => "Switching Protocols"
    case 102 => "Processing"
    case 103 => "Early Hints"
    case 200 => "OK"
    case 201 => "Created"
    case 202 => "Accepted"
    case 203 => "Non-Authoritative Information"
    case 204 => "No Content"
    case 205 => "Reset Content"
    case 206 => "Partial Content"
    case 207 => "Multi-Status"
    case 208 => "Already Reported"
    case 226 => "IM Used"
    case 300 => "Multiple Choices"
    case 301 => "Moved Permanently"
    case 302 => "Found"
    case 303 => "See Other"
    case 304 => "Not Modified"
    case 305 => "Use Proxy"
    case 307 => "Temporary Redirect"
    case 308 => "Permanent Redirect"
    case 400 => "Bad Request"
    case 401 => "Unauthorized"
    case 402 => "Payment Required"
    case 403 => "Forbidden"
    case 404 => "Not Found"
    case 405 => "Method Not Allowed"
    case 406 => "Not Acceptable"
    case 407 => "Proxy Authentication Required"
    case 408 => "Request Timeout"
    case 409 => "Conflict"
    case 410 => "Gone"
    case 411 => "Length Required"
    case 412 => "Precondition Failed"
    case 413 => "Request Entity Too Large"
    case 414 => "Request URI Too Long"
    case 415 => "Unsupported Media Type"
    case 416 => "Requested Range Not Satisfiable"
    case 417 => "Expectation Failed"
    case 418 => "I'm a teapot"
    case 421 => "Misdirected Request"
    case 422 => "Unprocessable Entity"
    case 423 => "Locked"
    case 424 => "Failed Dependency"
    case 425 => "Too Early"
    case 426 => "Upgrade Required"
    case 428 => "Precondition Required"
    case 429 => "Too Many Requests"
    case 431 => "Request Header Fields Too Large"
    case 451 => "Unavailable For Legal Reasons"
    case 500 => "Internal Server Error"
    case 501 => "Not Implemented"
    case 502 => "Bad Gateway"
    case 503 => "Service Unavailable"
    case 504 => "Gateway Timeout"
    case 505 => "HTTP Version Not Supported"
    case 506 => "Variant Also Negotiates"
    case 507 => "Insufficient Storage"
    case 508 => "Loop Detected"
    case 510 => "Not Extended"
    case 511 => "Network Authentication Required"
    case _ => ""
  }

  // ----- what the transcoders promise -----

  predicate CommaFree(values: seq<string>) {
    forall i :: 0 <= i < |values| ==> ',' !in values[i]
  }

  /**
   * V2: the status is copied, every Set-Cookie value moves in order into `cookies`, Set-Cookie never
   * appears among `headers`, and every other key (even one without values) becomes one header whose
   * values can be split back at "," when none of them holds a comma.
   */
  lemma TranscodeV2Placement(s: WriterState)
    ensures TranscodeV2(s).statusCode == s.statusCode
    ensures TranscodeV2(s).headers.Keys == s.header.Keys - {SetCookie}
    ensures SetCookie in s.header ==> TranscodeV2(s).cookies == s.header[SetCookie]
    ensures SetCookie !in s.header ==> TranscodeV2(s).cookies == []
    ensures forall k :: k in s.header && k != SetCookie && |s.header[k]| > 0 && CommaFree(s.header[k]) ==>
      Split(TranscodeV2(s).headers[k], ',') == s.header[k]
  {
    var r := TranscodeV2(s);
    forall k | k in s.header && k != SetCookie && |s.header[k]| > 0 && CommaFree(s.header[k])
      ensures Split(r.headers[k], ',') == s.header[k]
    {
      SplitJoin(s.header[k], ',');
    }
  }

  /**
   * V1 and ALB, when no key holds several values: the status is copied, each single-valued key
   * lands in `headers` with its value, a key without values lands nowhere, and `multiValueHeaders`
   * stays empty, so the header is recovered from `headers` up to its empty keys.
   */
  lemma {:induction false} SingleValuesRecover(h: Header)
    requires !HasMultiValue(h)
    ensures SingleValues(h).Keys <= h.Keys
    ensures forall k :: k in h ==> (k in SingleValues(h) <==> |h[k]| > 0)
    ensures (map k | k in SingleValues(h) :: [SingleValues(h)[k]]) == (map k | k in h && |h[k]| > 0 :: h[k])
  {
    var a := map k | k in SingleValues(h) :: [SingleValues(h)[k]];
    var b := map k | k in h && |h[k]| > 0 :: h[k];
    forall k | k in h ensures k in SingleValues(h) <==> |h[k]| > 0 {
      assert !(|h[k]| > 1);
    }
    forall k | k in a ensures k in b && a[k] == b[k] {
      assert |h[k]| == 1;
      assert [h[k][0]] == h[k];
    }
    assert a.Keys == b.Keys;
  }

  lemma TranscodeV1Placement(s: WriterState)
    ensures TranscodeV1(s).Panicked? <==> HasMultiValue(s.header)
    ensures !TranscodeV1(s).Failed?
    ensures TranscodeV1(s).Done? ==>
      var r := TranscodeV1(s).value;
      && r.statusCode == s.statusCode
      && r.multiValueHeaders == map[]
      && (forall k :: k in s.header ==> (k in r.headers <==> |s.header[k]| > 0))
      && r.headers.Keys <= s.header.Keys
      && (map k | k in r.headers :: [r.headers[k]]) == (map k | k in s.header && |s.header[k]| > 0 :: s.header[k])
  {
    if !HasMultiValue(s.header) {
      SingleValuesRecover(s.header);
    }
  }

  /** ALB places headers as V1 does and also describes the status with its standard reason phrase. */
  lemma TranscodeAlbPlacement(s: WriterState)
    ensures TranscodeAlb(s).Panicked? <==> HasMultiValue(s.header)
    ensures !TranscodeAlb(s).Failed?
    ensures TranscodeAlb(s).Done? ==>
      var r := TranscodeAlb(s).value;
      && r.statusCode == s.statusCode
      && r.statusDescription == StatusText(s.statusCode)
      && r.multiValueHeaders == map[]
      && (forall k :: k in s.header ==> (k in r.headers <==> |s.header[k]| > 0))
      && r.headers.Keys <= s.header.Keys
      && (map k | k in r.headers :: [r.headers[k]]) == (map k | k in s.header && |s.header[k]| > 0 :: s.header[k])
  {
    if !HasMultiValue(s.header) {
      SingleValuesRecover(s.header);
    }
  }

  /**
   * The dispatcher delegates to the prepared format and uses the status/body-only envelope when
   * none was prepared; it yields bytes only when both transcoding and marshalling succeed, fails
   * only because marshalling did, and panics only for a V1 or ALB reply with a multi-valued header.
   */
  lemma TranscodeAmbiguousOutcomes(s: WriterState, marshal: Marshal)
    ensures TranscodeAmbiguous(s, marshal).Panicked? <==>
      (s.prepared == Some(V1) || s.prepared == Some(Alb)) && HasMultiValue(s.header)
    ensures TranscodeAmbiguous(s, marshal).Failed? ==>
      PreparedEnvelope(s).Done? && marshal(PreparedEnvelope(s).value).Failure? &&
      TranscodeAmbiguous(s, marshal).err == MarshalResponse(marshal(PreparedEnvelope(s).value).error)
    ensures TranscodeAmbiguous(s, marshal).Done? ==>
      PreparedEnvelope(s).Done? && marshal(PreparedEnvelope(s).value) == Success(TranscodeAmbiguous(s, marshal).value)
  {
  }

  /**
   * The dispatcher's envelope is of the prepared format (the status/body-only one when none was
   * prepared) and carries the writer's status.
   */
  lemma PreparedEnvelopeFormat(s: WriterState)
    ensures PreparedEnvelope(s).Done? ==>
      match s.prepared
      case None => PreparedEnvelope(s).value.LcdEnv? && PreparedEnvelope(s).value.lcd.statusCode == s.statusCode
      case Some(V2) => PreparedEnvelope(s).value.V2Env? && PreparedEnvelope(s).value.v2.statusCode == s.statusCode
      case Some(V1) => PreparedEnvelope(s).value.V1Env? && PreparedEnvelope(s).value.v1.statusCode == s.statusCode
      case Some(Alb) => PreparedEnvelope(s).value.AlbEnv? && PreparedEnvelope(s).value.alb.statusCode == s.statusCode
  {
  }

  /** `apiGatewayV2Response.TranscodeFrom`: one pass over the header map, in any order. */
  method TranscodeV2From(w: ResponseWriter) returns (r: V2Response)
    ensures r == TranscodeV2(w.State())
  {
    var h := w.header;
    var headers: map<string, string> := map[];
    var cookies: seq<string> := [];
    var keys := h.Keys;
    while keys != {}
      invariant keys <= h.Keys
      invariant headers == map k | k in h && k !in keys && k != SetCookie :: Join(h[k], ",")
      invariant cookies == if SetCookie in h && SetCookie !in keys then h[SetCookie] else []
      decreases keys
    {
      var k :| k in keys;
      if k == SetCookie {
        cookies := cookies + h[k];
      } else {
        headers := headers[k := Join(h[k], ",")];
      }
      keys := keys - {k};
    }
    var (body, b64) := EncodeBody(w.State());
    r := V2Response(w.statusCode, headers, cookies, body, b64);
  }

  /**
   * The loop shared by the V1 and ALB transcoders: single values go to `headers`, and a key with
   * several values would be stored into the nil `MultiValueHeaders` map, which panics.
   */
  method PlaceSingleValues(h: Header) returns (r: Transcoded<map<string, string>>)
    ensures r.Panicked? <==> HasMultiValue(h)
    ensures r.Done? ==> r.value == SingleValues(h)
    ensures !r.Failed?
  {
    var headers: map<string, string> := map[];
    var keys := h.Keys;
    while keys != {}
      invariant keys <= h.Keys
      invariant forall k :: k in h && k !in keys ==> |h[k]| <= 1
      invariant headers == map k | k in h && k !in keys && |h[k]| == 1 :: h[k][0]
      decreases keys
    {
      var k :| k in keys;
      if |h[k]| > 1 {
        return Panicked;
      } else if |h[k]| == 1 {
        headers := headers[k := h[k][0]];
      }
      keys := keys - {k};
    }
    r := Done(headers);
  }

  /** `apiGatewayV1Response.TranscodeFrom` on a fresh envelope. */
  method TranscodeV1From(w: ResponseWriter) returns (r: Transcoded<V1Response>)
    ensures r == TranscodeV1(w.State())
  {
    var placed := PlaceSingleValues(w.header);
    if placed.Panicked? {
      return Panicked;
    }
    var (body, b64) := EncodeBody(w.State());
    r := Done(V1Response(w.statusCode, placed.value, map[], body, b64));
  }

  /** `albResponse.TranscodeFrom` on a fresh envelope. */
  method TranscodeAlbFrom(w: ResponseWriter) returns (r: Transcoded<AlbResponse>)
    ensures r == TranscodeAlb(w.State())
  {
    var description := StatusText(w.statusCode);
    var placed := PlaceSingleValues(w.header);
    if placed.Panicked? {
      return Panicked;
    }
    var (body, b64) := EncodeBody(w.State());
    r := Done(AlbResponse(w.statusCode, description, placed.value, map[], body, b64));
  }

  /** `ambiguousLambdaResponse.TranscodeFrom`: its `bytes` are the `Done` value. */
  method TranscodeAmbiguousFrom(w: ResponseWriter, marshal: Marshal) returns (r: Transcoded<seq<uint8>>)
    ensures r == TranscodeAmbiguous(w.State(), marshal)
  {
    var out: Envelope;
    match w.preparedResponse {
      case None =>
        out := LcdEnv(TranscodeLcd(w.State()));
      case Some(V2) =>
        var v2 := TranscodeV2From(w);
        out := V2Env(v2);
      case Some(V1) =>
        var v1 := TranscodeV1From(w);
        if v1.Panicked? {
          return Panicked;
        }
        out := V1Env(v1.value);
      case Some(Alb) =>
        var alb := TranscodeAlbFrom(w);
        if alb.Panicked? {
          return Panicked;
        }
        out := AlbEnv(alb.value);
    }
    var json := marshal(out);
    if json.Failure? {
      return Failed(MarshalResponse(json.error));
    }
    r := Done(json.value);
  }
}
