/**
 * The request side of the bridge: telling the three Lambda event envelopes apart, and turning each
 * into the `*http.Request` the wrapped handler receives (query string, merged headers,
 * percent-decoded path, body, remote address).
 */
module Requests {
  import opened Wrappers
  import opened Text
  import opened Headers
  import opened Urls
  import opened Errors
  import opened Writer

  /** `events.APIGatewayV2HTTPRequest`, with `requestContext.http.method` and `.sourceIp` lifted to the top. */
  datatype V2Request = V2Request(
    rawPath: string, rawQueryString: string, queryStringParameters: map<string, string>,
    headers: map<string, string>, httpMethod: string, sourceIP: string, body: string, isBase64Encoded: bool)

  /** `events.APIGatewayProxyRequest`, with `requestContext.identity.sourceIp` lifted to the top. */
  datatype V1Request = V1Request(
    path: string, httpMethod: string, headers: map<string, string>, multiValueHeaders: map<string, seq<string>>,
    queryStringParameters: map<string, string>, multiValueQueryStringParameters: map<string, seq<string>>,
    sourceIP: string, body: string, isBase64Encoded: bool)

  /** `events.ALBTargetGroupRequest`. */
  datatype AlbRequest = AlbRequest(
    path: string, httpMethod: string, headers: map<string, string>, multiValueHeaders: map<string, seq<string>>,
    queryStringParameters: map<string, string>, body: string, isBase64Encoded: bool)

  /** The request a classified payload was decoded into. */
  datatype TypedRequest = AlbReq(alb: AlbRequest) | V2Req(v2: V2Request) | V1Req(v1: V1Request)

  /** The fields of `ambiguousLambdaRequest` that tell the envelopes apart. */
  datatype Discriminators = Discriminators(targetGroupArn: string, accountId: string, version: string)

  /**
   * A raw payload, through what `json.Unmarshal` makes of it: the discriminators and each typed
   * envelope, or the decoding error.
   */
  datatype Payload = Payload(
    probe: Result<Discriminators, string>, alb: Result<AlbRequest, string>,
    v2: Result<V2Request, string>, v1: Result<V1Request, string>)

  /** The body handed to `http.NewRequestWithContext`. */
  datatype RequestBody =
    /** A reader over the envelope's body text. */
    | Text(text: string)
    /** A base64 decoder wrapped around a nil reader: the envelope's body is not in it, and reading it dereferences nil. */
    | Base64OverNil

  datatype Url = Url(host: string, path: string, rawQuery: string)

  /** The parts of the `*http.Request` the bridge sets. */
  datatype CanonicalRequest = CanonicalRequest(
    httpMethod: string, url: Url, remoteAddr: string, header: Header, body: RequestBody)

  // ----- classification -----

  /** The envelope a payload's discriminators select; ALB wins over v2, v2 over v1. */
  function Classify(d: Discriminators): Option<Format> {
    if d.targetGroupArn != "" then Some(Alb)
    else if d.version == "2.0" then Some(V2)
    else if d.accountId != "" then Some(V1)
    else None
  }

  /** The envelope format `demuxAmbiguousRequest` prepares on the writer, if it prepares one. */
  function Prepares(p: Payload): Option<Format> {
    if p.probe.Failure? then None else Classify(p.probe.value)
  }

  /** The request `demuxAmbiguousRequest` returns, or its error. */
  function Demux(p: Payload): Result<TypedRequest, Error> {
    match p.probe
    case Failure(m) => Failure(JsonError(m))
    case Success(d) =>
      match Classify(d)
      case None => Failure(UnsupportedRequestType)
      case Some(Alb) => (match p.alb case Success(r) => Success(AlbReq(r)) case Failure(m) => Failure(JsonError(m)))
      case Some(V2) => (match p.v2 case Success(r) => Success(V2Req(r)) case Failure(m) => Failure(JsonError(m)))
      case Some(V1) => (match p.v1 case Success(r) => Success(V1Req(r)) case Failure(m) => Failure(JsonError(m)))
  }

  function FormatOf(t: TypedRequest): Format {
    match t
    case AlbReq(_) => Alb
    case V2Req(_) => V2
    case V1Req(_) => V1
  }

  /** The priority of the discriminators, each case stated in both directions. */
  lemma ClassifyPriority(d: Discriminators)
    ensures Classify(d) == Some(Alb) <==> d.targetGroupArn != ""
    ensures Classify(d) == Some(V2) <==> d.targetGroupArn == "" && d.version == "2.0"
    ensures Classify(d) == Some(V1) <==> d.targetGroupArn == "" && d.version != "2.0" && d.accountId != ""
    ensures Classify(d) == None <==> d.targetGroupArn == "" && d.version != "2.0" && d.accountId == ""
  {
  }

  /**
   * A decoded request always comes with the empty envelope of its own format prepared; a matched
   * marker prepares that envelope even when the typed decoding then fails; a JSON error in the
   * probe or an unsupported payload prepares nothing.
   */
  lemma DemuxPreparesOwnFormat(p: Payload)
    ensures Demux(p).Success? ==> Prepares(p) == Some(FormatOf(Demux(p).value))
    ensures Prepares(p).None? <==> Demux(p) == Failure(UnsupportedRequestType) || p.probe.Failure?
    ensures p.probe.Failure? ==> Demux(p) == Failure(JsonError(p.probe.error))
  {
  }

  /**
   * `demuxAmbiguousRequest`: classifies the payload and, when a marker matched, stores that
   * format's empty envelope in the writer as a side effect.
   */
  method DemuxAmbiguousRequest(p: Payload, rw: ResponseWriter) returns (res: Result<TypedRequest, Error>)
    modifies rw
    ensures res == Demux(p)
    ensures rw.State() == old(rw.State()).(prepared := if Prepares(p).Some? then Prepares(p) else old(rw.preparedResponse))
  {
    if p.probe.Failure? {
      return Failure(JsonError(p.probe.error));
    }
    var ambiguous := p.probe.value;
    if ambiguous.targetGroupArn != "" {
      rw.preparedResponse := Some(Alb);
      res := if p.alb.Success? then Success(AlbReq(p.alb.value)) else Failure(JsonError(p.alb.error));
    } else if ambiguous.version == "2.0" {
      rw.preparedResponse := Some(V2);
      res := if p.v2.Success? then Success(V2Req(p.v2.value)) else Failure(JsonError(p.v2.error));
    } else if ambiguous.accountId != "" {
      rw.preparedResponse := Some(V1);
      res := if p.v1.Success? then Success(V1Req(p.v1.value)) else Failure(JsonError(p.v1.error));
    } else {
      res := Failure(UnsupportedRequestType);
    }
  }

  // ----- query strings -----

  predicate IsByteMap(m: map<string, string>) {
    forall k :: k in m ==> IsByteString(k) && IsByteString(m[k])
  }

  predicate IsByteMultiMap(m: map<string, seq<string>>) {
    forall k :: k in m ==> IsByteString(k) && forall j :: 0 <= j < |m[k]| ==> IsByteString(m[k][j])
  }

  /** `params.Add(k, v)` for every entry of a single-valued map: each key holds its one value. */
  function SingleParams(qs: map<string, string>): (v: Values)
    ensures IsByteMap(qs) ==> IsByteValues(v)
  {
    map k | k in qs :: [qs[k]]
  }

  /**
   * `params.Add(k, vv)` for every value of every entry of a multi-valued map, after `p`: a key
   * keeps its earlier values, followed by all its multi values; a key whose list is empty is not added.
   */
  function WithMulti(p: Values, mv: map<string, seq<string>>): (v: Values)
    ensures IsByteValues(p) && IsByteMultiMap(mv) ==> IsByteValues(v)
  {
    map k | k in p.Keys + mv.Keys && (k in p || |mv[k]| > 0) ::
      (if k in p then p[k] else []) + (if k in mv then mv[k] else [])
  }

  method AddSingleParams(qs: map<string, string>) returns (params: Values)
    ensures params == SingleParams(qs)
  {
    params := map[];
    var keys := qs.Keys;
    while keys != {}
      invariant keys <= qs.Keys
      invariant params == map k | k in qs && k !in keys :: [qs[k]]
      decreases keys
    {
      var k :| k in keys;
      assert k !in params;
      assert [] + [qs[k]] == [qs[k]];
      params := Urls.Add(params, k, qs[k]);
      keys := keys - {k};
      assert params.Keys == (set k' | k' in qs && k' !in keys);
    }
  }

  /** `p` with the values `vs` appended under `k`; nothing is added when `vs` is empty. */
  function Appended(p: Values, k: string, vs: seq<string>): Values {
    if |vs| == 0 then p else p[k := (if k in p then p[k] else []) + vs]
  }

  /** `params.Add(k, vv)` for each `vv` of `vs`, in order. */
  method AddAll(p: Values, k: string, vs: seq<string>) returns (params: Values)
    ensures params == Appended(p, k, vs)
  {
    params := p;
    ghost var prior := if k in p then p[k] else [];
    var j := 0;
    while j < |vs|
      invariant 0 <= j <= |vs|
      invariant params == Appended(p, k, vs[..j])
    {
      ghost var cur := if k in params then params[k] else [];
      assert cur == prior + vs[..j] by {
        if j == 0 {
          assert vs[..j] == [];
          assert prior + [] == prior;
        }
      }
      assert vs[..j + 1] == vs[..j] + [vs[j]];
      assert cur + [vs[j]] == prior + vs[..j + 1];
      params := Urls.Add(params, k, vs[j]);
      if j == 0 {
        assert params == p[k := cur + [vs[j]]];
      } else {
        assert params == p[k := prior + vs[..j]][k := cur + [vs[j]]];
        assert params == p[k := cur + [vs[j]]];
      }
      j := j + 1;
    }
    assert vs[..j] == vs;
  }

  lemma WithMultiStepKeys(p: Values, m: map<string, seq<string>>, k: string, vs: seq<string>)
    requires k !in m
    ensures Appended(WithMulti(p, m), k, vs).Keys == WithMulti(p, m[k := vs]).Keys
  {
  }

  lemma WithMultiStep(p: Values, m: map<string, seq<string>>, k: string, vs: seq<string>)
    requires k !in m
    ensures Appended(WithMulti(p, m), k, vs) == WithMulti(p, m[k := vs])
  {
    var w := WithMulti(p, m);
    var a := Appended(w, k, vs);
    var b := WithMulti(p, m[k := vs]);
    WithMultiStepKeys(p, m, k, vs);
    forall x | x in a ensures a[x] == b[x] {
      if x == k {
        if |vs| == 0 {
          assert k in p;
          assert p[k] + [] == p[k];
        } else {
          assert a[x] == (if k in w then w[k] else []) + vs;
          assert (if k in w then w[k] else []) == (if k in p then p[k] else []);
        }
      }
    }
  }

  /** The entries of `mv` whose keys are no longer in `keys`. */
  function Visited(mv: map<string, seq<string>>, keys: set<string>): map<string, seq<string>> {
    map k | k in mv && k !in keys :: mv[k]
  }

  lemma VisitedStep(mv: map<string, seq<string>>, keys: set<string>, k: string)
    requires k in keys && keys <= mv.Keys
    ensures k !in Visited(mv, keys)
    ensures Visited(mv, keys)[k := mv[k]] == Visited(mv, keys - {k})
  {
  }

  method AddMultiParams(p: Values, mv: map<string, seq<string>>) returns (params: Values)
    ensures params == WithMulti(p, mv)
  {
    params := p;
    var keys := mv.Keys;
    assert Visited(mv, keys) == map[];
    assert WithMulti(p, map[]) == p by {
      forall k | k in p ensures WithMulti(p, map[])[k] == p[k] {
        assert p[k] + [] == p[k];
      }
    }
    while keys != {}
      invariant keys <= mv.Keys
      invariant params == WithMulti(p, Visited(mv, keys))
      decreases keys
    {
      var k :| k in keys;
      VisitedStep(mv, keys, k);
      WithMultiStep(p, Visited(mv, keys), k, mv[k]);
      params := AddAll(params, k, mv[k]);
      keys := keys - {k};
    }
    assert Visited(mv, keys) == mv;
  }

  // ----- headers -----

  /** `headers.Add(k, v)` for every entry, visiting them in the order the map iteration gives. */
  method AddHeaders(singles: map<string, string>) returns (h: Header, ghost order: seq<string>)
    ensures Enumerates(order, singles.Keys)
    ensures h == Merge(singles, order)
  {
    h := map[];
    order := [];
    var keys := singles.Keys;
    while keys != {}
      invariant keys <= singles.Keys
      invariant Enumerates(order, singles.Keys - keys)
      invariant h == Merge(singles, order)
      decreases keys
    {
      var k :| k in keys;
      MergeSnoc(singles, order, k);
      EnumeratesSnoc(order, singles.Keys - keys, k);
      assert singles.Keys - keys + {k} == singles.Keys - (keys - {k});
      h := Headers.Add(h, k, singles[k]);
      order := order + [k];
      keys := keys - {k};
    }
    assert singles.Keys - keys == singles.Keys;
  }

  /** `headers[k] = v` for every entry: the raw key is used as is. */
  method AssignHeaders(h: Header, mv: map<string, seq<string>>) returns (r: Header)
    ensures r == h + mv
  {
    r := h;
    var keys := mv.Keys;
    while keys != {}
      invariant keys <= mv.Keys
      invariant r == h + (map k | k in mv && k !in keys :: mv[k])
      decreases keys
    {
      var k :| k in keys;
      r := r[k := mv[k]];
      keys := keys - {k};
    }
    assert (map k | k in mv && k !in keys :: mv[k]) == mv;
  }

  // ----- building the request -----

  predicate ValidMethod(m: string) {
    |m| > 0 && IsToken(m)
  }

  /** The method `http.NewRequestWithContext` uses: "" stands for GET. */
  function RequestMethod(httpMethod: string): string {
    if httpMethod == "" then "GET" else httpMethod
  }

  /**
   * `url.Parse` of `u.String()` inside `http.NewRequestWithContext`: the URL read back from the
   * printed one, or the parser's error text. Go's parser rejects control bytes and malformed hosts
   * and ports, and cuts the query at '#'; the model takes its outcome as given.
   */
  type Reparse = Url -> Result<Url, string>

  /**
   * `http.NewRequestWithContext`, as far as it decides anything here: the method is checked before
   * the URL is parsed again, and the request carries the method, the parsed URL and the body.
   */
  function NewRequest(httpMethod: string, url: Url, body: RequestBody, reparse: Reparse): (r: Result<CanonicalRequest, Error>)
    ensures r.Success? <==> ValidMethod(RequestMethod(httpMethod)) && reparse(url).Success?
    ensures !ValidMethod(RequestMethod(httpMethod)) ==> r == Failure(InvalidMethod(RequestMethod(httpMethod)))
    ensures ValidMethod(RequestMethod(httpMethod)) && reparse(url).Failure? ==> r == Failure(ParseUrl(reparse(url).error))
    ensures r.Success? ==>
      r.value.httpMethod == RequestMethod(httpMethod) && reparse(url) == Success(r.value.url) && r.value.body == body
  {
    var m := RequestMethod(httpMethod);
    if !ValidMethod(m) then Failure(InvalidMethod(m))
    else
      match reparse(url)
      case Failure(msg) => Failure(ParseUrl(msg))
      case Success(u) => Success(CanonicalRequest(m, u, "", map[], body))
  }

  /**
   * The common tail of every `Canonize`: percent-decode the path, build the URL with the Host
   * header's value as host, pick the body, build the request, then set its remote address and headers.
   */
  function Assemble(
    httpMethod: string, rawPath: string, rawQuery: string, headers: Header,
    isBase64Encoded: bool, body: string, remoteAddr: string, reparse: Reparse): Result<CanonicalRequest, Error>
  {
    match PathUnescape(rawPath)
    case Failure(esc) => Failure(UnescapePath(rawPath, esc))
    case Success(path) =>
      var url := Url(Get(headers, HostKey), path, rawQuery);
      var reader := if isBase64Encoded then Base64OverNil else Text(body);
      match NewRequest(httpMethod, url, reader, reparse)
      case Failure(e) => Failure(e)
      case Success(out) => Success(out.(remoteAddr := remoteAddr, header := headers))
  }

  method Finish(
    httpMethod: string, rawPath: string, rawQuery: string, headers: Header,
    isBase64Encoded: bool, body: string, remoteAddr: string, reparse: Reparse) returns (res: Result<CanonicalRequest, Error>)
    ensures res == Assemble(httpMethod, rawPath, rawQuery, headers, isBase64Encoded, body, remoteAddr, reparse)
  {
    var path := PathUnescape(rawPath);
    if path.Failure? {
      return Failure(UnescapePath(rawPath, path.error));
    }
    var u := Url(Get(headers, HostKey), path.value, rawQuery);
    var reader: RequestBody;
    if isBase64Encoded {
      reader := Base64OverNil;
    } else {
      reader := Text(body);
    }
    var out := NewRequest(httpMethod, u, reader, reparse);
    if out.Failure? {
      return Failure(out.error);
    }
    res := Success(out.value.(remoteAddr := remoteAddr, header := headers));
  }

  /**
   * What every `Canonize` promises about its tail: a malformed escape in the path is reported
   * with the raw path quoted and nothing built; otherwise the method defaults to GET and must be a
   * token, and then the URL built from the Host header, the decoded path and the query must parse
   * again; on success the request carries that parsed URL, and a base64 envelope body is not
   * carried over.
   */
  lemma AssembleOutcome(
    httpMethod: string, rawPath: string, rawQuery: string, headers: Header,
    isBase64Encoded: bool, body: string, remoteAddr: string, reparse: Reparse)
    ensures var res := Assemble(httpMethod, rawPath, rawQuery, headers, isBase64Encoded, body, remoteAddr, reparse);
      var m := RequestMethod(httpMethod);
      && (!WellEscaped(rawPath) <==> res.Failure? && res.error.UnescapePath?)
      && (res.Failure? && res.error.UnescapePath? ==>
            res.error.rawPath == rawPath && Message(res.error)[..24 + |rawPath|] == "failed to unescape path " + rawPath)
      && (WellEscaped(rawPath) && !ValidMethod(m) ==> res == Failure(InvalidMethod(m)))
      && (WellEscaped(rawPath) <==> PathUnescape(rawPath).Success?)
      && (PathUnescape(rawPath).Success? && ValidMethod(m) ==>
            var sent := SentUrl(headers, rawPath, rawQuery);
            && (reparse(sent).Failure? ==> res == Failure(ParseUrl(reparse(sent).error)))
            && (reparse(sent).Success? ==> res.Success? && res.value.url == reparse(sent).value))
      && (res.Success? ==>
            && WellEscaped(rawPath) && ValidMethod(m)
            && res.value.httpMethod == m
            && res.value.header == headers
            && res.value.remoteAddr == remoteAddr
            && res.value.body == (if isBase64Encoded then Base64OverNil else Text(body)))
  {
    UnescapeSucceedsIff(rawPath, PathSegment);
    var res := Assemble(httpMethod, rawPath, rawQuery, headers, isBase64Encoded, body, remoteAddr, reparse);
    if res.Failure? && res.error.UnescapePath? {
      var msg := Message(res.error);
      assert msg == ("failed to unescape path " + rawPath) + (" from request: " + "invalid URL escape " + Quote(res.error.escape));
    }
  }

  /** The URL a `Canonize` hands to the second parse, once its path has been decoded. */
  function SentUrl(headers: Header, rawPath: string, rawQuery: string): Url
    requires PathUnescape(rawPath).Success?
  {
    Url(Get(headers, HostKey), PathUnescape(rawPath).value, rawQuery)
  }

  // ----- API Gateway v2 -----

  /** The v2 query string: `rawQueryString` as is when present, else the encoded single-valued parameters. */
  function V2Query(r: V2Request): string
    requires IsByteMap(r.queryStringParameters)
  {
    if |r.rawQueryString| == 0 then Encode(SingleParams(r.queryStringParameters)) else r.rawQueryString
  }

  /** `apiGatewayV2Request.Canonize` when the header map is visited in `order`. */
  function CanonicalV2(r: V2Request, order: seq<string>, reparse: Reparse): Result<CanonicalRequest, Error>
    requires IsByteMap(r.queryStringParameters)
  {
    Assemble(r.httpMethod, r.rawPath, V2Query(r), Merge(r.headers, order), r.isBase64Encoded, r.body, r.sourceIP, reparse)
  }

  method CanonizeV2(r: V2Request, reparse: Reparse) returns (res: Result<CanonicalRequest, Error>, ghost order: seq<string>)
    requires IsByteMap(r.queryStringParameters)
    ensures Enumerates(order, r.headers.Keys)
    ensures res == CanonicalV2(r, order, reparse)
  {
    var rawQuery := r.rawQueryString;
    if |rawQuery| == 0 {
      var params := AddSingleParams(r.queryStringParameters);
      rawQuery := Encode(params);
    }
    var headers;
    headers, order := AddHeaders(r.headers);
    res := Finish(r.httpMethod, r.rawPath, rawQuery, headers, r.isBase64Encoded, r.body, r.sourceIP, reparse);
  }

  /**
   * v2: the query handed to the second parse is a non-empty `rawQueryString` verbatim, and otherwise
   * decodes back to the single-valued parameters; the request carries what that parse gives back.
   * The remote address is the context's source IP.
   */
  lemma CanonicalV2Query(r: V2Request, order: seq<string>, reparse: Reparse)
    requires IsByteMap(r.queryStringParameters)
    ensures CanonicalV2(r, order, reparse).Success? ==> CanonicalV2(r, order, reparse).value.remoteAddr == r.sourceIP
    ensures CanonicalV2(r, order, reparse).Success? ==>
      PathUnescape(r.rawPath).Success? &&
      reparse(SentUrl(Merge(r.headers, order), r.rawPath, V2Query(r))) == Success(CanonicalV2(r, order, reparse).value.url)
    ensures |r.rawQueryString| > 0 ==> V2Query(r) == r.rawQueryString
    ensures |r.rawQueryString| == 0 ==> DecodeQuery(V2Query(r)) == Success(SingleParams(r.queryStringParameters))
  {
    AssembleOutcome(r.httpMethod, r.rawPath, V2Query(r), Merge(r.headers, order), r.isBase64Encoded, r.body, r.sourceIP, reparse);
    DecodeQueryEncode(SingleParams(r.queryStringParameters));
  }


  // ----- API Gateway v1 -----

  /** The v1 parameters: the single values first, then every multi value. */
  function V1Params(r: V1Request): Values {
    WithMulti(SingleParams(r.queryStringParameters), r.multiValueQueryStringParameters)
  }

  /** The v1 headers: single values added under canonical keys, then multi values assigned under raw keys. */
  function V1Headers(r: V1Request, order: seq<string>): Header {
    Merge(r.headers, order) + r.multiValueHeaders
  }

  function CanonicalV1(r: V1Request, order: seq<string>, reparse: Reparse): Result<CanonicalRequest, Error>
    requires IsByteMap(r.queryStringParameters) && IsByteMultiMap(r.multiValueQueryStringParameters)
  {
    Assemble(r.httpMethod, r.path, Encode(V1Params(r)), V1Headers(r, order), r.isBase64Encoded, r.body, r.sourceIP, reparse)
  }

  method CanonizeV1(r: V1Request, reparse: Reparse) returns (res: Result<CanonicalRequest, Error>, ghost order: seq<string>)
    requires IsByteMap(r.queryStringParameters) && IsByteMultiMap(r.multiValueQueryStringParameters)
    ensures Enumerates(order, r.headers.Keys)
    ensures res == CanonicalV1(r, order, reparse)
  {
    var params := AddSingleParams(r.queryStringParameters);
    params := AddMultiParams(params, r.multiValueQueryStringParameters);
    var rawQuery := Encode(params);
    var headers;
    headers, order := AddHeaders(r.headers);
    headers := AssignHeaders(headers, r.multiValueHeaders);
    res := Finish(r.httpMethod, r.path, rawQuery, headers, r.isBase64Encoded, r.body, r.sourceIP, reparse);
  }

  /**
   * v1 query: the query handed to the second parse decodes back to the union of both parameter
   * maps, where a key present in both holds its single value followed by all its multi values.
   */
  lemma CanonicalV1Query(r: V1Request, order: seq<string>, reparse: Reparse)
    requires IsByteMap(r.queryStringParameters) && IsByteMultiMap(r.multiValueQueryStringParameters)
    ensures CanonicalV1(r, order, reparse).Success? ==> CanonicalV1(r, order, reparse).value.remoteAddr == r.sourceIP
    ensures CanonicalV1(r, order, reparse).Success? ==>
      PathUnescape(r.path).Success? &&
      reparse(SentUrl(V1Headers(r, order), r.path, Encode(V1Params(r)))) == Success(CanonicalV1(r, order, reparse).value.url)
    ensures DecodeQuery(Encode(V1Params(r))) == Success(V1Params(r))
    ensures forall k :: k in r.queryStringParameters && k in r.multiValueQueryStringParameters ==>
      V1Params(r)[k] == [r.queryStringParameters[k]] + r.multiValueQueryStringParameters[k]
  {
    AssembleOutcome(r.httpMethod, r.path, Encode(V1Params(r)), V1Headers(r, order), r.isBase64Encoded, r.body, r.sourceIP, reparse);
    DecodeQueryEncode(V1Params(r));
  }


  /**
   * v1 headers: a multi-valued entry is stored under its raw key and wins there; a single-valued
   * entry is found under its canonical key unless a multi-valued entry took that exact key.
   */
  lemma V1HeaderRules(r: V1Request, order: seq<string>)
    requires Enumerates(order, r.headers.Keys)
    ensures forall k :: k in r.multiValueHeaders ==> V1Headers(r, order)[k] == r.multiValueHeaders[k]
    ensures forall k :: k in r.headers && CanonicalKey(k) !in r.multiValueHeaders ==>
      CanonicalKey(k) in V1Headers(r, order) && r.headers[k] in V1Headers(r, order)[CanonicalKey(k)]
  {
    MergeKeepsValues(r.headers, order);
    var merged := Merge(r.headers, order);
    forall k | k in r.headers && CanonicalKey(k) !in r.multiValueHeaders
      ensures CanonicalKey(k) in V1Headers(r, order) && r.headers[k] in V1Headers(r, order)[CanonicalKey(k)]
    {
      assert CanonicalKey(k) in merged;
      assert V1Headers(r, order)[CanonicalKey(k)] == merged[CanonicalKey(k)];
    }
  }

  // ----- ALB -----

  /** `albRequest.sourceIP`: the first X-Forwarded-For entry (raw multi-value key) up to its first comma. */
  function SourceIP(r: AlbRequest): (ip: string)
    ensures ',' !in ip
    ensures "x-forwarded-for" !in r.multiValueHeaders || |r.multiValueHeaders["x-forwarded-for"]| == 0 ==> ip == ""
    ensures "x-forwarded-for" in r.multiValueHeaders && |r.multiValueHeaders["x-forwarded-for"]| > 0 ==>
      ip <= r.multiValueHeaders["x-forwarded-for"][0]
  {
    if "x-forwarded-for" in r.multiValueHeaders && |r.multiValueHeaders["x-forwarded-for"]| > 0 then
      CutPrefix(r.multiValueHeaders["x-forwarded-for"][0], ',');
      Cut(r.multiValueHeaders["x-forwarded-for"][0], ',').0
    else ""
  }

  /** The text before the first separator is a prefix free of separators. */
  lemma {:induction false} CutPrefix(s: string, c: char)
    ensures c !in Cut(s, c).0 && Cut(s, c).0 <= s
    decreases |s|
  {
    if |s| > 0 && s[0] != c {
      CutPrefix(s[1..], c);
      assert s == [s[0]] + s[1..];
    }
  }

  /** The source IP of "a, b" is "a" untrimmed, and of a comma-free entry the whole entry. */
  lemma SourceIPFirstEntry(r: AlbRequest, a: string, b: string)
    requires ',' !in a
    requires "x-forwarded-for" in r.multiValueHeaders && |r.multiValueHeaders["x-forwarded-for"]| > 0
    requires r.multiValueHeaders["x-forwarded-for"][0] == a + "," + b || r.multiValueHeaders["x-forwarded-for"][0] == a
    ensures SourceIP(r) == a
  {
    if r.multiValueHeaders["x-forwarded-for"][0] == a + "," + b {
      CutAtFirst(a, ',', b);
    } else {
      CutNoSeparator(a, ',');
    }
  }

  lemma {:induction false} CutNoSeparator(s: string, c: char)
    requires c !in s
    ensures Cut(s, c).0 == s
    decreases |s|
  {
    if |s| > 0 {
      CutNoSeparator(s[1..], c);
      assert s == [s[0]] + s[1..];
    }
  }

  function CanonicalAlb(r: AlbRequest, order: seq<string>, reparse: Reparse): Result<CanonicalRequest, Error>
    requires IsByteMap(r.queryStringParameters)
  {
    Assemble(r.httpMethod, r.path, Encode(SingleParams(r.queryStringParameters)), Merge(r.headers, order),
      r.isBase64Encoded, r.body, SourceIP(r), reparse)
  }

  method CanonizeAlb(r: AlbRequest, reparse: Reparse) returns (res: Result<CanonicalRequest, Error>, ghost order: seq<string>)
    requires IsByteMap(r.queryStringParameters)
    ensures Enumerates(order, r.headers.Keys)
    ensures res == CanonicalAlb(r, order, reparse)
  {
    var params := AddSingleParams(r.queryStringParameters);
    var rawQuery := Encode(params);
    var headers;
    headers, order := AddHeaders(r.headers);
    var remote := SourceIP(r);
    res := Finish(r.httpMethod, r.path, rawQuery, headers, r.isBase64Encoded, r.body, remote, reparse);
  }

  /**
   * ALB: the query handed to the second parse decodes back to the single-valued parameters only;
   * the remote address is `SourceIP`.
   */
  lemma CanonicalAlbQuery(r: AlbRequest, order: seq<string>, reparse: Reparse)
    requires IsByteMap(r.queryStringParameters)
    ensures CanonicalAlb(r, order, reparse).Success? ==> CanonicalAlb(r, order, reparse).value.remoteAddr == SourceIP(r)
    ensures CanonicalAlb(r, order, reparse).Success? ==>
      PathUnescape(r.path).Success? &&
      reparse(SentUrl(Merge(r.headers, order), r.path, Encode(SingleParams(r.queryStringParameters)))) ==
        Success(CanonicalAlb(r, order, reparse).value.url)
    ensures DecodeQuery(Encode(SingleParams(r.queryStringParameters))) == Success(SingleParams(r.queryStringParameters))
  {
    AssembleOutcome(r.httpMethod, r.path, Encode(SingleParams(r.queryStringParameters)), Merge(r.headers, order),
      r.isBase64Encoded, r.body, SourceIP(r), reparse);
    DecodeQueryEncode(SingleParams(r.queryStringParameters));
  }


  // ----- dispatch -----

  predicate IsByteRequest(t: TypedRequest) {
    match t
    case V2Req(r) => IsByteMap(r.queryStringParameters)
    case V1Req(r) => IsByteMap(r.queryStringParameters) && IsByteMultiMap(r.multiValueQueryStringParameters)
    case AlbReq(r) => IsByteMap(r.queryStringParameters)
  }

  function HeaderKeys(t: TypedRequest): set<string> {
    match t
    case V2Req(r) => r.headers.Keys
    case V1Req(r) => r.headers.Keys
    case AlbReq(r) => r.headers.Keys
  }

  /** The `Canonize` of whichever envelope `t` holds. */
  function Canonical(t: TypedRequest, order: seq<string>, reparse: Reparse): Result<CanonicalRequest, Error>
    requires IsByteRequest(t)
  {
    match t
    case V2Req(r) => CanonicalV2(r, order, reparse)
    case V1Req(r) => CanonicalV1(r, order, reparse)
    case AlbReq(r) => CanonicalAlb(r, order, reparse)
  }

  method Canonize(t: TypedRequest, reparse: Reparse) returns (res: Result<CanonicalRequest, Error>, ghost order: seq<string>)
    requires IsByteRequest(t)
    ensures Enumerates(order, HeaderKeys(t))
    ensures res == Canonical(t, order, reparse)
  {
    match t
    case V2Req(r) =>
      res, order := CanonizeV2(r, reparse);
    case V1Req(r) =>
      res, order := CanonizeV1(r, reparse);
    case AlbReq(r) =>
      res, order := CanonizeAlb(r, reparse);
  }
}
