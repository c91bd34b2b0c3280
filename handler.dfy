/**
 * The invocation pipeline: wrapping the handler in its middlewares, and for each Lambda event
 * classifying it, canonicalising it, running the handler against a fresh writer and transcoding
 * what it wrote, with a fixed fallback reply for each stage that fails.
 */
module Handler {
  import opened Wrappers
  import opened Text
  import opened Headers
  import opened Writer
  import opened Responses
  import opened Requests
  import opened Errors
  import opened Options

  /**
   * An `http.Handler`: one the caller supplied, the one `ServeAPI` obtains as
   * `serve(configureHandler(api, strict))`, or a middleware applied to another handler.
   */
  datatype HttpHandler =
    | Given(id: nat)
    | Generated(api: nat, strict: seq<StrictMiddlewareFunc>)
    | Wrapped(middleware: HttpMiddlewareFunc, inner: HttpHandler)

  /** The middlewares around a handler, outermost first. */
  function Layers(h: HttpHandler): seq<HttpMiddlewareFunc> {
    match h
    case Wrapped(m, inner) => [m] + Layers(inner)
    case _ => []
  }

  /** The handler inside all the middlewares. */
  function Core(h: HttpHandler): HttpHandler {
    match h
    case Wrapped(_, inner) => Core(inner)
    case _ => h
  }

  function Reverse<T>(s: seq<T>): (r: seq<T>)
    ensures |r| == |s|
    ensures forall i :: 0 <= i < |s| ==> r[i] == s[|s| - 1 - i]
    decreases |s|
  {
    if |s| == 0 then [] else [s[|s| - 1]] + Reverse(s[..|s| - 1])
  }

  /** `handler = middleware(handler)` for each middleware in argument order. */
  function WrapAll(h: HttpHandler, mws: seq<HttpMiddlewareFunc>): HttpHandler
    decreases |mws|
  {
    if |mws| == 0 then h else Wrapped(mws[|mws| - 1], WrapAll(h, mws[..|mws| - 1]))
  }

  /** The middleware loop of `ServeHTTP`, of `serve` and of `ServeAPI`. */
  method Wrap(handler: HttpHandler, middleware: seq<HttpMiddlewareFunc>) returns (h: HttpHandler)
    ensures h == WrapAll(handler, middleware)
  {
    h := handler;
    var i := 0;
    while i < |middleware|
      invariant 0 <= i <= |middleware|
      invariant h == WrapAll(handler, middleware[..i])
    {
      assert middleware[..i + 1][..i] == middleware[..i];
      h := Wrapped(middleware[i], h);
      i := i + 1;
    }
    assert middleware[..i] == middleware;
  }

  /**
   * Wrapping keeps the handler and puts the middlewares around it in reverse argument order:
   * the last one listed is the outermost.
   */
  lemma {:induction false} WrapLayers(h: HttpHandler, mws: seq<HttpMiddlewareFunc>)
    ensures Layers(WrapAll(h, mws)) == Reverse(mws) + Layers(h)
    ensures Core(WrapAll(h, mws)) == Core(h)
    decreases |mws|
  {
    if |mws| > 0 {
      WrapLayers(h, mws[..|mws| - 1]);
    }
  }

  // ----- ServeAPI -----

  /** The handler `ServeAPI` finally serves: the generated one, wrapped in the HTTP middlewares twice. */
  function ServeAPIHandler(api: nat, opts: seq<ApiOption>): HttpHandler {
    WrapAll(WrapAll(Generated(api, StrictArgs(opts)), HttpArgs(opts)), HttpArgs(opts))
  }

  /** `ServeAPI`, up to the handler its `ServeHTTP` call serves. */
  method ServeAPI(api: nat, opts: seq<ApiOption>) returns (h: HttpHandler)
    ensures h == ServeAPIHandler(api, opts)
  {
    var useOpts := ApplyAll(opts);
    var handler := Generated(api, useOpts.strictMiddlewares);
    handler := Wrap(handler, useOpts.lowLevelMiddlewares);
    h := Wrap(handler, useOpts.lowLevelMiddlewares);
  }

  /**
   * `ServeAPI` applies each HTTP middleware twice (once itself, once more through `ServeHTTP`)
   * and hands the strict middlewares only to the generated handler.
   */
  lemma ServeAPIWrapsTwice(api: nat, opts: seq<ApiOption>)
    ensures Layers(ServeAPIHandler(api, opts)) == Reverse(HttpArgs(opts)) + Reverse(HttpArgs(opts))
    ensures Core(ServeAPIHandler(api, opts)) == Generated(api, StrictArgs(opts))
  {
    var inner := WrapAll(Generated(api, StrictArgs(opts)), HttpArgs(opts));
    WrapLayers(Generated(api, StrictArgs(opts)), HttpArgs(opts));
    WrapLayers(inner, HttpArgs(opts));
  }

  /** Lambda middlewares are collected but have no effect: dropping such an option changes nothing. */
  lemma LambdaMiddlewaresIgnored(api: nat, a: seq<ApiOption>, b: seq<ApiOption>, ls: seq<LambdaMiddlewareFunc>)
    ensures ServeAPIHandler(api, a + [LambdaMiddleware(ls)] + b) == ServeAPIHandler(api, a + b)
  {
    var l := [LambdaMiddleware(ls)];
    SingleOption(LambdaMiddleware(ls));
    StrictArgsConcat(a, l);
    StrictArgsConcat(a + l, b);
    StrictArgsConcat(a, b);
    assert StrictArgs(a + l + b) == StrictArgs(a + b);
    HttpArgsConcat(a, l);
    HttpArgsConcat(a + l, b);
    HttpArgsConcat(a, b);
    assert HttpArgs(a + l + b) == HttpArgs(a + b);
  }

  // ----- one invocation -----

  /** What the (wrapped) handler does to the writer when it serves a request. */
  type Behaviour = (HttpHandler, CanonicalRequest) -> seq<Op>

  /** The result of one Lambda invocation: reply bytes, an invocation error, or a panic. */
  datatype Invocation = Reply(payload: seq<uint8>) | InvocationError(message: string) | Panic

  /** `json.Marshal` of the status/body-only envelope with status 500 and the error text. */
  function Fallback(e: Error, marshal: Marshal): (r: Invocation)
    ensures !r.Panic?
    ensures r.Reply? <==> marshal(LcdEnv(LcdResponse(500, Message(e), false))).Success?
    ensures r.Reply? ==> r.payload == marshal(LcdEnv(LcdResponse(500, Message(e), false))).value
    ensures r.InvocationError? ==> r.message == marshal(LcdEnv(LcdResponse(500, Message(e), false))).error
  {
    match marshal(LcdEnv(LcdResponse(500, Message(e), false)))
    case Success(bytes) => Reply(bytes)
    case Failure(m) => InvocationError(m)
  }

  /** Every envelope the payload decodes to holds byte strings in its query parameters. */
  predicate IsBytePayload(p: Payload) {
    && (p.alb.Success? ==> IsByteMap(p.alb.value.queryStringParameters))
    && (p.v2.Success? ==> IsByteMap(p.v2.value.queryStringParameters))
    && (p.v1.Success? ==> IsByteMap(p.v1.value.queryStringParameters) &&
                          IsByteMultiMap(p.v1.value.multiValueQueryStringParameters))
  }

  lemma DemuxByteRequest(p: Payload)
    requires IsBytePayload(p)
    ensures Demux(p).Success? ==> IsByteRequest(Demux(p).value)
  {
  }

  /** The writer state once the handler has served `req`, starting from the prepared writer. */
  function Handled(h: HttpHandler, p: Payload, req: CanonicalRequest, behave: Behaviour, sniff: Sniffer): WriterState {
    Run(Fresh.(prepared := Prepares(p)), behave(h, req), sniff)
  }

  /** The reply once the handler has run: the serialised envelope, the fallback, or a panic. */
  function Respond(s: WriterState, marshal: Marshal): Invocation {
    match TranscodeAmbiguous(s, marshal)
    case Done(bytes) => Reply(bytes)
    case Failed(e) => Fallback(e, marshal)
    case Panicked => Panic
  }

  /** The lambda handler built by `ServeHTTP`, for the header iteration order `order`. */
  function Invoke(h: HttpHandler, p: Payload, order: seq<string>, reparse: Reparse, behave: Behaviour, sniff: Sniffer, marshal: Marshal): Invocation
    requires IsBytePayload(p)
  {
    match Demux(p)
    case Failure(e) => Fallback(e, marshal)
    case Success(t) =>
      DemuxByteRequest(p);
      ServeRequest(h, p, t, order, reparse, behave, sniff, marshal)
  }

  /** The rest of the invocation once the payload has been classified as `t`. */
  function ServeRequest(h: HttpHandler, p: Payload, t: TypedRequest, order: seq<string>, reparse: Reparse, behave: Behaviour, sniff: Sniffer,
                        marshal: Marshal): Invocation
    requires IsByteRequest(t)
  {
    match Canonical(t, order, reparse)
    case Failure(e) => Fallback(e, marshal)
    case Success(req) => Respond(Handled(h, p, req, behave, sniff), marshal)
  }

  /**
   * `ServeHTTP(handler, middleware...)` and one invocation of the lambda handler it returns: the
   * handler is wrapped in the middlewares once, and the invocation runs the wrapped handler.
   */
  method ServeInvocation(handler: HttpHandler, middleware: seq<HttpMiddlewareFunc>, p: Payload, behave: Behaviour,
                         sniff: Sniffer, marshal: Marshal, reparse: Reparse)
    returns (r: Invocation, ghost order: seq<string>)
    requires IsBytePayload(p)
    ensures Demux(p).Success? ==> Enumerates(order, HeaderKeys(Demux(p).value))
    ensures r == Invoke(WrapAll(handler, middleware), p, order, reparse, behave, sniff, marshal)
  {
    var h := Wrap(handler, middleware);
    order := [];
    var w := new ResponseWriter();
    var disambiguated := DemuxAmbiguousRequest(p, w);
    if disambiguated.Failure? {
      return Fallback(disambiguated.error, marshal), order;
    }
    DemuxByteRequest(p);
    var httpRequest;
    httpRequest, order := Canonize(disambiguated.value, reparse);
    if httpRequest.Failure? {
      return Fallback(httpRequest.error, marshal), order;
    }
    w.PerformAll(behave(h, httpRequest.value), sniff);
    var resp := TranscodeAmbiguousFrom(w, marshal);
    match resp {
      case Done(bytes) => r := Reply(bytes);
      case Failed(e) => r := Fallback(e, marshal);
      case Panicked => r := Panic;
    }
    assert r == Respond(w.State(), marshal);
  }

  /**
   * A payload that cannot be classified (bad JSON or no discriminator) gets the 500 fallback with
   * the error text, whatever the handler would do: the handler is not run.
   */
  lemma ClassifyFailureFallback(h: HttpHandler, p: Payload, order: seq<string>, reparse: Reparse, b1: Behaviour, b2: Behaviour, sniff: Sniffer, marshal: Marshal)
    requires IsBytePayload(p)
    requires Demux(p).Failure?
    ensures Invoke(h, p, order, reparse, b1, sniff, marshal) == Fallback(Demux(p).error, marshal)
    ensures Invoke(h, p, order, reparse, b1, sniff, marshal) == Invoke(h, p, order, reparse, b2, sniff, marshal)
  {
  }

  /** A request that cannot be canonicalised gets the 500 fallback with the error text; the handler is not run. */
  lemma CanonizeFailureFallback(h: HttpHandler, p: Payload, order: seq<string>, reparse: Reparse, b1: Behaviour, b2: Behaviour, sniff: Sniffer, marshal: Marshal)
    requires IsBytePayload(p)
    requires Demux(p).Success?
    requires IsByteRequest(Demux(p).value) && Canonical(Demux(p).value, order, reparse).Failure?
    ensures Invoke(h, p, order, reparse, b1, sniff, marshal) == Fallback(Canonical(Demux(p).value, order, reparse).error, marshal)
    ensures Invoke(h, p, order, reparse, b1, sniff, marshal) == Invoke(h, p, order, reparse, b2, sniff, marshal)
  {
  }

  function StatusOf(env: Envelope): int {
    match env
    case V2Env(r) => r.statusCode
    case V1Env(r) => r.statusCode
    case AlbEnv(r) => r.statusCode
    case LcdEnv(r) => r.statusCode
  }

  /** Once classification and canonicalisation succeed, the reply is made from what the handler wrote. */
  lemma InvokeHandled(h: HttpHandler, p: Payload, order: seq<string>, reparse: Reparse, behave: Behaviour, sniff: Sniffer, marshal: Marshal)
    requires IsBytePayload(p)
    requires Demux(p).Success?
    requires IsByteRequest(Demux(p).value) && Canonical(Demux(p).value, order, reparse).Success?
    ensures Invoke(h, p, order, reparse, behave, sniff, marshal) ==
      Respond(Handled(h, p, Canonical(Demux(p).value, order, reparse).value, behave, sniff), marshal)
  {
  }

  /**
   * `ServeHTTP` serves with the handler wrapped in its middlewares: after a successful
   * canonicalisation the writer is driven by the wrapped handler, whose last middleware is outermost.
   */
  lemma ServeHTTPRunsWrapped(handler: HttpHandler, middleware: seq<HttpMiddlewareFunc>, p: Payload, order: seq<string>,
                             reparse: Reparse, behave: Behaviour, sniff: Sniffer, marshal: Marshal)
    requires IsBytePayload(p)
    requires Demux(p).Success?
    requires IsByteRequest(Demux(p).value) && Canonical(Demux(p).value, order, reparse).Success?
    ensures var h := WrapAll(handler, middleware);
      && Invoke(h, p, order, reparse, behave, sniff, marshal) ==
           Respond(Handled(h, p, Canonical(Demux(p).value, order, reparse).value, behave, sniff), marshal)
      && Layers(h) == Reverse(middleware) + Layers(handler)
      && Core(h) == Core(handler)
  {
    InvokeHandled(WrapAll(handler, middleware), p, order, reparse, behave, sniff, marshal);
    WrapLayers(handler, middleware);
  }

  /**
   * The handler's writes are transcoded into the envelope of the classified format, carrying the
   * status of the first finalizing operation and everything written as body.
   */
  lemma HandledEnvelope(h: HttpHandler, p: Payload, req: CanonicalRequest, behave: Behaviour, sniff: Sniffer)
    requires Demux(p).Success?
    ensures var s := Handled(h, p, req, behave, sniff);
      var env := PreparedEnvelope(s);
      && s.prepared == Some(FormatOf(Demux(p).value))
      && s.statusCode == FirstStatus(behave(h, req))
      && s.body == Written(behave(h, req))
      && (env.Done? ==> StatusOf(env.value) == FirstStatus(behave(h, req)))
      && (env.Done? && FormatOf(Demux(p).value) == V2 ==> env.value.V2Env?)
      && (env.Done? && FormatOf(Demux(p).value) == V1 ==> env.value.V1Env?)
      && (env.Done? && FormatOf(Demux(p).value) == Alb ==> env.value.AlbEnv?)
  {
    var ops := behave(h, req);
    DemuxPreparesOwnFormat(p);
    StatusIsFirstFinalizer(Fresh.(prepared := Prepares(p)), ops, sniff);
    BodyIsConcatenation(Fresh.(prepared := Prepares(p)), ops, sniff);
    RunKeepsPrepared(Fresh.(prepared := Prepares(p)), ops, sniff);
    PreparedEnvelopeFormat(Handled(h, p, req, behave, sniff));
  }

  /**
   * The reply is the prepared envelope serialised, the fallback with the marshalling error when
   * serialising fails, and a panic exactly for a v1 or ALB reply with a multi-valued header.
   */
  lemma RespondOutcomes(s: WriterState, marshal: Marshal)
    ensures Respond(s, marshal) == Panic <==> (s.prepared == Some(V1) || s.prepared == Some(Alb)) && HasMultiValue(s.header)
    ensures PreparedEnvelope(s).Done? && marshal(PreparedEnvelope(s).value).Success? ==>
      Respond(s, marshal) == Reply(marshal(PreparedEnvelope(s).value).value)
    ensures PreparedEnvelope(s).Done? && marshal(PreparedEnvelope(s).value).Failure? ==>
      Respond(s, marshal) == Fallback(MarshalResponse(marshal(PreparedEnvelope(s).value).error), marshal)
  {
    TranscodeAmbiguousOutcomes(s, marshal);
  }

  lemma {:induction false} RunKeepsPrepared(s: WriterState, ops: seq<Op>, sniff: Sniffer)
    ensures Run(s, ops, sniff).prepared == s.prepared
    decreases |ops|
  {
    if |ops| > 0 {
      RunKeepsPrepared(Step(s, ops[0], sniff), ops[1..], sniff);
    }
  }

  /**
   * The shape of the repository's handler tests: a handler that only calls `WriteHeader(200)`, or
   * only writes a body, never leads to an invocation error or a panic when serialising succeeds.
   */
  lemma OnlyStatusOrBodyReplies(h: HttpHandler, p: Payload, order: seq<string>, reparse: Reparse, behave: Behaviour, sniff: Sniffer, marshal: Marshal,
                                 ops: seq<Op>, body: seq<uint8>)
    requires IsBytePayload(p)
    requires forall env :: marshal(env).Success?
    requires forall req :: behave(h, req) == ops
    requires ops == [WriteHeader(StatusOK)] || ops == [Write(Bytes(body))]
    ensures Invoke(h, p, order, reparse, behave, sniff, marshal).Reply?
  {
    if Demux(p).Failure? {
      FallbackReplies(Demux(p).error, marshal);
    } else {
      DemuxByteRequest(p);
      OnlyStatusOrBodyServes(h, p, Demux(p).value, order, reparse, behave, sniff, marshal, ops, body);
    }
  }

  lemma OnlyStatusOrBodyServes(h: HttpHandler, p: Payload, t: TypedRequest, order: seq<string>, reparse: Reparse, behave: Behaviour, sniff: Sniffer,
                               marshal: Marshal, ops: seq<Op>, body: seq<uint8>)
    requires IsByteRequest(t)
    requires forall env :: marshal(env).Success?
    requires forall req :: behave(h, req) == ops
    requires ops == [WriteHeader(StatusOK)] || ops == [Write(Bytes(body))]
    ensures ServeRequest(h, p, t, order, reparse, behave, sniff, marshal).Reply?
  {
    if Canonical(t, order, reparse).Failure? {
      FallbackReplies(Canonical(t, order, reparse).error, marshal);
    } else {
      OnlyStatusOrBodyResponds(h, p, Canonical(t, order, reparse).value, behave, sniff, marshal, body);
    }
  }

  lemma FallbackReplies(e: Error, marshal: Marshal)
    requires marshal(LcdEnv(LcdResponse(500, Message(e), false))).Success?
    ensures Fallback(e, marshal).Reply?
  {
  }

  lemma OnlyStatusOrBodyResponds(h: HttpHandler, p: Payload, req: CanonicalRequest, behave: Behaviour, sniff: Sniffer, marshal: Marshal, body: seq<uint8>)
    requires forall env :: marshal(env).Success?
    requires behave(h, req) == [WriteHeader(StatusOK)] || behave(h, req) == [Write(Bytes(body))]
    ensures Respond(Handled(h, p, req, behave, sniff), marshal).Reply?
  {
    var ops := behave(h, req);
    var s0 := Fresh.(prepared := Prepares(p));
    var s := Handled(h, p, req, behave, sniff);
    SingleStepNoMultiValue(s0, ops[0], sniff);
    RunSingle(s0, ops[0], sniff);
    assert ops == [ops[0]];
    assert !HasMultiValue(s.header);
    TranscodeAmbiguousOutcomes(s, marshal);
    RespondOutcomes(s, marshal);
    assert marshal(PreparedEnvelope(s).value).Success?;
  }

  lemma RunSingle(s: WriterState, op: Op, sniff: Sniffer)
    ensures Run(s, [op], sniff) == Step(s, op, sniff)
  {
    assert [op][1..] == [];
  }

  /** From an empty header, `WriteHeader` or one `Write` leaves every header key with at most one value. */
  lemma SingleStepNoMultiValue(s: WriterState, op: Op, sniff: Sniffer)
    requires s.header == map[]
    requires op.WriteHeader? || op.Write?
    ensures !HasMultiValue(Step(s, op, sniff).header)
  {
    ReservedNamesCanonical();
  }

  // ----- the typed entry points -----

  /** What a typed lambda handler returns: its envelope (the error result is always nil), or a panic. */
  datatype Served<T> = Returned(response: T) | ServePanic

  /** `ServeAPIGatewayV2`'s lambda handler, for the header iteration order `order`. */
  function ServeV2(h: HttpHandler, r: V2Request, order: seq<string>, reparse: Reparse, behave: Behaviour, sniff: Sniffer): Served<V2Response>
    requires IsByteMap(r.queryStringParameters)
  {
    match CanonicalV2(r, order, reparse)
    case Failure(e) => Returned(V2Response(500, map[], [], Message(e), false))
    case Success(req) => Returned(TranscodeV2(Run(Fresh, behave(h, req), sniff)))
  }

  /** `ServeAPIGateway`'s lambda handler. */
  function ServeV1(h: HttpHandler, r: V1Request, order: seq<string>, reparse: Reparse, behave: Behaviour, sniff: Sniffer): Served<V1Response>
    requires IsByteMap(r.queryStringParameters) && IsByteMultiMap(r.multiValueQueryStringParameters)
  {
    match CanonicalV1(r, order, reparse)
    case Failure(e) => Returned(V1Response(500, map[], map[], Message(e), false))
    case Success(req) => ServedV1(TranscodeV1(Run(Fresh, behave(h, req), sniff)))
  }

  /** The v1 handler's result for the transcoded writer: the envelope, the 500 error envelope, or a panic. */
  function ServedV1(t: Transcoded<V1Response>): Served<V1Response> {
    match t
    case Done(resp) => Returned(resp)
    case Failed(e) => Returned(V1Response(500, map[], map[], Message(e), false))
    case Panicked => ServePanic
  }

  /** `ServeALB`'s lambda handler. */
  function ServeAlb(h: HttpHandler, r: AlbRequest, order: seq<string>, reparse: Reparse, behave: Behaviour, sniff: Sniffer): Served<AlbResponse>
    requires IsByteMap(r.queryStringParameters)
  {
    match CanonicalAlb(r, order, reparse)
    case Failure(e) => Returned(AlbResponse(500, "", map[], map[], Message(e), false))
    case Success(req) => ServedAlb(TranscodeAlb(Run(Fresh, behave(h, req), sniff)))
  }

  /** The ALB handler's result for the transcoded writer. */
  function ServedAlb(t: Transcoded<AlbResponse>): Served<AlbResponse> {
    match t
    case Done(resp) => Returned(resp)
    case Failed(e) => Returned(AlbResponse(500, "", map[], map[], Message(e), false))
    case Panicked => ServePanic
  }

  /** Runs the handler on a fresh writer. */
  method RunHandler(h: HttpHandler, req: CanonicalRequest, behave: Behaviour, sniff: Sniffer) returns (w: ResponseWriter)
    ensures fresh(w)
    ensures w.State() == Run(Fresh, behave(h, req), sniff)
  {
    w := new ResponseWriter();
    w.PerformAll(behave(h, req), sniff);
  }

  method ServeInvocationV2(handler: HttpHandler, middleware: seq<HttpMiddlewareFunc>, r: V2Request, behave: Behaviour,
                           sniff: Sniffer, reparse: Reparse)
    returns (out: Served<V2Response>, ghost order: seq<string>)
    requires IsByteMap(r.queryStringParameters)
    ensures Enumerates(order, r.headers.Keys)
    ensures out == ServeV2(WrapAll(handler, middleware), r, order, reparse, behave, sniff)
  {
    var h := Wrap(handler, middleware);
    var httpRequest;
    httpRequest, order := CanonizeV2(r, reparse);
    if httpRequest.Failure? {
      return Returned(V2Response(500, map[], [], Message(httpRequest.error), false)), order;
    }
    var w := RunHandler(h, httpRequest.value, behave, sniff);
    var resp := TranscodeV2From(w);
    out := Returned(resp);
  }

  method ServeInvocationV1(handler: HttpHandler, middleware: seq<HttpMiddlewareFunc>, r: V1Request, behave: Behaviour,
                           sniff: Sniffer, reparse: Reparse)
    returns (out: Served<V1Response>, ghost order: seq<string>)
    requires IsByteMap(r.queryStringParameters) && IsByteMultiMap(r.multiValueQueryStringParameters)
    ensures Enumerates(order, r.headers.Keys)
    ensures out == ServeV1(WrapAll(handler, middleware), r, order, reparse, behave, sniff)
  {
    var h := Wrap(handler, middleware);
    var httpRequest;
    httpRequest, order := CanonizeV1(r, reparse);
    if httpRequest.Failure? {
      return Returned(V1Response(500, map[], map[], Message(httpRequest.error), false)), order;
    }
    var w := RunHandler(h, httpRequest.value, behave, sniff);
    var resp := TranscodeV1From(w);
    out := ServedV1(resp);
  }

  method ServeInvocationAlb(handler: HttpHandler, middleware: seq<HttpMiddlewareFunc>, r: AlbRequest, behave: Behaviour,
                           sniff: Sniffer, reparse: Reparse)
    returns (out: Served<AlbResponse>, ghost order: seq<string>)
    requires IsByteMap(r.queryStringParameters)
    ensures Enumerates(order, r.headers.Keys)
    ensures out == ServeAlb(WrapAll(handler, middleware), r, order, reparse, behave, sniff)
  {
    var h := Wrap(handler, middleware);
    var httpRequest;
    httpRequest, order := CanonizeAlb(r, reparse);
    if httpRequest.Failure? {
      return Returned(AlbResponse(500, "", map[], map[], Message(httpRequest.error), false)), order;
    }
    var w := RunHandler(h, httpRequest.value, behave, sniff);
    var resp := TranscodeAlbFrom(w);
    out := ServedAlb(resp);
  }

  /**
   * The typed entry points answer a canonicalisation failure with their own envelope: status 500,
   * the error text as body, nothing else set, and the handler not run.
   */
  lemma TypedCanonizeFailure(h: HttpHandler, order: seq<string>, reparse: Reparse, b1: Behaviour, b2: Behaviour, sniff: Sniffer,
                             v2: V2Request, v1: V1Request, alb: AlbRequest)
    requires IsByteMap(v2.queryStringParameters) && IsByteMap(alb.queryStringParameters)
    requires IsByteMap(v1.queryStringParameters) && IsByteMultiMap(v1.multiValueQueryStringParameters)
    ensures CanonicalV2(v2, order, reparse).Failure? ==>
      ServeV2(h, v2, order, reparse, b1, sniff) == ServeV2(h, v2, order, reparse, b2, sniff) &&
      ServeV2(h, v2, order, reparse, b1, sniff) == Returned(V2Response(500, map[], [], Message(CanonicalV2(v2, order, reparse).error), false))
    ensures CanonicalV1(v1, order, reparse).Failure? ==>
      ServeV1(h, v1, order, reparse, b1, sniff) == ServeV1(h, v1, order, reparse, b2, sniff) &&
      ServeV1(h, v1, order, reparse, b1, sniff) == Returned(V1Response(500, map[], map[], Message(CanonicalV1(v1, order, reparse).error), false))
    ensures CanonicalAlb(alb, order, reparse).Failure? ==>
      ServeAlb(h, alb, order, reparse, b1, sniff) == ServeAlb(h, alb, order, reparse, b2, sniff) &&
      ServeAlb(h, alb, order, reparse, b1, sniff) == Returned(AlbResponse(500, "", map[], map[], Message(CanonicalAlb(alb, order, reparse).error), false))
  {
  }

  /**
   * After a successful canonicalisation the typed handlers return the transcoded writer: v2 never
   * panics and carries the status of the first finalizing operation; v1 and ALB panic exactly on a
   * multi-valued header, and ALB describes the status with its reason phrase.
   */
  lemma TypedHandledV2(h: HttpHandler, order: seq<string>, reparse: Reparse, behave: Behaviour, sniff: Sniffer, r: V2Request)
    requires IsByteMap(r.queryStringParameters)
    requires CanonicalV2(r, order, reparse).Success?
    ensures ServeV2(h, r, order, reparse, behave, sniff).Returned?
    ensures ServeV2(h, r, order, reparse, behave, sniff).response.statusCode == FirstStatus(behave(h, CanonicalV2(r, order, reparse).value))
  {
    StatusIsFirstFinalizer(Fresh, behave(h, CanonicalV2(r, order, reparse).value), sniff);
  }

  lemma TypedHandledV1(h: HttpHandler, order: seq<string>, reparse: Reparse, behave: Behaviour, sniff: Sniffer, r: V1Request)
    requires IsByteMap(r.queryStringParameters) && IsByteMultiMap(r.multiValueQueryStringParameters)
    requires CanonicalV1(r, order, reparse).Success?
    ensures var ops := behave(h, CanonicalV1(r, order, reparse).value);
      var s := Run(Fresh, ops, sniff);
      && (ServeV1(h, r, order, reparse, behave, sniff).ServePanic? <==> HasMultiValue(s.header))
      && (ServeV1(h, r, order, reparse, behave, sniff).Returned? ==>
            ServeV1(h, r, order, reparse, behave, sniff).response.statusCode == FirstStatus(ops))
  {
    var ops := behave(h, CanonicalV1(r, order, reparse).value);
    var s := Run(Fresh, ops, sniff);
    StatusIsFirstFinalizer(Fresh, ops, sniff);
    assert ServeV1(h, r, order, reparse, behave, sniff) == ServedV1(TranscodeV1(s));
    ServedV1Outcome(s);
  }

  lemma ServedV1Outcome(s: WriterState)
    ensures ServedV1(TranscodeV1(s)).ServePanic? <==> HasMultiValue(s.header)
    ensures ServedV1(TranscodeV1(s)).Returned? ==> ServedV1(TranscodeV1(s)).response.statusCode == s.statusCode
  {
    TranscodeV1Placement(s);
  }

  lemma TypedHandledAlb(h: HttpHandler, order: seq<string>, reparse: Reparse, behave: Behaviour, sniff: Sniffer, r: AlbRequest)
    requires IsByteMap(r.queryStringParameters)
    requires CanonicalAlb(r, order, reparse).Success?
    ensures var ops := behave(h, CanonicalAlb(r, order, reparse).value);
      var s := Run(Fresh, ops, sniff);
      && (ServeAlb(h, r, order, reparse, behave, sniff).ServePanic? <==> HasMultiValue(s.header))
      && (ServeAlb(h, r, order, reparse, behave, sniff).Returned? ==>
            && ServeAlb(h, r, order, reparse, behave, sniff).response.statusCode == FirstStatus(ops)
            && ServeAlb(h, r, order, reparse, behave, sniff).response.statusDescription == StatusText(FirstStatus(ops)))
  {
    var ops := behave(h, CanonicalAlb(r, order, reparse).value);
    var s := Run(Fresh, ops, sniff);
    StatusIsFirstFinalizer(Fresh, ops, sniff);
    assert ServeAlb(h, r, order, reparse, behave, sniff) == ServedAlb(TranscodeAlb(s));
    ServedAlbOutcome(s);
  }

  lemma ServedAlbOutcome(s: WriterState)
    ensures ServedAlb(TranscodeAlb(s)).ServePanic? <==> HasMultiValue(s.header)
    ensures ServedAlb(TranscodeAlb(s)).Returned? ==>
      && ServedAlb(TranscodeAlb(s)).response.statusCode == s.statusCode
      && ServedAlb(TranscodeAlb(s)).response.statusDescription == StatusText(s.statusCode)
  {
    TranscodeAlbPlacement(s);
  }
}
