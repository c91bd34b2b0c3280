/**
 * The functional options of `ServeAPI`: each option appends its middlewares to one list of
 * `apiOptions`. Middlewares are opaque here, told apart only by an identity.
 */
module Options {

  /** A `nethttp.StrictHTTPMiddlewareFunc`. */
  datatype StrictMiddlewareFunc = StrictMiddlewareFunc(id: nat)
  /** A `func(http.Handler) http.Handler`. */
  datatype HttpMiddlewareFunc = HttpMiddlewareFunc(id: nat)
  /** A `func(lambda.Handler) lambda.Handler`. */
  datatype LambdaMiddlewareFunc = LambdaMiddlewareFunc(id: nat)

  /** An `APIOption`, by the constructor that made it and the arguments it was given. */
  datatype ApiOption =
    | APIMiddleware(strict: seq<StrictMiddlewareFunc>)
    | HTTPMiddleware(http: seq<HttpMiddlewareFunc>)
    | LambdaMiddleware(lambda: seq<LambdaMiddlewareFunc>)

  class ApiOptions {
    var lambdaMiddlewares: seq<LambdaMiddlewareFunc>
    var strictMiddlewares: seq<StrictMiddlewareFunc>
    var lowLevelMiddlewares: seq<HttpMiddlewareFunc>

    /** A zero `apiOptions`. */
    constructor()
      ensures lambdaMiddlewares == [] && strictMiddlewares == [] && lowLevelMiddlewares == []
    {
      lambdaMiddlewares := [];
      strictMiddlewares := [];
      lowLevelMiddlewares := [];
    }

    /** Runs the option closure on these options: its arguments go, in order, to the end of its one list. */
    method Apply(opt: ApiOption)
      modifies this
      ensures opt.APIMiddleware? ==> strictMiddlewares == old(strictMiddlewares) + opt.strict
      ensures !opt.APIMiddleware? ==> strictMiddlewares == old(strictMiddlewares)
      ensures opt.HTTPMiddleware? ==> lowLevelMiddlewares == old(lowLevelMiddlewares) + opt.http
      ensures !opt.HTTPMiddleware? ==> lowLevelMiddlewares == old(lowLevelMiddlewares)
      ensures opt.LambdaMiddleware? ==> lambdaMiddlewares == old(lambdaMiddlewares) + opt.lambda
      ensures !opt.LambdaMiddleware? ==> lambdaMiddlewares == old(lambdaMiddlewares)
    {
      match opt
      case APIMiddleware(ms) =>
        strictMiddlewares := strictMiddlewares + ms;
      case HTTPMiddleware(ms) =>
        lowLevelMiddlewares := lowLevelMiddlewares + ms;
      case LambdaMiddleware(ms) =>
        lambdaMiddlewares := lambdaMiddlewares + ms;
    }
  }

  /** The strict middlewares of `opts`, option after option. */
  function StrictArgs(opts: seq<ApiOption>): seq<StrictMiddlewareFunc>
    decreases |opts|
  {
    if |opts| == 0 then []
    else StrictArgs(opts[..|opts| - 1]) + (if opts[|opts| - 1].APIMiddleware? then opts[|opts| - 1].strict else [])
  }

  function HttpArgs(opts: seq<ApiOption>): seq<HttpMiddlewareFunc>
    decreases |opts|
  {
    if |opts| == 0 then []
    else HttpArgs(opts[..|opts| - 1]) + (if opts[|opts| - 1].HTTPMiddleware? then opts[|opts| - 1].http else [])
  }

  function LambdaArgs(opts: seq<ApiOption>): seq<LambdaMiddlewareFunc>
    decreases |opts|
  {
    if |opts| == 0 then []
    else LambdaArgs(opts[..|opts| - 1]) + (if opts[|opts| - 1].LambdaMiddleware? then opts[|opts| - 1].lambda else [])
  }

  /** The options loop of `ServeAPI` run on a zero `apiOptions`. */
  method ApplyAll(opts: seq<ApiOption>) returns (o: ApiOptions)
    ensures o.strictMiddlewares == StrictArgs(opts)
    ensures o.lowLevelMiddlewares == HttpArgs(opts)
    ensures o.lambdaMiddlewares == LambdaArgs(opts)
  {
    o := new ApiOptions();
    var i := 0;
    while i < |opts|
      invariant 0 <= i <= |opts|
      invariant o.strictMiddlewares == StrictArgs(opts[..i])
      invariant o.lowLevelMiddlewares == HttpArgs(opts[..i])
      invariant o.lambdaMiddlewares == LambdaArgs(opts[..i])
    {
      assert opts[..i + 1][..i] == opts[..i];
      o.Apply(opts[i]);
      i := i + 1;
    }
    assert opts[..i] == opts;
  }

  /**
   * Applying two runs of options one after the other gives, in every list, the first run's
   * arguments followed by the second's.
   */
  lemma ArgsConcat(a: seq<ApiOption>, b: seq<ApiOption>)
    ensures StrictArgs(a + b) == StrictArgs(a) + StrictArgs(b)
    ensures HttpArgs(a + b) == HttpArgs(a) + HttpArgs(b)
    ensures LambdaArgs(a + b) == LambdaArgs(a) + LambdaArgs(b)
  {
    StrictArgsConcat(a, b);
    HttpArgsConcat(a, b);
    LambdaArgsConcat(a, b);
  }

  lemma {:induction false} StrictArgsConcat(a: seq<ApiOption>, b: seq<ApiOption>)
    ensures StrictArgs(a + b) == StrictArgs(a) + StrictArgs(b)
    decreases |b|
  {
    if |b| == 0 {
      assert a + b == a;
    } else {
      var b' := b[..|b| - 1];
      assert (a + b)[..|a + b| - 1] == a + b';
      StrictArgsConcat(a, b');
    }
  }

  lemma {:induction false} HttpArgsConcat(a: seq<ApiOption>, b: seq<ApiOption>)
    ensures HttpArgs(a + b) == HttpArgs(a) + HttpArgs(b)
    decreases |b|
  {
    if |b| == 0 {
      assert a + b == a;
    } else {
      var b' := b[..|b| - 1];
      assert (a + b)[..|a + b| - 1] == a + b';
      HttpArgsConcat(a, b');
    }
  }

  lemma {:induction false} LambdaArgsConcat(a: seq<ApiOption>, b: seq<ApiOption>)
    ensures LambdaArgs(a + b) == LambdaArgs(a) + LambdaArgs(b)
    decreases |b|
  {
    if |b| == 0 {
      assert a + b == a;
    } else {
      var b' := b[..|b| - 1];
      assert (a + b)[..|a + b| - 1] == a + b';
      LambdaArgsConcat(a, b');
    }
  }

  /** A single option contributes its own arguments to its own list and nothing to the others. */
  lemma SingleOption(opt: ApiOption)
    ensures StrictArgs([opt]) == (if opt.APIMiddleware? then opt.strict else [])
    ensures HttpArgs([opt]) == (if opt.HTTPMiddleware? then opt.http else [])
    ensures LambdaArgs([opt]) == (if opt.LambdaMiddleware? then opt.lambda else [])
  {
    assert [opt][..0] == [];
  }
}
