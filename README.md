# httpbridge, modelled in Dafny

`httpbridge` lets an ordinary Go `http.Handler` serve AWS Lambda invocations from three front
ends: API Gateway HTTP APIs (payload version 2.0), API Gateway REST APIs (version 1.0) and
Application Load Balancer target groups. Every invocation goes through the same steps:

- The raw JSON payload is classified by its discriminating fields (`demuxAmbiguousRequest`).
- The typed request is turned into a canonical `*http.Request` (`Canonize`).
- The handler writes into an in-memory response writer (`lambdaHTTPResponseWriter`).
- What it wrote is transcoded into the response envelope of the classified front end. When no
  front end was recognised, the status/body-only "least common denominator" envelope is used.
- Every failure before the handler runs turns into a 500 reply whose body is the error text.

The project models this core module by module:

| file | module | what it holds |
|---|---|---|
| `wrappers.dfy` | `Wrappers` | `Option` and `Result` |
| `text.dfy` | `Text` | bytes, `strings.Join`, `strings.Split`, `strings.Cut`, byte-wise string order, sorted key lists |
| `errors.dfy` | `Errors` | the errors the bridge reports and the text `err.Error()` gives each one |
| `base64.dfy` | `Base64` | the standard encoding of section 4 of RFC 4648 and a reference decoder |
| `urls.dfy` | `Urls` | percent-escaping (section 2.1 of RFC 3986) as Go's `net/url` does it in path and query mode, `url.Values.Encode` and a reference query decoder |
| `headers.dfy` | `Headers` | `http.Header`: canonical keys, `Get`/`Set`/`Add`/`Del`, and the merge that `Add` performs in map order |
| `writer.dfy` | `Writer` | the response writer as a class, and its operations as a step function over its state |
| `responses.dfy` | `Responses` | the four `TranscodeFrom` methods and the envelopes they fill |
| `requests.dfy` | `Requests` | classification, the three `Canonize` methods, `sourceIP` |
| `options.dfy` | `Options` | `apiOptions` as a class and the three option constructors |
| `handler.dfy` | `Handler` | middleware folding, `ServeAPI`, the `ServeHTTP` invocation pipeline and the typed `serve` entry points |

Conventions of the model:

- A Go string is a Dafny `string` whose chars each hold one byte. A byte slice is `seq<uint8>`.
  `Writer.ByteSlice` keeps apart the nil slice and an empty one, because `writeHeaderLine`
  treats them differently.
- Go's map iteration order is unspecified. Loops over maps pick their next key with `:|`. Where
  the order can be observed, a ghost out-parameter `order` records it and the contract holds for
  whatever order was taken. The order is observable in exactly one place: several request header
  keys that canonicalise to the same name are merged in that order.
- `http.NewRequestWithContext` prints the URL it is given and parses it again. That parse is a parameter, `reparse`, like `sniff` and `marshal`. It may fail, and then the request is not canonicalised.
- The handler is a function from the canonical request to the sequence of writer operations it
  performs (`Behaviour`). Middleware and the generated strict handler are opaque values whose
  layering is tracked (`Layers`, `Core`).
- The V1 and ALB transcoders assign into a nil `MultiValueHeaders` map. In Go this panics. The
  model makes the panic an explicit outcome (`Panicked`, `Panic`, `ServePanic`) rather than a
  precondition.
- Other behaviour of the source is also kept as written:
  - a base64-encoded request body is read from a nil reader, so its content is lost (`Base64OverNil`);
  - `ServeAPI` applies the low-level middlewares twice;
  - lambda middlewares are collected but never used.

  Lemmas state each of these.

## Model

| member | source | states |
|---|---|---|
| Writer.ResponseWriter.constructor | httpbridge/responses.go:24-30 | a new writer has status 0, no header map entries, an empty body and no prepared envelope |
| Writer.ResponseWriter.Header | httpbridge/responses.go:35-40 | returns the writer's header map and changes nothing else |
| Writer.ResponseWriter.SetHeaderMap | httpbridge/responses.go:35-40 | the handler's edits through the returned map replace the header and leave status, body and prepared envelope alone |
| Writer.ResponseWriter.WriteHeaderLine | httpbridge/responses.go:42-56 | a no-op once a status is set; otherwise status becomes 200, and Content-Type is set to the sniffed type exactly when the data is non-nil, the Content-Type key is absent (an entry with no values still counts as present) and the first Transfer-Encoding value is missing or empty |
| Writer.ResponseWriter.Write | httpbridge/responses.go:58-66 | performs the header line, appends the data to the body, and reports all bytes written with no error |
| Writer.ResponseWriter.WriteHeader | httpbridge/responses.go:68-73 | sets the status only if none is set yet |
| Writer.ResponseWriter.Flush | httpbridge/responses.go:75-80 | sets status 200 only if none is set yet, and touches nothing else |
| Writer.ResponseWriter.Perform | httpbridge/responses.go:35-80 | one handler call moves the writer's state by exactly one step of the operation model |
| Writer.ResponseWriter.PerformAll | httpbridge/handler.go:64 | a handler's whole sequence of calls leaves the writer in the state the operation model predicts |
| Writer.StatusWrittenOnce | httpbridge/responses.go:43-45 | once a status is set, no later sequence of operations changes it |
| Writer.StatusIsFirstFinalizer | httpbridge/responses.go:42-80 | from a fresh writer the final status is that of the first `Write` (200), `WriteHeader(c)` (c) or `Flush` (200), and 0 when there is none |
| Writer.BodyIsConcatenation | httpbridge/responses.go:58-66 | the body is the old body followed by every `Write`'s data in call order, whatever the status |
| Writer.StepStatus | httpbridge/responses.go:42-80 | one operation keeps a set status, and from status 0 gives the status that operation finalises with |
| Writer.NoSniffOnceSet | httpbridge/responses.go:43-45 | after a status is set, content sniffing never runs |
| Writer.SniffAtMostOnce | httpbridge/responses.go:42-56 | sniffing runs at most once per response, and only when the first finalizing operation is a `Write` |
| Writer.WriteSniffs | httpbridge/responses.go:46-54 | the first `Write` sets status 200, and it changes the header if and only if it sniffs; when it does, Content-Type holds exactly the sniffed type |
| Writer.FinalizersKeepHeaderAndBody | httpbridge/responses.go:68-80 | `WriteHeader` and `Flush` never change header or body; they give the first status as described |
| Responses.EncodeBody | httpbridge/responses.go:94-101 | the body is base64-encoded if and only if Content-Type is `application/octet-stream`; the encoding decodes back to the body bytes, and otherwise the text is the body bytes as a string |
| Responses.TranscodeV2Placement | httpbridge/responses.go:82-103 | v2 keeps the status; every header except Set-Cookie becomes a key, Set-Cookie values become the cookies, and each comma-free joined value splits back into the original values |
| Responses.SingleValuesRecover | httpbridge/responses.go:108-114 | without multi-valued headers, the single-valued map holds exactly the non-empty header keys, each with its one value |
| Responses.TranscodeV1Placement | httpbridge/responses.go:105-125 | v1 panics exactly when some header has more than one value and never returns an error; otherwise it keeps the status, and its header map gives back exactly the non-empty headers |
| Responses.TranscodeAlbPlacement | httpbridge/responses.go:127-148 | as for v1, and the status description is the standard reason phrase of the status |
| Responses.StatusText | httpbridge/responses.go:129 | a reason phrase exists only for a code from 100 to 511; every other code gets "" |
| Responses.TranscodeAmbiguousOutcomes | httpbridge/responses.go:174-202 | the dispatcher panics exactly for a prepared v1/ALB reply with a multi-valued header; it fails only because marshalling failed, with the marshalling error; it yields the marshalled envelope otherwise |
| Responses.PreparedEnvelopeFormat | httpbridge/responses.go:175-193 | the envelope is that of the prepared format, or the status/body-only envelope with the writer's status when none was prepared |
| Responses.TranscodeV2From | httpbridge/responses.go:82-103 | the loop over the writer's header map builds the v2 envelope the specification function describes |
| Responses.PlaceSingleValues | httpbridge/responses.go:107-114 | the loop panics if and only if a header has several values, and otherwise builds the single-valued map |
| Responses.TranscodeV1From | httpbridge/responses.go:105-125 | the method yields the v1 outcome of the specification function for the writer's state |
| Responses.TranscodeAlbFrom | httpbridge/responses.go:127-148 | the method yields the ALB outcome of the specification function for the writer's state |
| Responses.TranscodeAmbiguousFrom | httpbridge/responses.go:174-202 | the method yields the dispatcher's outcome for the writer's state |
| Requests.ClassifyPriority | httpbridge/requests.go:198-217 | ALB if and only if a target group ARN is present; v2 if and only if there is none and the version is "2.0"; v1 if and only if neither holds and an account id is present; unsupported otherwise |
| Requests.DemuxPreparesOwnFormat | httpbridge/requests.go:191-218 | a successful demux prepares the envelope of the request's own format; nothing is prepared exactly when the probe fails or the request is unsupported; a probe failure is reported as its JSON error |
| Requests.DemuxAmbiguousRequest | httpbridge/requests.go:191-218 | returns the demux result and sets the writer's prepared envelope when a format was recognised, even if decoding the typed request then fails; nothing else in the writer changes |
| Requests.AddSingleParams | httpbridge/requests.go:49-52 | each query parameter becomes one value under its key |
| Requests.AddAll | httpbridge/requests.go:95-97 | the values of one multi-valued parameter are appended after those already present, in order |
| Requests.WithMultiStep | httpbridge/requests.go:94-98 | adding one more multi-valued key extends the parameters exactly as the whole-map description says, so the visiting order of keys does not matter |
| Requests.AddMultiParams | httpbridge/requests.go:94-98 | after the loop, every multi-valued parameter's values follow the single value of the same key |
| Requests.AddHeaders | httpbridge/requests.go:56-59 | the loop visits every header key once, in the recorded order, and builds the merge of `Add` calls in that order |
| Requests.AssignHeaders | httpbridge/requests.go:105-107 | each multi-value header replaces whatever the single-valued headers put under the same key |
| Requests.Finish | httpbridge/requests.go:61-86 | the shared tail of every `Canonize` yields the assembled request or error |
| Requests.NewRequest | httpbridge/requests.go:79-82 | succeeds if and only if the method (GET when empty) is a token and the printed URL parses again; the method is checked first; a parse failure is reported with the parser's text; the request carries the method, the URL as parsed back, and the body |
| Requests.AssembleOutcome | httpbridge/requests.go:61-86 | fails with the unescape error, starting with "failed to unescape path" and the raw path, if and only if the path is malformed; otherwise the invalid-method error when the method is not a token; otherwise the URL built from the Host header, the unescaped path and the query is parsed again, and a failure is reported as a canonize error; on success the request carries the parsed URL, and headers and remote address pass through |
| Requests.CanonizeV2 | httpbridge/requests.go:46-87 | the method returns the canonical v2 request for the header order it visited |
| Requests.CanonicalV2Query | httpbridge/requests.go:47-54 | the query handed to the second parse is a non-empty raw query string verbatim, and otherwise it decodes back to the single-valued parameters; the request's URL is what that parse gives back; the remote address is the source IP of the request context |
| Requests.CanonizeV1 | httpbridge/requests.go:89-135 | the method returns the canonical v1 request for the header order it visited |
| Requests.CanonicalV1Query | httpbridge/requests.go:90-99 | the query handed to the second parse decodes back to the single values followed by the multi values, and where a key has both the single value comes first; the request's URL is what that parse gives back; the remote address is the identity's source IP |
| Requests.V1HeaderRules | httpbridge/requests.go:101-107 | a multi-value header wins over single values under its exact key; otherwise each single value is kept under its canonical key |
| Requests.SourceIP | httpbridge/requests.go:137-145 | the address contains no comma; it is empty when x-forwarded-for is absent or empty; otherwise it is the text of the first entry up to its first comma |
| Requests.SourceIPFirstEntry | httpbridge/requests.go:138-141 | for a first entry "a,b" or "a", with a comma-free a, the address is exactly a |
| Requests.CanonizeAlb | httpbridge/requests.go:147-185 | the method returns the canonical ALB request for the header order it visited |
| Requests.CanonicalAlbQuery | httpbridge/requests.go:148-152 | the query handed to the second parse decodes back to the single-valued parameters; the request's URL is what that parse gives back; the remote address is `sourceIP` |
| Requests.Canonize | httpbridge/requests.go:34-36 | dispatches to the typed `Canonize` and records the order of the typed request's header keys |
| Headers.CanonicalKeyIdempotent | httpbridge/requests.go:56-59 | canonicalising a canonical header key changes nothing |
| Headers.ReservedNamesCanonical | httpbridge/responses.go:14-18 | Content-Type, Transfer-Encoding, Set-Cookie and Host are already in canonical form |
| Headers.GetIgnoresCase | httpbridge/requests.go:67 | `Header.Get` finds a name in any spelling: looking up the canonical spelling gives the same value |
| Headers.SetReplaces | httpbridge/responses.go:52 | after `Header.Set`, the name holds exactly the value set, `Get` finds it, and no other name changes |
| Headers.AddAppends | httpbridge/requests.go:56-59 | `Header.Add` appends after the values already under the name; `Get` then finds the first value, or the added one when there was none; no other name changes |
| Headers.DelRemoves | httpbridge/responses.go:35-40 | after `Header.Del` on the map the handler edits, the name is gone and `Get` finds nothing; no other name changes |
| Headers.MergeKeepsValues | httpbridge/requests.go:56-59 | every header value appears under its canonical key, and every merged value comes from some header whose key canonicalises to it |
| Headers.MergeWithoutCollisions | httpbridge/requests.go:56-59 | when no two keys canonicalise alike, each canonical key holds exactly its one value, whatever the visiting order |
| Errors.Message | httpbridge/requests.go:61-82 | each error's text names its stage first: "failed to unescape path" with the raw path, "failed to canonize incoming http request: " for a bad method or a failed parse, "failed to marshal response to JSON: "; decoding errors keep their text, and the unsupported request reads "unsupported request type" |
| Urls.UnescapeSucceedsIff | httpbridge/requests.go:61-64 | path unescaping succeeds if and only if every '%' is followed by two hex digits |
| Urls.DecodeQueryEncode | httpbridge/requests.go:53 | decoding the encoded query gives the parameters back, for any byte-valued parameters with at least one value per key |
| Base64.DecodeEncode | httpbridge/responses.go:96-98 | decoding the standard encoding gives every byte sequence back |
| Base64.EncodeLength | httpbridge/responses.go:97 | the encoding has four symbols per started group of three bytes |
| Text.BytesToStringInjective | httpbridge/responses.go:100 | `string(body)` loses nothing: equal strings come from equal bodies |
| Text.SplitJoin | httpbridge/responses.go:91 | splitting a comma-join of comma-free values gives the values back |
| Options.ApiOptions.constructor | httpbridge/options.go:10-14 | the zero `apiOptions` has three empty middleware lists |
| Options.ApiOptions.Apply | httpbridge/options.go:18-34 | each option appends its middlewares to its own list only, and leaves the other two lists unchanged |
| Options.ApplyAll | httpbridge/handler.go:23-26 | applying the options in order collects each kind's middlewares in option order |
| Options.ArgsConcat | httpbridge/handler.go:23-26 | collecting from two option lists one after the other equals collecting from their concatenation, for all three kinds |
| Options.SingleOption | httpbridge/options.go:18-34 | one option contributes its middlewares to its own kind and nothing to the others |
| Handler.Wrap | httpbridge/handler.go:40-42 | the loop yields the handler wrapped by every middleware in order |
| Handler.WrapLayers | httpbridge/handler.go:40-42 | the last middleware in the list ends up outermost; the wrapped handler is unchanged underneath |
| Handler.ServeAPI | httpbridge/handler.go:14-34 | the method builds the handler that the specification function describes |
| Handler.ServeAPIWrapsTwice | httpbridge/handler.go:28-33 | the generated strict handler sits under the low-level middlewares twice over, and it receives the strict middlewares |
| Handler.LambdaMiddlewaresIgnored | httpbridge/handler.go:23-33 | adding lambda middleware options anywhere leaves the served handler unchanged |
| Handler.ServeInvocation | httpbridge/handler.go:36-76 | the handler is wrapped in the middlewares once, and one invocation yields the pipeline outcome of the wrapped handler for the header order it visited |
| Handler.ServeHTTPRunsWrapped | httpbridge/handler.go:40-64 | after a successful canonicalisation the writer is driven by the wrapped handler, whose last middleware is outermost and whose core is the given handler |
| Handler.Fallback | httpbridge/handler.go:47-54 | the fallback never panics; it is a reply exactly when the status-500 envelope with the error text marshals, and then carries those bytes; otherwise it is the marshalling error |
| Handler.ClassifyFailureFallback | httpbridge/handler.go:47-54 | an unclassifiable or undecodable payload gets the 500 fallback carrying the error text, and the handler is never consulted |
| Handler.CanonizeFailureFallback | httpbridge/handler.go:56-63 | a canonicalisation error gets the 500 fallback carrying the error text, and the handler is never consulted |
| Handler.InvokeHandled | httpbridge/handler.go:64-75 | after a successful canonicalisation the reply is the transcoded state of a fresh writer prepared by the demux and driven by the handler |
| Handler.HandledEnvelope | httpbridge/handler.go:64-66 | that state carries the prepared format of the request, the status of the first finalizing operation and the concatenated writes, and the envelope is of the request's format with that status |
| Handler.RespondOutcomes | httpbridge/handler.go:65-75 | the invocation panics exactly for a v1/ALB reply with a multi-valued header; a marshalling failure gets the fallback with that error; otherwise the reply is the marshalled envelope |
| Handler.RunKeepsPrepared | httpbridge/responses.go:42-80 | no writer operation changes the prepared envelope |
| Handler.OnlyStatusOrBodyReplies | httpbridge/handler_test.go:16-61 | a handler that only calls `WriteHeader(200)` or only one `Write` always gets a reply and never a panic, on every payload, as long as marshalling succeeds |
| Handler.RunHandler | httpbridge/handler.go:178-185 | a fresh writer driven by the handler ends in the state the operation model predicts |
| Handler.ServeInvocationV2 | httpbridge/handler.go:83-108 | the typed v2 entry point wraps the handler in its middlewares and yields the outcome of `serve` with the wrapped handler, for the header order it visited |
| Handler.ServeInvocationV1 | httpbridge/handler.go:110-135 | the typed v1 entry point wraps the handler in its middlewares and yields the outcome of `serve` with the wrapped handler, for the header order it visited |
| Handler.ServeInvocationAlb | httpbridge/handler.go:137-162 | the typed ALB entry point wraps the handler in its middlewares and yields the outcome of `serve` with the wrapped handler, for the header order it visited |
| Handler.TypedCanonizeFailure | httpbridge/handler.go:180-184 | a canonicalisation error returns the front end's envelope with status 500 and the error text as body, whatever the handler does |
| Handler.TypedHandledV2 | httpbridge/handler.go:185-193 | after a successful canonicalisation v2 always returns, with the status of the handler's first finalizing operation |
| Handler.TypedHandledV1 | httpbridge/handler.go:185-193 | v1 panics exactly when the handler left a multi-valued header, and otherwise returns with the status of the first finalizing operation |
| Handler.TypedHandledAlb | httpbridge/handler.go:185-193 | as for v1, and the returned status description is the reason phrase of that status |
| Handler.ServedV1Outcome | httpbridge/handler.go:186-193 | the v1 transcoding of a writer state panics if and only if a header has several values, and otherwise keeps the status |
| Handler.ServedAlbOutcome | httpbridge/handler.go:186-193 | the ALB transcoding of a writer state panics if and only if a header has several values, and otherwise keeps the status and gives its reason phrase |

## Left out

- Logging through `log/slog`, and the logging middleware in `httpmiddleware/httplogging.go`, write only to the log. They change no reply, so they are not modelled.
- `lambda.NewHandlerWithOptions`, the SIGTERM hook and the Lambda runtime are not modelled. An entry point is modelled by what one invocation of the returned handler yields.
- `json.Unmarshal` is not modelled. Its results, the discriminator probe and the typed request or its error, are the `Payload` input.
- `http.DetectContentType` is the `sniff` parameter and `json.Marshal` is the `marshal` parameter; `marshal` may fail. Their algorithms and the JSON text are not modelled.
- `context.Context` is not modelled: nothing in the core reads it beyond passing it on.
- `http.NewRequestWithContext` is modelled only in part. An empty method means GET, and a method that is not a token is rejected. The parse of `u.String()` is the `reparse` parameter. Its outcome is taken as given: Go's parser fails on control bytes and on malformed hosts and ports, and cuts the query at '#', but the model does not interpret it. Printing the URL, `RequestURI` and the reader wrapping are not modelled.
- Requests.CanonicalV2Query: states what the query handed to the second parse is. What reaches the handler is whatever that parse gives back, which the model does not interpret.
- `ptr` has no counterpart. Dafny datatypes are values, so taking the address of a copy changes nothing the model can observe.
- The typed entry points return the envelope value. Converting it to the `events` type through `castResp` is the identity on its fields and is not modelled separately.
- Errors.Quote: `strconv.Quote` is modelled for ASCII text only. A byte of 0x80 or above is kept as is, where Go would escape invalid UTF-8.
- The nil/empty distinction of maps is modelled only where it matters, as the panic on assigning into the nil `MultiValueHeaders` map. The V2 response's `MultiValueHeaders` and the ALB request's `multiValueQueryStringParameters`, which the source never reads or fills, are not modelled.
- The error branch of `preparedResponse.TranscodeFrom` in the dispatcher and the "failed to transcode response" branch in `serve` keep the source's shape, but nothing reaches them. No transcoder returns an error, as `Responses.TranscodeV1Placement` and `Responses.TranscodeAlbPlacement` state; their failures are panics. The marshalling failure of the dispatcher is reachable and is modelled.
- `http.StatusText` is written out as Go's table of reason phrases, which lives outside this repository.
- `Base64OverNil`: when `isBase64Encoded` is set, the source wraps a nil reader, so the body is not the payload's body. The model records only that, and not how a read from that reader fails.
- Requests.CanonizeV2: requires that the query parameters be byte strings. A Dafny char stands for one byte of a Go string, so every Go input meets this.
- Requests.CanonizeV1: requires byte-string query parameters, single and multi-valued, for the same reason.
- Requests.CanonizeAlb: requires byte-string query parameters, for the same reason.
- Requests.Canonize: requires a byte-string typed request, for the same reason.
- Handler.ServeInvocation: requires a byte-string payload, for the same reason; so do the typed entry points `Handler.ServeInvocationV2`, `Handler.ServeInvocationV1` and `Handler.ServeInvocationAlb`.
- Urls.DecodeQueryEncode: stated for parameters with at least one value per key, which is all that `Add` can build. A key with no values encodes to nothing.
- Handler.OnlyStatusOrBodyReplies: the handlers of the Go test are fixed behaviours, and the test's JSON payloads are arbitrary `Payload` values. The test's assertion is that no error is returned; the model states that a reply is produced.
- Map iteration order is an input: the ghost `order` stands for the order Go happened to take, and results are stated for every order.
