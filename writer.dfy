/**
 * The in-memory `http.ResponseWriter` (`lambdaHTTPResponseWriter`) that captures what the wrapped
 * handler writes: a status code that is set at most once (0 means "not yet"), a header map, a body
 * that only grows, and the envelope format chosen while the request was classified.
 */
module Writer {
  import opened Wrappers
  import opened Text
  import opened Headers

  /** A Go `[]byte`: `nil` and an empty slice are different values. */
  datatype ByteSlice = Nil | Bytes(data: seq<uint8>)

  function Data(b: ByteSlice): seq<uint8> {
    if b.Nil? then [] else b.data
  }

  /** The envelope format of a prepared response: API Gateway v2, API Gateway v1 (REST) or ALB. */
  datatype Format = V2 | V1 | Alb

  /** `http.DetectContentType`, supplied by the caller. */
  type Sniffer = seq<uint8> -> string

  const OctetStream: string := "application/octet-stream"
  const StatusOK: int := 200

  datatype WriterState = WriterState(statusCode: int, header: Header, body: seq<uint8>, prepared: Option<Format>)

  /** A zero `lambdaHTTPResponseWriter`. */
  const Fresh: WriterState := WriterState(0, map[], [], None)

  /** Whether writing `data` in state `s` fills in a sniffed Content-Type. */
  predicate Sniffs(s: WriterState, data: ByteSlice) {
    && s.statusCode == 0
    && ContentType !in s.header
    && Get(s.header, TransferEncoding) == ""
    && !data.Nil?
  }

  /** `writeHeaderLine`: the first write fixes the status at 200 and may sniff the Content-Type. */
  function AfterHeaderLine(s: WriterState, data: ByteSlice, sniff: Sniffer): WriterState {
    if s.statusCode != 0 then s
    else if Sniffs(s, data) then s.(statusCode := StatusOK, header := Set(s.header, ContentType, sniff(Data(data))))
    else s.(statusCode := StatusOK)
  }

  function AfterWrite(s: WriterState, data: ByteSlice, sniff: Sniffer): WriterState {
    var t := AfterHeaderLine(s, data, sniff);
    t.(body := t.body + Data(data))
  }

  function AfterWriteHeader(s: WriterState, code: int): WriterState {
    if s.statusCode != 0 then s else s.(statusCode := code)
  }

  function AfterFlush(s: WriterState): WriterState {
    if s.statusCode != 0 then s else AfterWriteHeader(s, StatusOK)
  }

  /**
   * What a handler can do to the writer: change the map returned by `Header()` (a raw assignment
   * or the canonicalising `Set`, `Add`, `Del`), `Write`, `WriteHeader` or `Flush`.
   */
  datatype Op =
    | Assign(key: string, values: seq<string>)
    | SetHeader(key: string, value: string)
    | AddHeader(key: string, value: string)
    | DelHeader(key: string)
    | Write(data: ByteSlice)
    | WriteHeader(code: int)
    | Flush

  function Step(s: WriterState, op: Op, sniff: Sniffer): WriterState {
    match op
    case Assign(k, vs) => s.(header := s.header[k := vs])
    case SetHeader(k, v) => s.(header := Set(s.header, k, v))
    case AddHeader(k, v) => s.(header := Add(s.header, k, v))
    case DelHeader(k) => s.(header := Del(s.header, k))
    case Write(data) => AfterWrite(s, data, sniff)
    case WriteHeader(code) => AfterWriteHeader(s, code)
    case Flush => AfterFlush(s)
  }

  /** The state after a handler performs `ops` in order. */
  function Run(s: WriterState, ops: seq<Op>, sniff: Sniffer): WriterState
    decreases |ops|
  {
    if |ops| == 0 then s else Run(Step(s, ops[0], sniff), ops[1..], sniff)
  }

  /** The first operation that fixes the status: a `Write`, a `Flush` or a `WriteHeader` of a non-zero code. */
  function Finalizer(ops: seq<Op>): Option<Op>
    decreases |ops|
  {
    if |ops| == 0 then None
    else if ops[0].Write? || ops[0].Flush? || (ops[0].WriteHeader? && ops[0].code != 0) then Some(ops[0])
    else Finalizer(ops[1..])
  }

  /** The status the finalizing operation stands for, 0 when there is none. */
  function FirstStatus(ops: seq<Op>): int {
    match Finalizer(ops)
    case None => 0
    case Some(op) => if op.WriteHeader? then op.code else StatusOK
  }

  /** Everything passed to `Write`, concatenated in order. */
  function Written(ops: seq<Op>): seq<uint8>
    decreases |ops|
  {
    if |ops| == 0 then [] else (if ops[0].Write? then Data(ops[0].data) else []) + Written(ops[1..])
  }

  /** How many operations of `ops`, performed from `s`, sniff a Content-Type. */
  function SniffCount(s: WriterState, ops: seq<Op>, sniff: Sniffer): nat
    decreases |ops|
  {
    if |ops| == 0 then 0
    else (if ops[0].Write? && Sniffs(s, ops[0].data) then 1 else 0) + SniffCount(Step(s, ops[0], sniff), ops[1..], sniff)
  }

  lemma {:induction false} RunSnoc(s: WriterState, ops: seq<Op>, op: Op, sniff: Sniffer)
    ensures Run(s, ops + [op], sniff) == Step(Run(s, ops, sniff), op, sniff)
    decreases |ops|
  {
    if |ops| > 0 {
      assert (ops + [op])[1..] == ops[1..] + [op];
      RunSnoc(Step(s, ops[0], sniff), ops[1..], op, sniff);
    }
  }

  /** Once the status is non-zero nothing changes it. */
  lemma {:induction false} StatusWrittenOnce(s: WriterState, ops: seq<Op>, sniff: Sniffer)
    requires s.statusCode != 0
    ensures Run(s, ops, sniff).statusCode == s.statusCode
    decreases |ops|
  {
    if |ops| > 0 {
      StatusWrittenOnce(Step(s, ops[0], sniff), ops[1..], sniff);
    }
  }

  /**
   * From an unset status, the final status is the one the first finalizing operation stands for:
   * 200 for `Write` and `Flush`, the code for `WriteHeader`; `WriteHeader(0)` is not finalizing.
   */
  lemma {:induction false} StatusIsFirstFinalizer(s: WriterState, ops: seq<Op>, sniff: Sniffer)
    requires s.statusCode == 0
    ensures Run(s, ops, sniff).statusCode == FirstStatus(ops)
    decreases |ops|
  {
    if |ops| > 0 {
      var t := Step(s, ops[0], sniff);
      if t.statusCode != 0 {
        StatusWrittenOnce(t, ops[1..], sniff);
      } else {
        StatusIsFirstFinalizer(t, ops[1..], sniff);
      }
    }
  }

  /** The body is the old body followed by every written slice, also those written after the status was fixed. */
  lemma {:induction false} BodyIsConcatenation(s: WriterState, ops: seq<Op>, sniff: Sniffer)
    ensures Run(s, ops, sniff).body == s.body + Written(ops)
    decreases |ops|
  {
    if |ops| > 0 {
      BodyIsConcatenation(Step(s, ops[0], sniff), ops[1..], sniff);
    }
  }

  /** How one operation moves the status: a finalizing one sets it, any other leaves it. */
  lemma StepStatus(s: WriterState, op: Op, sniff: Sniffer)
    ensures s.statusCode != 0 ==> Step(s, op, sniff).statusCode == s.statusCode
    ensures s.statusCode == 0 ==>
      (Step(s, op, sniff).statusCode != 0 <==> op.Write? || op.Flush? || (op.WriteHeader? && op.code != 0))
  {
  }

  lemma {:induction false} NoSniffOnceSet(s: WriterState, ops: seq<Op>, sniff: Sniffer)
    requires s.statusCode != 0
    ensures SniffCount(s, ops, sniff) == 0
    decreases |ops|
  {
    if |ops| > 0 {
      StepStatus(s, ops[0], sniff);
      NoSniffOnceSet(Step(s, ops[0], sniff), ops[1..], sniff);
    }
  }

  /**
   * A Content-Type is sniffed at most once, never once the status is set, and only when the first
   * finalizing operation is a `Write` (not when `WriteHeader` or `Flush` came first).
   */
  lemma {:induction false} SniffAtMostOnce(s: WriterState, ops: seq<Op>, sniff: Sniffer)
    ensures SniffCount(s, ops, sniff) <= 1
    ensures s.statusCode != 0 ==> SniffCount(s, ops, sniff) == 0
    ensures s.statusCode == 0 && SniffCount(s, ops, sniff) == 1 ==> Finalizer(ops).Some? && Finalizer(ops).value.Write?
    decreases |ops|
  {
    if s.statusCode != 0 {
      NoSniffOnceSet(s, ops, sniff);
    } else if |ops| > 0 {
      var t := Step(s, ops[0], sniff);
      StepStatus(s, ops[0], sniff);
      if t.statusCode != 0 {
        NoSniffOnceSet(t, ops[1..], sniff);
      } else {
        SniffAtMostOnce(t, ops[1..], sniff);
      }
    }
  }

  /**
   * The first finalizing `Write` sets the status to 200 and adds Content-Type holding the sniffed
   * type exactly when there is no Content-Type key, no Transfer-Encoding value and `data` is not nil;
   * otherwise the header stays as it was.
   */
  lemma WriteSniffs(s: WriterState, data: ByteSlice, sniff: Sniffer)
    requires s.statusCode == 0
    ensures AfterWrite(s, data, sniff).statusCode == StatusOK
    ensures AfterWrite(s, data, sniff).header != s.header <==> Sniffs(s, data)
    ensures Sniffs(s, data) ==> AfterWrite(s, data, sniff).header == s.header[ContentType := [sniff(Data(data))]]
  {
    ReservedNamesCanonical();
    if Sniffs(s, data) {
      assert ContentType in AfterWrite(s, data, sniff).header;
    }
  }

  /** `Flush` and `WriteHeader` touch only the status, and only while it is unset. */
  lemma FinalizersKeepHeaderAndBody(s: WriterState, code: int)
    ensures AfterFlush(s).header == s.header && AfterFlush(s).body == s.body
    ensures AfterFlush(s).statusCode == (if s.statusCode == 0 then StatusOK else s.statusCode)
    ensures AfterWriteHeader(s, code).header == s.header && AfterWriteHeader(s, code).body == s.body
    ensures AfterWriteHeader(s, code).statusCode == (if s.statusCode == 0 then code else s.statusCode)
  {
  }

  class ResponseWriter {
    var header: Header
    var body: seq<uint8>
    var statusCode: int
    var preparedResponse: Option<Format>

    function State(): WriterState
      reads this
    {
      WriterState(statusCode, header, body, preparedResponse)
    }

    constructor()
      ensures State() == Fresh
    {
      header := map[];
      body := [];
      statusCode := 0;
      preparedResponse := None;
    }

    /** `Header()`: the live header map (a nil map reads as an empty one). */
    method Header() returns (h: Header)
      ensures h == header
    {
      h := header;
    }

    /** Replaces the header map, as a handler does through the map `Header()` returned. */
    method SetHeaderMap(h: Header)
      modifies this
      ensures State() == old(State()).(header := h)
    {
      header := h;
    }

    method WriteHeaderLine(data: ByteSlice, sniff: Sniffer)
      modifies this
      ensures State() == AfterHeaderLine(old(State()), data, sniff)
    {
      if statusCode != 0 {
        return;
      }
      ReservedNamesCanonical();
      statusCode := StatusOK;
      var h := Header();
      var hasType := ContentType in h;
      var hasTE := Get(h, TransferEncoding) != "";
      if !hasType && !hasTE {
        if !data.Nil? {
          h := Set(h, ContentType, sniff(data.data));
        }
      }
      header := h;
    }

    /** `Write`: the whole slice is taken and no error is reported. */
    method Write(data: ByteSlice, sniff: Sniffer) returns (written: int, err: Option<string>)
      modifies this
      ensures State() == AfterWrite(old(State()), data, sniff)
      ensures written == |Data(data)| && err == None
    {
      WriteHeaderLine(data, sniff);
      body := body + Data(data);
      written := |Data(data)|;
      err := None;
    }

    method WriteHeader(code: int)
      modifies this
      ensures State() == AfterWriteHeader(old(State()), code)
    {
      if statusCode != 0 {
        return;
      }
      statusCode := code;
    }

    method Flush()
      modifies this
      ensures State() == AfterFlush(old(State()))
    {
      if statusCode != 0 {
        return;
      }
      WriteHeader(StatusOK);
    }

    /** Performs one handler operation. */
    method Perform(op: Op, sniff: Sniffer)
      modifies this
      ensures State() == Step(old(State()), op, sniff)
    {
      match op
      case Assign(k, vs) =>
        var h := Header();
        SetHeaderMap(h[k := vs]);
      case SetHeader(k, v) =>
        var h := Header();
        SetHeaderMap(Set(h, k, v));
      case AddHeader(k, v) =>
        var h := Header();
        SetHeaderMap(Add(h, k, v));
      case DelHeader(k) =>
        var h := Header();
        SetHeaderMap(Del(h, k));
      case Write(data) =>
        var _, _ := Write(data, sniff);
      case WriteHeader(code) =>
        WriteHeader(code);
      case Flush =>
        Flush();
    }

    /** Performs a handler's operations in order. */
    method PerformAll(ops: seq<Op>, sniff: Sniffer)
      modifies this
      ensures State() == Run(old(State()), ops, sniff)
    {
      var i := 0;
      while i < |ops|
        invariant 0 <= i <= |ops|
        invariant State() == Run(old(State()), ops[..i], sniff)
      {
        RunSnoc(old(State()), ops[..i], ops[i], sniff);
        assert ops[..i + 1] == ops[..i] + [ops[i]];
        Perform(ops[i], sniff);
        i := i + 1;
      }
      assert ops[..i] == ops;
    }
  }
}
