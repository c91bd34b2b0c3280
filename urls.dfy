/**
 * The parts of Go's `net/url` that the request canonicalisers use: percent-escaping in the two
 * modes they meet (a path segment and a query component, section 2.1 of RFC 3986),
 * `url.PathUnescape`, `url.QueryEscape`, and `url.Values` with its `Encode`.
 */
module Urls {
  import opened Wrappers
  import opened Text

  /** The two escaping modes of Go's `url` package that matter here. */
  datatype Mode = PathSegment | QueryComponent

  predicate IsHex(c: char) {
    ('0' <= c <= '9') || ('a' <= c <= 'f') || ('A' <= c <= 'F')
  }

  function HexValue(c: char): (n: int)
    requires IsHex(c)
    ensures 0 <= n < 16
  {
    if '0' <= c <= '9' then c as int - '0' as int
    else if 'a' <= c <= 'f' then c as int - 'a' as int + 10
    else c as int - 'A' as int + 10
  }

  function UpperHex(n: int): (c: char)
    requires 0 <= n < 16
    ensures IsHex(c) && HexValue(c) == n
  {
    if n < 10 then (n + '0' as int) as char else (n - 10 + 'A' as int) as char
  }

  /** Unreserved characters of section 2.3 of RFC 3986: never escaped. */
  predicate IsUnreserved(c: char) {
    ('a' <= c <= 'z') || ('A' <= c <= 'Z') || ('0' <= c <= '9') || c == '-' || c == '_' || c == '.' || c == '~'
  }

  /** Reserved characters of section 2.2 of RFC 3986 that Go treats mode by mode. */
  predicate IsReserved(c: char) {
    c == '$' || c == '&' || c == '+' || c == ',' || c == '/' || c == ':' || c == ';' || c == '=' || c == '?' || c == '@'
  }

  /** Go's `shouldEscape` for the two modes. */
  predicate ShouldEscape(c: char, mode: Mode) {
    if IsUnreserved(c) then false
    else if IsReserved(c) then
      (match mode
       case PathSegment => c == '/' || c == ';' || c == ',' || c == '?'
       case QueryComponent => true)
    else true
  }

  /** The escaped form of one byte. */
  function EscapeChar(c: char, mode: Mode): string
    requires c as int < 256
  {
    if !ShouldEscape(c, mode) then [c]
    else if c == ' ' && mode == QueryComponent then "+"
    else ['%', UpperHex(c as int / 16), UpperHex(c as int % 16)]
  }

  /** Go's `escape(s, mode)`. */
  function Escape(s: string, mode: Mode): string
    requires IsByteString(s)
    decreases |s|
  {
    if |s| == 0 then "" else EscapeChar(s[0], mode) + Escape(s[1..], mode)
  }

  /** `url.QueryEscape`. */
  function QueryEscape(s: string): string
    requires IsByteString(s)
  {
    Escape(s, QueryComponent)
  }

  /**
   * Go's `unescape(s, mode)`: every '%' must start a two-hex-digit escape; in a query component
   * '+' stands for a space. On failure the error holds the text from the offending '%',
   * cut to three bytes, as in `url.EscapeError`.
   */
  function Unescape(s: string, mode: Mode): Result<string, string>
    decreases |s|
  {
    if |s| == 0 then Success("")
    else if s[0] == '%' then
      if |s| < 3 || !IsHex(s[1]) || !IsHex(s[2]) then
        Failure(if |s| < 3 then s else s[..3])
      else
        match Unescape(s[3..], mode)
        case Success(r) => Success([(HexValue(s[1]) * 16 + HexValue(s[2])) as char] + r)
        case Failure(e) => Failure(e)
    else
      match Unescape(s[1..], mode)
      case Success(r) => Success([if s[0] == '+' && mode == QueryComponent then ' ' else s[0]] + r)
      case Failure(e) => Failure(e)
  }

  /** `url.PathUnescape`. */
  function PathUnescape(s: string): Result<string, string> {
    Unescape(s, PathSegment)
  }

  /** Every '%' of `s` is followed by two hex digits. */
  predicate WellEscaped(s: string) {
    forall i :: 0 <= i < |s| && s[i] == '%' ==> i + 2 < |s| && IsHex(s[i + 1]) && IsHex(s[i + 2])
  }

  /** Unescaping fails exactly when some '%' is not followed by two hex digits. */
  lemma {:induction false} UnescapeSucceedsIff(s: string, mode: Mode)
    ensures Unescape(s, mode).Success? <==> WellEscaped(s)
    decreases |s|
  {
    if |s| == 0 {
    } else if s[0] == '%' {
      if |s| < 3 || !IsHex(s[1]) || !IsHex(s[2]) {
        assert !WellEscaped(s) by { assert s[0] == '%'; }
      } else {
        UnescapeSucceedsIff(s[3..], mode);
        if WellEscaped(s) {
          forall i | 0 <= i < |s[3..]| && s[3..][i] == '%'
            ensures i + 2 < |s[3..]| && IsHex(s[3..][i + 1]) && IsHex(s[3..][i + 2])
          {
            assert s[i + 3] == '%';
          }
        }
        if WellEscaped(s[3..]) {
          forall i | 0 <= i < |s| && s[i] == '%' ensures i + 2 < |s| && IsHex(s[i + 1]) && IsHex(s[i + 2]) {
            if i >= 3 { assert s[3..][i - 3] == '%'; }
          }
        }
      }
    } else {
      UnescapeSucceedsIff(s[1..], mode);
      if WellEscaped(s) {
        forall i | 0 <= i < |s[1..]| && s[1..][i] == '%'
          ensures i + 2 < |s[1..]| && IsHex(s[1..][i + 1]) && IsHex(s[1..][i + 2])
        {
          assert s[i + 1] == '%';
        }
      }
      if WellEscaped(s[1..]) {
        forall i | 0 <= i < |s| && s[i] == '%' ensures i + 2 < |s| && IsHex(s[i + 1]) && IsHex(s[i + 2]) {
          assert i >= 1 && s[1..][i - 1] == '%';
        }
      }
    }
  }

  /** A path without '%' unescapes to itself: path unescaping turns no '+' into a space. */
  lemma {:induction false} PathUnescapeNoPercent(s: string)
    requires '%' !in s
    ensures PathUnescape(s) == Success(s)
    decreases |s|
  {
    if |s| > 0 {
      assert s[0] != '%' && '%' !in s[1..];
      PathUnescapeNoPercent(s[1..]);
      assert [s[0]] + s[1..] == s;
    }
  }

  lemma UnescapeAppend(e: string, rest: string, mode: Mode, c: char)
    requires Unescape(e, mode) == Success([c])
    requires |e| > 0 && (e[0] == '%' ==> |e| == 3)
    requires e[0] != '%' ==> |e| == 1
    ensures Unescape(e + rest, mode) ==
      match Unescape(rest, mode)
      case Success(r) => Success([c] + r)
      case Failure(x) => Failure(x)
  {
    assert (e + rest)[0] == e[0];
    if e[0] == '%' {
      assert e[3..] == "";
      var m := (HexValue(e[1]) * 16 + HexValue(e[2])) as char;
      assert Unescape(e, mode) == Success([m] + "");
      assert [m] + "" == [m];
      assert (e + rest)[1] == e[1] && (e + rest)[2] == e[2];
      assert (e + rest)[3..] == rest;
    } else {
      assert e[1..] == "";
      var m := if e[0] == '+' && mode == QueryComponent then ' ' else e[0];
      assert Unescape(e, mode) == Success([m] + "");
      assert [m] + "" == [m];
      assert (e + rest)[1..] == rest;
    }
  }

  lemma UnescapeEscapeChar(c: char, mode: Mode)
    requires c as int < 256
    ensures Unescape(EscapeChar(c, mode), mode) == Success([c])
    ensures var e := EscapeChar(c, mode); |e| > 0 && (e[0] == '%' ==> |e| == 3) && (e[0] != '%' ==> |e| == 1)
  {
    var e := EscapeChar(c, mode);
    if ShouldEscape(c, mode) && !(c == ' ' && mode == QueryComponent) {
      var n := c as int;
      var hi, lo := n / 16, n % 16;
      assert e == ['%', UpperHex(hi), UpperHex(lo)];
      assert e[3..] == "";
      assert HexValue(e[1]) == hi && HexValue(e[2]) == lo;
      assert hi * 16 + lo == n;
      assert (n as char) == c;
      assert Unescape(e[3..], mode) == Success("");
      assert Unescape(e, mode) == Success([(HexValue(e[1]) * 16 + HexValue(e[2])) as char] + "");
      assert [c] + "" == [c];
    } else if ShouldEscape(c, mode) {
      assert e == "+" && e[1..] == "";
      assert Unescape(e[1..], mode) == Success("");
      assert [c] + "" == [c];
    } else {
      assert e == [c] && e[1..] == "";
      assert c != '%';
      assert !(c == '+' && mode == QueryComponent);
      assert Unescape(e[1..], mode) == Success("");
      assert Unescape(e, mode) == Success([c] + "");
      assert [c] + "" == [c];
    }
  }

  /** Unescaping in a mode undoes escaping in that mode, for every byte string. */
  lemma {:induction false} UnescapeEscape(s: string, mode: Mode)
    requires IsByteString(s)
    ensures Unescape(Escape(s, mode), mode) == Success(s)
    decreases |s|
  {
    if |s| > 0 {
      UnescapeEscapeChar(s[0], mode);
      UnescapeEscape(s[1..], mode);
      UnescapeAppend(EscapeChar(s[0], mode), Escape(s[1..], mode), mode, s[0]);
      assert [s[0]] + s[1..] == s;
    }
  }

  /** Query escaping never produces the separators of a query string. */
  lemma {:induction false} QueryEscapeNoSeparators(s: string)
    requires IsByteString(s)
    ensures '&' !in QueryEscape(s) && '=' !in QueryEscape(s)
    decreases |s|
  {
    if |s| > 0 {
      QueryEscapeNoSeparators(s[1..]);
      assert QueryEscape(s) == EscapeChar(s[0], QueryComponent) + QueryEscape(s[1..]);
    }
  }

  /** `url.Values`: each key to its list of values. */
  type Values = map<string, seq<string>>

  /** `Values.Add`: append `x` to the values of `k`. */
  function Add(v: Values, k: string, x: string): Values {
    v[k := (if k in v then v[k] else []) + [x]]
  }

  /** Every key and value is a byte string. */
  predicate IsByteValues(v: Values) {
    forall k :: k in v ==> IsByteString(k) && forall j :: 0 <= j < |v[k]| ==> IsByteString(v[k][j])
  }

  /** One `key=value` pair of an encoded query. */
  function Segment(k: string, x: string): string
    requires IsByteString(k) && IsByteString(x)
  {
    QueryEscape(k) + "=" + QueryEscape(x)
  }

  /** The segments of one key, one per value, in value order. */
  function KeySegments(k: string, xs: seq<string>): seq<string>
    requires IsByteString(k) && forall j :: 0 <= j < |xs| ==> IsByteString(xs[j])
    decreases |xs|
  {
    if |xs| == 0 then [] else [Segment(k, xs[0])] + KeySegments(k, xs[1..])
  }

  /** The segments of the keys `ks`, key after key. */
  function Segments(v: Values, ks: seq<string>): seq<string>
    requires IsByteValues(v)
    requires forall i :: 0 <= i < |ks| ==> ks[i] in v
    decreases |ks|
  {
    if |ks| == 0 then [] else KeySegments(ks[0], v[ks[0]]) + Segments(v, ks[1..])
  }

  /** `Values.Encode`: `key=value` pairs joined by '&', keys in ascending order, values in insertion order. */
  function Encode(v: Values): string
    requires IsByteValues(v)
  {
    Join(Segments(v, SortedKeys(v.Keys)), "&")
  }

  /** A reference decoder for one segment: the escaped key up to the first '=', then the escaped value. */
  function DecodeSegment(v: Values, seg: string): Result<Values, string> {
    var (k, x) := Cut(seg, '=');
    match (Unescape(k, QueryComponent), Unescape(x, QueryComponent))
    case (Success(k'), Success(x')) => Success(Add(v, k', x'))
    case (Failure(e), _) => Failure(e)
    case (_, Failure(e)) => Failure(e)
  }

  function DecodeSegments(v: Values, segs: seq<string>): Result<Values, string>
    decreases |segs|
  {
    if |segs| == 0 then Success(v)
    else if |segs[0]| == 0 then DecodeSegments(v, segs[1..])
    else
      match DecodeSegment(v, segs[0])
      case Success(v') => DecodeSegments(v', segs[1..])
      case Failure(e) => Failure(e)
  }

  /** A reference query decoder in the manner of `url.ParseQuery`. */
  function DecodeQuery(q: string): Result<Values, string> {
    if |q| == 0 then Success(map[]) else DecodeSegments(map[], Split(q, '&'))
  }

  lemma DecodeOneSegment(v: Values, k: string, x: string)
    requires IsByteString(k) && IsByteString(x)
    ensures DecodeSegment(v, Segment(k, x)) == Success(Add(v, k, x))
  {
    QueryEscapeNoSeparators(k);
    CutAtFirst(QueryEscape(k), '=', QueryEscape(x));
    UnescapeEscape(k, QueryComponent);
    UnescapeEscape(x, QueryComponent);
    assert Segment(k, x) == QueryEscape(k) + ['='] + QueryEscape(x);
  }

  /** A segment that decodes is consumed, and decoding goes on from what it added. */
  lemma DecodeSegmentsCons(v: Values, seg: string, segs: seq<string>)
    requires |seg| > 0 && DecodeSegment(v, seg).Success?
    ensures DecodeSegments(v, [seg] + segs) == DecodeSegments(DecodeSegment(v, seg).value, segs)
  {
    assert ([seg] + segs)[0] == seg && ([seg] + segs)[1..] == segs;
  }

  /** Adds the values `xs` under `k`, one after another. */
  function AddAll(v: Values, k: string, xs: seq<string>): Values
    decreases |xs|
  {
    if |xs| == 0 then v else AddAll(Add(v, k, xs[0]), k, xs[1..])
  }

  /** Adding values one by one appends them to the list under `k`. */
  lemma {:induction false} AddAllAppends(v: Values, k: string, xs: seq<string>)
    requires |xs| > 0
    ensures AddAll(v, k, xs) == v[k := (if k in v then v[k] else []) + xs]
    decreases |xs|
  {
    var before := if k in v then v[k] else [];
    var v1 := Add(v, k, xs[0]);
    if |xs| == 1 {
      assert xs == [xs[0]];
    } else {
      AddAllAppends(v1, k, xs[1..]);
      assert before + [xs[0]] + xs[1..] == before + xs;
    }
  }

  lemma {:induction false} DecodeKeySegments(v: Values, k: string, xs: seq<string>, rest: seq<string>)
    requires IsByteString(k) && forall j :: 0 <= j < |xs| ==> IsByteString(xs[j])
    ensures DecodeSegments(v, KeySegments(k, xs) + rest) == DecodeSegments(AddAll(v, k, xs), rest)
    decreases |xs|
  {
    if |xs| > 0 {
      var seg := Segment(k, xs[0]);
      DecodeOneSegment(v, k, xs[0]);
      assert KeySegments(k, xs) + rest == [seg] + (KeySegments(k, xs[1..]) + rest);
      DecodeSegmentsCons(v, seg, KeySegments(k, xs[1..]) + rest);
      DecodeKeySegments(Add(v, k, xs[0]), k, xs[1..], rest);
    } else {
      assert KeySegments(k, xs) + rest == rest;
    }
  }

  /** The entries of `v` whose keys occur in `ks`. */
  function Pick(v: Values, ks: seq<string>): Values {
    map k | k in v && k in ks :: v[k]
  }

  lemma MapStep(v: Values, acc: Values, ks: seq<string>)
    requires |ks| > 0
    requires forall i :: 0 <= i < |ks| ==> ks[i] in v
    ensures acc[ks[0] := v[ks[0]]] + Pick(v, ks[1..]) == acc + Pick(v, ks)
  {
    var a := acc[ks[0] := v[ks[0]]] + Pick(v, ks[1..]);
    var b := acc + Pick(v, ks);
    assert forall x :: x in ks <==> x == ks[0] || x in ks[1..] by {
      assert ks == [ks[0]] + ks[1..];
    }
    assert a.Keys == b.Keys;
    forall x | x in a ensures a[x] == b[x] {
    }
  }

  lemma {:induction false} DecodeSegmentsOfKeys(v: Values, acc: Values, ks: seq<string>)
    requires IsByteValues(v)
    requires forall i :: 0 <= i < |ks| ==> ks[i] in v && ks[i] !in acc && |v[ks[i]]| > 0
    requires forall i, j :: 0 <= i < j < |ks| ==> ks[i] != ks[j]
    ensures DecodeSegments(acc, Segments(v, ks)) == Success(acc + Pick(v, ks))
    decreases |ks|
  {
    if |ks| == 0 {
      assert acc + Pick(v, ks) == acc;
    } else {
      var k := ks[0];
      DecodeKeySegments(acc, k, v[k], Segments(v, ks[1..]));
      AddAllAppends(acc, k, v[k]);
      assert [] + v[k] == v[k];
      DecodeSegmentsOfKeys(v, acc[k := v[k]], ks[1..]);
      MapStep(v, acc, ks);
    }
  }

  lemma {:induction false} SegmentsNoAmpersand(v: Values, ks: seq<string>)
    requires IsByteValues(v)
    requires forall i :: 0 <= i < |ks| ==> ks[i] in v
    ensures forall i :: 0 <= i < |Segments(v, ks)| ==> '&' !in Segments(v, ks)[i] && |Segments(v, ks)[i]| > 0
    decreases |ks|
  {
    if |ks| > 0 {
      SegmentsNoAmpersand(v, ks[1..]);
      KeySegmentsNoAmpersand(ks[0], v[ks[0]]);
    }
  }

  lemma {:induction false} KeySegmentsNoAmpersand(k: string, xs: seq<string>)
    requires IsByteString(k) && forall j :: 0 <= j < |xs| ==> IsByteString(xs[j])
    ensures forall i :: 0 <= i < |KeySegments(k, xs)| ==> '&' !in KeySegments(k, xs)[i] && |KeySegments(k, xs)[i]| > 0
    decreases |xs|
  {
    if |xs| > 0 {
      KeySegmentsNoAmpersand(k, xs[1..]);
      QueryEscapeNoSeparators(k);
      QueryEscapeNoSeparators(xs[0]);
      assert Segment(k, xs[0]) == QueryEscape(k) + "=" + QueryEscape(xs[0]);
    }
  }

  lemma {:induction false} SegmentsEmpty(v: Values, ks: seq<string>)
    requires IsByteValues(v)
    requires forall i :: 0 <= i < |ks| ==> ks[i] in v && |v[ks[i]]| > 0
    ensures |Segments(v, ks)| == 0 <==> |ks| == 0
  {
    if |ks| > 0 {
      assert KeySegments(ks[0], v[ks[0]])[0] == Segment(ks[0], v[ks[0]][0]);
    }
  }

  lemma EncodeNonEmpty(v: Values)
    requires IsByteValues(v)
    requires forall k :: k in v ==> |v[k]| > 0
    requires v != map[]
    ensures DecodeQuery(Encode(v)) == DecodeSegments(map[], Segments(v, SortedKeys(v.Keys)))
  {
    var ks := SortedKeys(v.Keys);
    var segs := Segments(v, ks);
    assert ks[0] in v;
    SegmentsEmpty(v, ks);
    SegmentsNoAmpersand(v, ks);
    SplitJoin(segs, '&');
    JoinNonEmpty(segs);
  }

  /**
   * Decoding an encoded query gives back the same values, for every `url.Values` whose keys
   * all hold at least one value (the only ones the canonicalisers build).
   */
  lemma DecodeQueryEncode(v: Values)
    requires IsByteValues(v)
    requires forall k :: k in v ==> |v[k]| > 0
    ensures DecodeQuery(Encode(v)) == Success(v)
  {
    if v == map[] {
      assert SortedKeys(v.Keys) == [];
    } else {
      DecodeNonEmptyQuery(v);
    }
  }

  lemma DecodeNonEmptyQuery(v: Values)
    requires IsByteValues(v)
    requires forall k :: k in v ==> |v[k]| > 0
    requires v != map[]
    ensures DecodeQuery(Encode(v)) == Success(v)
  {
    var ks := SortedKeys(v.Keys);
    EncodeNonEmpty(v);
    assert forall i :: 0 <= i < |ks| ==> ks[i] in v && |v[ks[i]]| > 0;
    DecodeSegmentsOfKeys(v, map[], ks);
    PickSortedKeys(v);
  }

  lemma PickSortedKeys(v: Values)
    ensures map[] + Pick(v, SortedKeys(v.Keys)) == v
  {
    var ks := SortedKeys(v.Keys);
    PickAll(v, ks);
    assert map[] + v == v;
  }

  lemma PickAll(v: Values, ks: seq<string>)
    requires forall k :: k in v ==> k in ks
    ensures Pick(v, ks) == v
  {
  }

  lemma JoinNonEmpty(xs: seq<string>)
    requires |xs| > 0 && |xs[0]| > 0
    ensures |Join(xs, "&")| > 0
  {
  }
}
