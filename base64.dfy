/**
 * The standard base64 encoding of section 4 of RFC 4648 (Go's `base64.StdEncoding`):
 * alphabet A-Z a-z 0-9 + /, with '=' padding to a multiple of four symbols.
 */
module Base64 {
  import opened Wrappers
  import opened Text

  const Pad: char := '='

  /** The alphabet symbol of a six-bit value. */
  function Symbol(x: int): (c: char)
    requires 0 <= x < 64
    ensures c != Pad
  {
    if x < 26 then (x + 'A' as int) as char
    else if x < 52 then (x - 26 + 'a' as int) as char
    else if x < 62 then (x - 52 + '0' as int) as char
    else if x == 62 then '+'
    else '/'
  }

  /** The six-bit value of an alphabet symbol; `None` for any other char, padding included. */
  function Value(c: char): (r: Option<int>)
    ensures r.Some? ==> 0 <= r.value < 64
  {
    if 'A' <= c <= 'Z' then Some(c as int - 'A' as int)
    else if 'a' <= c <= 'z' then Some(c as int - 'a' as int + 26)
    else if '0' <= c <= '9' then Some(c as int - '0' as int + 52)
    else if c == '+' then Some(62)
    else if c == '/' then Some(63)
    else None
  }

  lemma ValueOfSymbol(x: int)
    requires 0 <= x < 64
    ensures Value(Symbol(x)) == Some(x)
  {
  }

  /** The four symbols of a full group of three bytes. */
  function Group3(b0: uint8, b1: uint8, b2: uint8): (s: string)
    ensures |s| == 4 && IsByteString(s)
  {
    [Symbol(b0 / 4), Symbol((b0 % 4) * 16 + b1 / 16), Symbol((b1 % 16) * 4 + b2 / 64), Symbol(b2 % 64)]
  }

  /** The padded group of a final two bytes. */
  function Group2(b0: uint8, b1: uint8): (s: string)
    ensures |s| == 4 && IsByteString(s)
  {
    [Symbol(b0 / 4), Symbol((b0 % 4) * 16 + b1 / 16), Symbol((b1 % 16) * 4), Pad]
  }

  /** The padded group of a final single byte. */
  function Group1(b0: uint8): (s: string)
    ensures |s| == 4 && IsByteString(s)
  {
    [Symbol(b0 / 4), Symbol((b0 % 4) * 16), Pad, Pad]
  }

  /** `base64.StdEncoding.EncodeToString`: four symbols per three bytes, the last group padded. */
  function Encode(b: seq<uint8>): (s: string)
    ensures IsByteString(s)
    decreases |b|
  {
    if |b| == 0 then ""
    else if |b| == 1 then Group1(b[0])
    else if |b| == 2 then Group2(b[0], b[1])
    else Group3(b[0], b[1], b[2]) + Encode(b[3..])
  }

  /** Every three bytes, or fewer at the end, become four symbols. */
  lemma {:induction false} EncodeLength(b: seq<uint8>)
    ensures |Encode(b)| == 4 * ((|b| + 2) / 3)
    decreases |b|
  {
    if |b| > 2 {
      EncodeLength(b[3..]);
      assert (|b| + 2) / 3 == (|b[3..]| + 2) / 3 + 1;
    }
  }

  /** A reference decoder for padded standard base64; `None` on anything malformed. */
  function Decode(s: string): Option<seq<uint8>>
    decreases |s|
  {
    if |s| == 0 then Some([])
    else if |s| < 4 then None
    else
      match (Value(s[0]), Value(s[1]))
      case (Some(c0), Some(c1)) =>
        if |s| == 4 && s[2] == Pad && s[3] == Pad then
          Some([c0 * 4 + c1 / 16])
        else if |s| == 4 && s[3] == Pad then
          (match Value(s[2])
           case Some(c2) => Some([c0 * 4 + c1 / 16, (c1 % 16) * 16 + c2 / 4])
           case None => None)
        else
          (match (Value(s[2]), Value(s[3]), Decode(s[4..]))
           case (Some(c2), Some(c3), Some(rest)) =>
             Some([c0 * 4 + c1 / 16, (c1 % 16) * 16 + c2 / 4, (c2 % 4) * 64 + c3] + rest)
           case _ => None)
      case _ => None
  }

  lemma SplitOne(b0: int)
    requires 0 <= b0 < 256
    ensures 0 <= (b0 % 4) * 16 < 64
    ensures (b0 / 4) * 4 + ((b0 % 4) * 16) / 16 == b0
  {
  }

  lemma SplitTwo(b0: int, b1: int)
    requires 0 <= b0 < 256 && 0 <= b1 < 256
    ensures var c1 := (b0 % 4) * 16 + b1 / 16;
      0 <= c1 < 64 && (b0 / 4) * 4 + c1 / 16 == b0 && (c1 % 16) * 16 + ((b1 % 16) * 4) / 4 == b1
  {
  }

  lemma SplitThree(b0: int, b1: int, b2: int)
    requires 0 <= b0 < 256 && 0 <= b1 < 256 && 0 <= b2 < 256
    ensures var c1, c2 := (b0 % 4) * 16 + b1 / 16, (b1 % 16) * 4 + b2 / 64;
      0 <= c1 < 64 && 0 <= c2 < 64 &&
      (b0 / 4) * 4 + c1 / 16 == b0 && (c1 % 16) * 16 + c2 / 4 == b1 && (c2 % 4) * 64 + b2 % 64 == b2
  {
  }

  /** Decoding a full group of four symbols followed by more text. */
  lemma DecodeFullGroup(c0: int, c1: int, c2: int, c3: int, rest: string)
    requires 0 <= c0 < 64 && 0 <= c1 < 64 && 0 <= c2 < 64 && 0 <= c3 < 64
    ensures Decode([Symbol(c0), Symbol(c1), Symbol(c2), Symbol(c3)] + rest) ==
      match Decode(rest)
      case Some(r) => Some([c0 * 4 + c1 / 16, (c1 % 16) * 16 + c2 / 4, (c2 % 4) * 64 + c3] + r)
      case None => None
  {
    var s := [Symbol(c0), Symbol(c1), Symbol(c2), Symbol(c3)] + rest;
    ValueOfSymbol(c0); ValueOfSymbol(c1); ValueOfSymbol(c2); ValueOfSymbol(c3);
    assert s[0] == Symbol(c0) && s[1] == Symbol(c1) && s[2] == Symbol(c2) && s[3] == Symbol(c3);
    assert s[4..] == rest;
  }

  lemma DecodeLastOne(c0: int, c1: int)
    requires 0 <= c0 < 64 && 0 <= c1 < 64 && 0 <= c0 * 4 + c1 / 16 < 256
    ensures Decode([Symbol(c0), Symbol(c1), Pad, Pad]) == Some([c0 * 4 + c1 / 16])
  {
    ValueOfSymbol(c0); ValueOfSymbol(c1);
  }

  lemma DecodeLastTwo(c0: int, c1: int, c2: int)
    requires 0 <= c0 < 64 && 0 <= c1 < 64 && 0 <= c2 < 64 && 0 <= c0 * 4 + c1 / 16 < 256
    ensures Decode([Symbol(c0), Symbol(c1), Symbol(c2), Pad]) ==
      Some([c0 * 4 + c1 / 16, (c1 % 16) * 16 + c2 / 4])
  {
    ValueOfSymbol(c0); ValueOfSymbol(c1); ValueOfSymbol(c2);
  }

  lemma DecodeGroup1(b0: uint8)
    ensures Decode(Group1(b0)) == Some([b0])
  {
    SplitOne(b0);
    DecodeLastOne(b0 / 4, (b0 % 4) * 16);
  }

  lemma DecodeGroup2(b0: uint8, b1: uint8)
    ensures Decode(Group2(b0, b1)) == Some([b0, b1])
  {
    var c0, c1, c2 := b0 / 4, (b0 % 4) * 16 + b1 / 16, (b1 % 16) * 4;
    SplitTwo(b0, b1);
    assert [c0 * 4 + c1 / 16, (c1 % 16) * 16 + c2 / 4] == [b0, b1];
    DecodeLastTwo(c0, c1, c2);
  }

  lemma DecodeGroup3(b0: uint8, b1: uint8, b2: uint8, rest: string)
    ensures Decode(Group3(b0, b1, b2) + rest) ==
      match Decode(rest)
      case Some(r) => Some([b0, b1, b2] + r)
      case None => None
  {
    var c0, c1, c2, c3 := b0 / 4, (b0 % 4) * 16 + b1 / 16, (b1 % 16) * 4 + b2 / 64, b2 % 64;
    SplitThree(b0, b1, b2);
    assert [c0 * 4 + c1 / 16, (c1 % 16) * 16 + c2 / 4, (c2 % 4) * 64 + c3] == [b0, b1, b2];
    assert Group3(b0, b1, b2) == [Symbol(c0), Symbol(c1), Symbol(c2), Symbol(c3)];
    DecodeFullGroup(c0, c1, c2, c3, rest);
  }

  /** Decoding undoes encoding, for every byte sequence. */
  lemma {:induction false} DecodeEncode(b: seq<uint8>)
    ensures Decode(Encode(b)) == Some(b)
    decreases |b|
  {
    if |b| == 1 {
      DecodeGroup1(b[0]);
      assert [b[0]] == b;
    } else if |b| == 2 {
      DecodeGroup2(b[0], b[1]);
      assert [b[0], b[1]] == b;
    } else if |b| > 2 {
      assert Encode(b) == Group3(b[0], b[1], b[2]) + Encode(b[3..]);
      DecodeGroup3(b[0], b[1], b[2], Encode(b[3..]));
      DecodeEncode(b[3..]);
      assert [b[0], b[1], b[2]] + b[3..] == b;
    }
  }
}
