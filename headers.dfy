/**
 * Go's `http.Header`: a map from header keys to value lists, and the MIME key canonicalisation
 * (`http.CanonicalHeaderKey`) that `Get`, `Set`, `Add` and `Del` apply to the key they are given.
 */
module Headers {
  import opened Text

  type Header = map<string, seq<string>>

  /** The bytes Go accepts in a header field name (the token characters of RFC 7230). */
  predicate IsTokenChar(c: char) {
    ('a' <= c <= 'z') || ('A' <= c <= 'Z') || ('0' <= c <= '9') ||
    c == '!' || c == '#' || c == '$' || c == '%' || c == '&' || c == '\'' || c == '*' ||
    c == '+' || c == '-' || c == '.' || c == '^' || c == '_' || c == '`' || c == '|' || c == '~'
  }

  predicate IsToken(s: string) {
    forall i :: 0 <= i < |s| ==> IsTokenChar(s[i])
  }

  /** Upper-case a letter that starts a word, lower-case every other letter. */
  function Recase(c: char, upper: bool): char {
    if upper && 'a' <= c <= 'z' then (c as int - 32) as char
    else if !upper && 'A' <= c <= 'Z' then (c as int + 32) as char
    else c
  }

  /** The canonical spelling of a token: a word starts at the beginning and after each '-'. */
  function Recased(s: string, upper: bool): (r: string)
    ensures |r| == |s|
    decreases |s|
  {
    if |s| == 0 then ""
    else
      var c := Recase(s[0], upper);
      [c] + Recased(s[1..], c == '-')
  }

  /** `http.CanonicalHeaderKey`: a key holding a byte outside the token set is returned unchanged. */
  function CanonicalKey(k: string): string {
    if IsToken(k) then Recased(k, true) else k
  }

  lemma {:induction false} RecasedToken(s: string, upper: bool)
    requires IsToken(s)
    ensures IsToken(Recased(s, upper))
    decreases |s|
  {
    if |s| > 0 {
      RecasedToken(s[1..], Recase(s[0], upper) == '-');
    }
  }

  lemma {:induction false} RecasedTwice(s: string, upper: bool)
    ensures Recased(Recased(s, upper), upper) == Recased(s, upper)
    decreases |s|
  {
    if |s| > 0 {
      var c := Recase(s[0], upper);
      var r := Recased(s, upper);
      assert r[0] == c && r[1..] == Recased(s[1..], c == '-');
      RecasedTwice(s[1..], c == '-');
    }
  }

  /** Canonicalising a canonical key changes nothing. */
  lemma CanonicalKeyIdempotent(k: string)
    ensures CanonicalKey(CanonicalKey(k)) == CanonicalKey(k)
  {
    if IsToken(k) {
      RecasedToken(k, true);
      RecasedTwice(k, true);
    }
  }

  const ContentType: string := "Content-Type"
  const TransferEncoding: string := "Transfer-Encoding"
  const SetCookie: string := "Set-Cookie"
  const HostKey: string := "Host"

  /** Every letter of `s` already has the case `Recased` would give it. */
  predicate IsRecased(s: string, upper: bool) {
    forall i :: 0 <= i < |s| ==> s[i] == Recase(s[i], StartsWord(s, i, upper))
  }

  /** Whether the letter at `i` starts a word: it is first (and `upper` says so) or follows a '-'. */
  function StartsWord(s: string, i: int, upper: bool): bool
    requires 0 <= i < |s|
  {
    if i == 0 then upper else s[i - 1] == '-'
  }

  lemma {:induction false} RecasedFixed(s: string, upper: bool)
    requires IsRecased(s, upper)
    ensures Recased(s, upper) == s
    decreases |s|
  {
    if |s| > 0 {
      assert IsRecased(s[1..], s[0] == '-') by {
        forall i | 0 <= i < |s[1..]|
          ensures s[1..][i] == Recase(s[1..][i], StartsWord(s[1..], i, s[0] == '-'))
        {
          assert s[1..][i] == s[i + 1];
          assert StartsWord(s[1..], i, s[0] == '-') == StartsWord(s, i + 1, upper);
        }
      }
      assert s[0] == Recase(s[0], StartsWord(s, 0, upper));
      RecasedFixed(s[1..], s[0] == '-');
      assert s == [s[0]] + s[1..];
    }
  }

  /** The reserved names the bridge looks up are already canonical. */
  lemma ReservedNamesCanonical()
    ensures CanonicalKey(ContentType) == ContentType
    ensures CanonicalKey(TransferEncoding) == TransferEncoding
    ensures CanonicalKey(SetCookie) == SetCookie
    ensures CanonicalKey(HostKey) == HostKey
  {
    ContentTypeCanonical();
    TransferEncodingCanonical();
    SetCookieCanonical();
    HostCanonical();
  }

  /** The reserved names are spelt the canonical way. */
  lemma ContentTypeSpelling()
    ensures IsRecased(ContentType, true)
  {
  }

  lemma TransferEncodingSpelling()
    ensures IsRecased(TransferEncoding, true)
  {
  }

  lemma SetCookieSpelling()
    ensures IsRecased(SetCookie, true)
  {
  }

  lemma HostKeySpelling()
    ensures IsRecased(HostKey, true)
  {
  }

  lemma ContentTypeCanonical()
    ensures CanonicalKey(ContentType) == ContentType
  {
    assert IsToken(ContentType);
    ContentTypeSpelling();
    RecasedFixed(ContentType, true);
  }

  lemma TransferEncodingCanonical()
    ensures CanonicalKey(TransferEncoding) == TransferEncoding
  {
    assert IsToken(TransferEncoding);
    TransferEncodingSpelling();
    RecasedFixed(TransferEncoding, true);
  }

  lemma SetCookieCanonical()
    ensures CanonicalKey(SetCookie) == SetCookie
  {
    assert IsToken(SetCookie);
    SetCookieSpelling();
    RecasedFixed(SetCookie, true);
  }

  lemma HostCanonical()
    ensures CanonicalKey(HostKey) == HostKey
  {
    assert IsToken(HostKey);
    HostKeySpelling();
    RecasedFixed(HostKey, true);
  }

  /** `Header.Get`: the first value under the canonical key, or "" when there is none. */
  function Get(h: Header, k: string): string {
    var ck := CanonicalKey(k);
    if ck in h && |h[ck]| > 0 then h[ck][0] else ""
  }

  /** `Header.Set`: the canonical key now holds exactly `v`. */
  function Set(h: Header, k: string, v: string): Header {
    h[CanonicalKey(k) := [v]]
  }

  /** `Header.Add`: `v` is appended under the canonical key. */
  function Add(h: Header, k: string, v: string): Header {
    var ck := CanonicalKey(k);
    h[ck := (if ck in h then h[ck] else []) + [v]]
  }

  /** `Header.Del`: the canonical key is removed. */
  function Del(h: Header, k: string): Header {
    h - {CanonicalKey(k)}
  }

  /** Only the entry under the canonical key `ck` differs between `a` and `b`. */
  ghost predicate OthersUnchanged(a: Header, b: Header, ck: string) {
    forall k' :: k' != ck ==> (k' in a <==> k' in b) && (k' in a && k' in b ==> a[k'] == b[k'])
  }

  /** `Get` looks a name up in any spelling: the canonical spelling finds the same value. */
  lemma GetIgnoresCase(h: Header, k: string)
    ensures Get(h, k) == Get(h, CanonicalKey(k))
  {
    CanonicalKeyIdempotent(k);
  }

  /** After `Set`, `Get` finds exactly the value set, and no other name changes. */
  lemma SetReplaces(h: Header, k: string, v: string)
    ensures Get(Set(h, k, v), k) == v
    ensures Set(h, k, v)[CanonicalKey(k)] == [v]
    ensures OthersUnchanged(h, Set(h, k, v), CanonicalKey(k))
  {
  }

  /**
   * `Add` appends after the values already present; `Get` then finds the first of them, or the
   * added value when there was none; no other name changes.
   */
  lemma AddAppends(h: Header, k: string, v: string)
    ensures CanonicalKey(k) in h ==> Add(h, k, v)[CanonicalKey(k)] == h[CanonicalKey(k)] + [v]
    ensures CanonicalKey(k) !in h ==> Add(h, k, v)[CanonicalKey(k)] == [v]
    ensures Get(Add(h, k, v), k) == (if CanonicalKey(k) in h && |h[CanonicalKey(k)]| > 0 then Get(h, k) else v)
    ensures OthersUnchanged(h, Add(h, k, v), CanonicalKey(k))
  {
  }

  /** After `Del`, the name is gone and `Get` finds nothing; no other name changes. */
  lemma DelRemoves(h: Header, k: string)
    ensures CanonicalKey(k) !in Del(h, k) && Get(Del(h, k), k) == ""
    ensures OthersUnchanged(h, Del(h, k), CanonicalKey(k))
  {
  }

  /** `order` lists every key of `keys` exactly once: one possible map iteration order. */
  predicate Enumerates(order: seq<string>, keys: set<string>) {
    && (forall i, j :: 0 <= i < j < |order| ==> order[i] != order[j])
    && (forall i :: 0 <= i < |order| ==> order[i] in keys)
    && (forall k :: k in keys ==> k in order)
  }

  /** Visiting one more key extends an enumeration of the keys visited so far. */
  lemma EnumeratesSnoc(order: seq<string>, done: set<string>, k: string)
    requires Enumerates(order, done) && k !in done
    ensures Enumerates(order + [k], done + {k})
  {
    assert forall i :: 0 <= i < |order| ==> (order + [k])[i] == order[i];
  }

  /**
   * The header map built by `headers.Add(k, v)` for each entry of `singles`, visited in `order`
   * (Go leaves the map iteration order unspecified).
   */
  function Merge(singles: map<string, string>, order: seq<string>): Header
    decreases |order|
  {
    if |order| == 0 then map[]
    else
      var k := order[|order| - 1];
      var h := Merge(singles, order[..|order| - 1]);
      if k in singles then Add(h, k, singles[k]) else h
  }

  lemma MergeSnoc(singles: map<string, string>, order: seq<string>, k: string)
    requires k in singles
    ensures Merge(singles, order + [k]) == Add(Merge(singles, order), k, singles[k])
  {
    assert (order + [k])[..|order|] == order;
  }

  /** The values of the raw keys in `order` that canonicalise to `ck`, in that order. */
  function ValuesFor(singles: map<string, string>, order: seq<string>, ck: string): seq<string>
    decreases |order|
  {
    if |order| == 0 then []
    else
      var k := order[|order| - 1];
      ValuesFor(singles, order[..|order| - 1], ck) +
        (if k in singles && CanonicalKey(k) == ck then [singles[k]] else [])
  }

  /**
   * Each canonical key of the merged header holds exactly the values of the raw keys that
   * canonicalise to it, in visiting order; a key with no such value is absent.
   */
  lemma {:induction false} MergeValues(singles: map<string, string>, order: seq<string>, ck: string)
    ensures ck in Merge(singles, order) <==> |ValuesFor(singles, order, ck)| > 0
    ensures ck in Merge(singles, order) ==> Merge(singles, order)[ck] == ValuesFor(singles, order, ck)
    decreases |order|
  {
    if |order| > 0 {
      MergeValues(singles, order[..|order| - 1], ck);
    }
  }

  lemma {:induction false} ValuesForMember(singles: map<string, string>, order: seq<string>, i: int)
    requires 0 <= i < |order| && order[i] in singles
    ensures singles[order[i]] in ValuesFor(singles, order, CanonicalKey(order[i]))
    decreases |order|
  {
    if i < |order| - 1 {
      ValuesForMember(singles, order[..|order| - 1], i);
    }
  }

  lemma {:induction false} ValuesForOrigin(singles: map<string, string>, order: seq<string>, ck: string, x: string)
    requires x in ValuesFor(singles, order, ck)
    ensures exists i :: 0 <= i < |order| && order[i] in singles && CanonicalKey(order[i]) == ck && singles[order[i]] == x
    decreases |order|
  {
    var pre := order[..|order| - 1];
    if x in ValuesFor(singles, pre, ck) {
      ValuesForOrigin(singles, pre, ck, x);
      var i :| 0 <= i < |pre| && pre[i] in singles && CanonicalKey(pre[i]) == ck && singles[pre[i]] == x;
      assert order[i] == pre[i];
    } else {
      assert order[|order| - 1] in singles && CanonicalKey(order[|order| - 1]) == ck;
    }
  }

  /**
   * Whatever the iteration order, merging keeps every value: a raw key's value is found under its
   * canonical key, and every merged value comes from a raw key with that canonical form.
   */
  lemma MergeKeepsValues(singles: map<string, string>, order: seq<string>)
    requires Enumerates(order, singles.Keys)
    ensures forall k :: k in singles ==>
      CanonicalKey(k) in Merge(singles, order) && singles[k] in Merge(singles, order)[CanonicalKey(k)]
    ensures forall ck, x :: ck in Merge(singles, order) && x in Merge(singles, order)[ck] ==>
      exists k :: k in singles && CanonicalKey(k) == ck && singles[k] == x
  {
    var h := Merge(singles, order);
    forall k | k in singles ensures CanonicalKey(k) in h && singles[k] in h[CanonicalKey(k)] {
      var i :| 0 <= i < |order| && order[i] == k;
      ValuesForMember(singles, order, i);
      MergeValues(singles, order, CanonicalKey(k));
    }
    forall ck, x | ck in h && x in h[ck] ensures exists k :: k in singles && CanonicalKey(k) == ck && singles[k] == x {
      MergeValues(singles, order, ck);
      ValuesForOrigin(singles, order, ck, x);
    }
  }

  lemma {:induction false} ValuesForSingle(singles: map<string, string>, order: seq<string>, k: string)
    requires forall i, j :: 0 <= i < j < |order| ==> order[i] != order[j]
    requires k in singles && k in order
    requires forall k' :: k' in singles && CanonicalKey(k') == CanonicalKey(k) ==> k' == k
    ensures ValuesFor(singles, order, CanonicalKey(k)) == [singles[k]]
    decreases |order|
  {
    var pre := order[..|order| - 1];
    var last := order[|order| - 1];
    if last == k {
      assert k !in pre;
      ValuesForAbsent(singles, pre, k);
    } else {
      assert k in pre by {
        var i :| 0 <= i < |order| && order[i] == k;
        assert pre[i] == k;
      }
      ValuesForSingle(singles, pre, k);
    }
  }

  lemma {:induction false} ValuesForAbsent(singles: map<string, string>, order: seq<string>, k: string)
    requires k !in order
    requires forall k' :: k' in singles && CanonicalKey(k') == CanonicalKey(k) ==> k' == k
    ensures ValuesFor(singles, order, CanonicalKey(k)) == []
    decreases |order|
  {
    if |order| > 0 {
      assert order[|order| - 1] != k;
      ValuesForAbsent(singles, order[..|order| - 1], k);
    }
  }

  /**
   * When no two raw keys canonicalise alike, the iteration order does not matter: every raw key
   * lands under its canonical key with its one value.
   */
  lemma MergeWithoutCollisions(singles: map<string, string>, order: seq<string>)
    requires Enumerates(order, singles.Keys)
    requires forall a, b :: a in singles && b in singles && CanonicalKey(a) == CanonicalKey(b) ==> a == b
    ensures forall k :: k in singles ==>
      CanonicalKey(k) in Merge(singles, order) && Merge(singles, order)[CanonicalKey(k)] == [singles[k]]
  {
    forall k | k in singles ensures CanonicalKey(k) in Merge(singles, order) &&
      Merge(singles, order)[CanonicalKey(k)] == [singles[k]]
    {
      ValuesForSingle(singles, order, k);
      MergeValues(singles, order, CanonicalKey(k));
    }
  }
}
