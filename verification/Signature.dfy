/** The text a payment webhook's signature is computed over: the signed fields, sorted, percent-encoded and joined. */
module Signature {
  import opened Types

  type Byte = n: int | 0 <= n < 256

  /** A value as the bytes of its UTF-8 text. */
  type Bytes = seq<Byte>

  type Fields = map<string, Bytes>

  /* ---- percent-encoding, section 2.1 of RFC 3986 ---- */

  /** What encodeURIComponent leaves as it is. */
  predicate Literal(b: Byte) {
    || ('A' as int <= b <= 'Z' as int) || ('a' as int <= b <= 'z' as int) || ('0' as int <= b <= '9' as int)
    || b as char in "-_.!~*'()"
  }

  function HexDigit(n: int): char
    requires 0 <= n < 16
  {
    "0123456789ABCDEF"[n]
  }

  function HexValue(c: char): Option<int>
    ensures HexValue(c).Some? ==> 0 <= HexValue(c).value < 16
  {
    if '0' <= c <= '9' then Some(c as int - '0' as int)
    else if 'A' <= c <= 'F' then Some(c as int - 'A' as int + 10)
    else None
  }

  function EncodeByte(b: Byte): (s: string)
    ensures |s| > 0 && '&' !in s
  {
    if Literal(b) then [b as char] else ['%', HexDigit(b / 16), HexDigit(b % 16)]
  }

  function EncodeURIComponent(v: Bytes): (s: string)
    ensures '&' !in s
  {
    if v == [] then "" else EncodeByte(v[0]) + EncodeURIComponent(v[1..])
  }

  function DecodeURIComponent(s: string): Option<Bytes> {
    if s == "" then Some([])
    else if s[0] == '%' then
      if |s| < 3 || HexValue(s[1]).None? || HexValue(s[2]).None? then None
      else
        match DecodeURIComponent(s[3..])
        case None => None
        case Some(rest) => Some([HexValue(s[1]).value * 16 + HexValue(s[2]).value] + rest)
    else if s[0] as int >= 256 then None
    else
      match DecodeURIComponent(s[1..])
      case None => None
      case Some(rest) => Some([s[0] as int] + rest)
  }

  lemma HexRoundTrip(n: int)
    requires 0 <= n < 16
    ensures HexValue(HexDigit(n)) == Some(n)
  {
  }

  /** Decoding takes off the first byte, whatever follows it. */
  lemma DecodeFirst(b: Byte, rest: string, v: Bytes)
    requires DecodeURIComponent(rest) == Some(v)
    ensures DecodeURIComponent(EncodeByte(b) + rest) == Some([b] + v)
  {
    var s, head := EncodeByte(b) + rest, EncodeByte(b);
    assert s[|head|..] == rest;
    if !Literal(b) {
      HexRoundTrip(b / 16);
      HexRoundTrip(b % 16);
      assert s[0] == '%' && s[1] == head[1] && s[2] == head[2];
    }
  }

  lemma {:induction false} EncodingRoundTrip(v: Bytes)
    ensures DecodeURIComponent(EncodeURIComponent(v)) == Some(v)
  {
    if v != [] {
      EncodingRoundTrip(v[1..]);
      DecodeFirst(v[0], EncodeURIComponent(v[1..]), v[1..]);
      assert [v[0]] + v[1..] == v;
    }
  }

  /** The letters, digits and marks that stand for themselves. */
  predicate Unreserved(c: char) {
    'A' <= c <= 'Z' || 'a' <= c <= 'z' || '0' <= c <= '9' || c in {'-', '_', '.', '!', '~', '*', '\'', '(', ')'}
  }

  /** Any other byte is a percent sign and its two hexadecimal digits, in upper case. */
  lemma EncodedByte(b: Byte)
    ensures Unreserved(b as char) ==> EncodeByte(b) == [b as char]
    ensures !Unreserved(b as char) ==>
              EncodeByte(b) == ['%', "0123456789ABCDEF"[b / 16], "0123456789ABCDEF"[b % 16]]
    ensures EncodeURIComponent([b]) == EncodeByte(b)
  {
    assert EncodeByte(b) + "" == EncodeByte(b);
  }

  lemma EncodedHead(b: Byte, rest: Bytes)
    ensures EncodeURIComponent([b] + rest) == EncodeByte(b) + EncodeURIComponent(rest)
  {
    assert ([b] + rest)[1..] == rest;
  }

  lemma EncodedOn(b: Byte, x: Bytes, y: Bytes, front: string, back: string)
    requires EncodeURIComponent(x) == front && EncodeURIComponent(x + y) == front + back
    ensures EncodeURIComponent([b] + x) == EncodeByte(b) + front
    ensures EncodeURIComponent([b] + x + y) == EncodeByte(b) + front + back
  {
    EncodedHead(b, x);
    EncodedTwo(b, x, y);
    Regroup(EncodeByte(b), front, back);
  }

  lemma EncodedTwo(b: Byte, x: Bytes, y: Bytes)
    ensures EncodeURIComponent([b] + x + y) == EncodeByte(b) + EncodeURIComponent(x + y)
  {
    assert [b] + x + y == [b] + (x + y);
    EncodedHead(b, x + y);
  }

  /** Bytes are encoded one by one, in their order. */
  lemma {:induction false} EncodedInOrder(x: Bytes, y: Bytes)
    ensures EncodeURIComponent(x + y) == EncodeURIComponent(x) + EncodeURIComponent(y)
  {
    if x == [] {
      assert x + y == y;
    } else {
      var b, tail := x[0], x[1..];
      EncodedInOrder(tail, y);
      EncodedOn(b, tail, y, EncodeURIComponent(tail), EncodeURIComponent(y));
      assert x == [b] + tail;
    }
  }

  /* ---- sorting the field names ---- */

  predicate AtMost(a: string, b: string) {
    a == "" || (b != "" && (a[0] < b[0] || (a[0] == b[0] && AtMost(a[1..], b[1..]))))
  }

  lemma {:induction false} AtMostTotal(a: string, b: string)
    ensures AtMost(a, b) || AtMost(b, a)
    ensures AtMost(a, b) && AtMost(b, a) ==> a == b
  {
    if a != "" && b != "" {
      AtMostTotal(a[1..], b[1..]);
      assert a == [a[0]] + a[1..] && b == [b[0]] + b[1..];
    }
  }

  lemma {:induction false} AtMostTransitive(a: string, b: string, c: string)
    requires AtMost(a, b) && AtMost(b, c)
    ensures AtMost(a, c)
  {
    if a != "" && b != "" && c != "" && a[0] == b[0] == c[0] {
      AtMostTransitive(a[1..], b[1..], c[1..]);
    }
  }

  /** The first character at which two names differ decides, and a front comes before what it is the front of. */
  lemma {:induction false} AtMostLexical(a: string, b: string)
    ensures AtMost(a, b) <==>
              a <= b || exists i: nat :: i < |a| && i < |b| && a[..i] == b[..i] && a[i] < b[i]
  {
    if a != "" && b != "" {
      var x, y := a[1..], b[1..];
      AtMostLexical(x, y);
      assert a == [a[0]] + x && b == [b[0]] + y;
      if a[0] < b[0] { assert a[..0] == b[..0]; }
      if a[0] == b[0] {
        if i: nat :| i < |x| && i < |y| && x[..i] == y[..i] && x[i] < y[i] {
          assert a[..i + 1] == [a[0]] + x[..i] && b[..i + 1] == [b[0]] + y[..i];
        }
        if i: nat :| i < |a| && i < |b| && a[..i] == b[..i] && a[i] < b[i] {
          assert x[..i - 1] == a[..i][1..] && y[..i - 1] == b[..i][1..];
        }
      } else {
        forall i: nat | 0 < i < |a| && i < |b| ensures a[..i] != b[..i] {
          assert a[..i][0] == a[0] && b[..i][0] == b[0];
        }
      }
    }
  }

  predicate SortedKeys(s: seq<string>) {
    forall i, j | 0 <= i < j < |s| :: AtMost(s[i], s[j])
  }

  function InsertKey(s: seq<string>, k: string): seq<string> {
    if s == [] then [k]
    else if AtMost(k, s[0]) then [k] + s
    else [s[0]] + InsertKey(s[1..], k)
  }

  function SortKeys(keys: seq<string>): seq<string> {
    if keys == [] then [] else InsertKey(SortKeys(keys[1..]), keys[0])
  }

  lemma HeadStaysLeast(s: seq<string>, k: string, rest: seq<string>)
    requires SortedKeys(s) && s != [] && AtMost(s[0], k) && multiset(rest) == multiset(s[1..]) + multiset{k}
    ensures forall j | 0 <= j < |rest| :: AtMost(s[0], rest[j])
  {
    forall j | 0 <= j < |rest| ensures AtMost(s[0], rest[j]) {
      assert rest[j] in multiset(rest);
      if rest[j] != k { assert rest[j] in s[1..]; }
    }
  }

  lemma {:induction false} InsertedKey(s: seq<string>, k: string)
    requires SortedKeys(s)
    ensures SortedKeys(InsertKey(s, k)) && multiset(InsertKey(s, k)) == multiset(s) + multiset{k}
  {
    if s != [] {
      assert s == [s[0]] + s[1..];
      if AtMost(k, s[0]) {
        KeyInFront(s, k);
      } else {
        InsertedKey(s[1..], k);
        AtMostTotal(k, s[0]);
        HeadStaysLeast(s, k, InsertKey(s[1..], k));
        HeadInFront(s[0], InsertKey(s[1..], k));
      }
    }
  }

  lemma KeyInFront(s: seq<string>, k: string)
    requires SortedKeys(s) && s != [] && AtMost(k, s[0])
    ensures SortedKeys([k] + s)
  {
    forall j | 0 <= j < |s| ensures AtMost(k, s[j]) {
      if j > 0 { AtMostTransitive(k, s[0], s[j]); }
    }
    HeadInFront(k, s);
  }

  lemma HeadInFront(head: string, s: seq<string>)
    requires SortedKeys(s) && forall j | 0 <= j < |s| :: AtMost(head, s[j])
    ensures SortedKeys([head] + s)
  {
  }

  lemma {:induction false} SortedResult(keys: seq<string>)
    ensures SortedKeys(SortKeys(keys)) && multiset(SortKeys(keys)) == multiset(keys)
  {
    if keys != [] {
      SortedResult(keys[1..]);
      InsertedKey(SortKeys(keys[1..]), keys[0]);
      assert keys == [keys[0]] + keys[1..];
    }
  }

  lemma FirstIsLeast(s: seq<string>, k: string)
    requires SortedKeys(s) && k in multiset(s)
    ensures AtMost(s[0], k)
  {
    var i :| 0 <= i < |s| && s[i] == k;
    if i == 0 { AtMostTotal(k, k); }
  }

  lemma MultisetTail(s: seq<string>)
    requires s != []
    ensures multiset(s[1..]) == multiset(s) - multiset{s[0]}
  {
    assert s == [s[0]] + s[1..];
  }

  /** There is one sorted arrangement of a multiset of names. */
  lemma {:induction false} SortedUnique(a: seq<string>, b: seq<string>)
    requires SortedKeys(a) && SortedKeys(b) && multiset(a) == multiset(b)
    ensures a == b
  {
    assert |multiset(a)| == |a| && |multiset(b)| == |b|;
    if a != [] {
      FirstIsLeast(b, a[0]);
      FirstIsLeast(a, b[0]);
      AtMostTotal(a[0], b[0]);
      MultisetTail(a);
      MultisetTail(b);
      SortedUnique(a[1..], b[1..]);
      assert a == [a[0]] + a[1..] && b == [b[0]] + b[1..];
    }
  }

  /* ---- the payload ---- */

  /** A missing or null field is signed as the empty text. */
  function Stringified(data: Fields, k: string): Bytes {
    if k in data then data[k] else []
  }

  function Part(data: Fields, k: string): string {
    k + "=" + EncodeURIComponent(Stringified(data, k))
  }

  function JoinParts(data: Fields, keys: seq<string>): string {
    if |keys| == 0 then ""
    else if |keys| == 1 then Part(data, keys[0])
    else Part(data, keys[0]) + ("&" + JoinParts(data, keys[1..]))
  }

  function BuildSignaturePayload(data: Fields, signatureKeys: seq<string>): string {
    JoinParts(data, SortKeys(signatureKeys))
  }

  /** One field is its name and its encoded value, or nothing for a field that is missing; fields are joined by `&`. */
  lemma {:induction false} PayloadText(data: Fields, xs: seq<string>, ys: seq<string>)
    ensures |xs| == 1 ==>
              JoinParts(data, xs) == xs[0] + "=" + if xs[0] in data then EncodeURIComponent(data[xs[0]]) else ""
    ensures xs != [] && ys != [] ==> JoinParts(data, xs + ys) == JoinParts(data, xs) + ("&" + JoinParts(data, ys))
  {
    if xs != [] && ys != [] {
      assert (xs + ys)[1..] == xs[1..] + ys;
      if |xs| == 1 {
        assert xs[1..] + ys == ys;
      } else {
        PayloadText(data, xs[1..], ys);
        JoinRegroup(Part(data, xs[0]), JoinParts(data, xs[1..]), JoinParts(data, ys));
      }
    }
  }

  lemma JoinRegroup(a: string, b: string, c: string)
    ensures a + ("&" + (b + ("&" + c))) == (a + ("&" + b)) + ("&" + c)
  {
  }

  /** The order in which the provider lists the signed fields does not matter. */
  lemma PayloadCanonical(data: Fields, keys: seq<string>, permuted: seq<string>)
    requires multiset(keys) == multiset(permuted)
    ensures BuildSignaturePayload(data, keys) == BuildSignaturePayload(data, permuted)
  {
    SortedResult(keys);
    SortedResult(permuted);
    SortedUnique(SortKeys(keys), SortKeys(permuted));
  }

  /** The payload joins the fields in the one sorted order of their names. */
  lemma PayloadIsSorted(data: Fields, keys: seq<string>, sorted: seq<string>)
    requires SortedKeys(sorted) && multiset(sorted) == multiset(keys)
    ensures BuildSignaturePayload(data, keys) == JoinParts(data, sorted)
  {
    SortedResult(keys);
    SortedUnique(SortKeys(keys), sorted);
  }

  function FirstAmp(s: string): (n: nat)
    ensures n <= |s| && '&' !in s[..n] && (n < |s| ==> s[n] == '&')
  {
    if s == "" || s[0] == '&' then 0
    else
      assert s[..1 + FirstAmp(s[1..])] == [s[0]] + s[1..][..FirstAmp(s[1..])];
      1 + FirstAmp(s[1..])
  }

  /** Reads the values back, given the sorted names. */
  function ParseValues(keys: seq<string>, payload: string): seq<Option<Bytes>> {
    if keys == [] then []
    else
      var skip := |keys[0]| + 1;
      var value := if skip <= |payload| then payload[skip..] else "";
      var n := FirstAmp(value);
      [DecodeURIComponent(value[..n])] + ParseValues(keys[1..], if n < |value| then value[n + 1..] else "")
  }

  function Values(data: Fields, keys: seq<string>): seq<Option<Bytes>> {
    if keys == [] then [] else [Some(Stringified(data, keys[0]))] + Values(data, keys[1..])
  }

  lemma FirstAmpAt(s: string, n: nat)
    requires n <= |s| && '&' !in s[..n] && (n < |s| ==> s[n] == '&')
    ensures FirstAmp(s) == n
  {
    var m := FirstAmp(s);
    forall i | 0 <= i < n ensures s[i] != '&' { assert s[i] == s[..n][i]; }
    forall i | 0 <= i < m ensures s[i] != '&' { assert s[i] == s[..m][i]; }
  }

  /** What follows the first value: nothing, or the separator and the other parts. */
  function Tail(data: Fields, keys: seq<string>): string
    requires keys != []
  {
    if |keys| == 1 then "" else "&" + JoinParts(data, keys[1..])
  }

  lemma Split(head: string, rest: string)
    ensures (head + rest)[..|head|] == head && (head + rest)[|head|..] == rest
  {
  }

  lemma HeadAndTail(data: Fields, keys: seq<string>)
    requires keys != []
    ensures JoinParts(data, keys) == Part(data, keys[0]) + Tail(data, keys)
  {
  }

  lemma Regroup(a: string, b: string, c: string)
    ensures (a + b) + c == a + (b + c)
  {
  }

  lemma FirstValue(data: Fields, keys: seq<string>)
    requires keys != []
    ensures |keys[0]| + 1 <= |JoinParts(data, keys)|
    ensures JoinParts(data, keys)[|keys[0]| + 1..] == EncodeURIComponent(Stringified(data, keys[0])) + Tail(data, keys)
  {
    var head, code, tail := keys[0] + "=", EncodeURIComponent(Stringified(data, keys[0])), Tail(data, keys);
    HeadAndTail(data, keys);
    Regroup(head, code, tail);
    Split(head, code + tail);
  }

  /** The first separator after a value is the one that ends it. */
  lemma ValueEnds(code: string, tail: string)
    requires '&' !in code && (tail == "" || tail[0] == '&')
    ensures FirstAmp(code + tail) == |code| && (code + tail)[..|code|] == code
    ensures tail != "" ==> (code + tail)[|code| + 1..] == tail[1..]
  {
    Split(code, tail);
    FirstAmpAt(code + tail, |code|);
  }

  /** Parsing takes off the first value, whatever the fields are. */
  lemma ParseFirst(keys: seq<string>, payload: string, code: string, tail: string)
    requires keys != [] && '&' !in code && (tail == "" || tail[0] == '&')
    requires |keys[0]| + 1 <= |payload| && payload[|keys[0]| + 1..] == code + tail
    ensures ParseValues(keys, payload)
            == [DecodeURIComponent(code)] + ParseValues(keys[1..], if tail == "" then "" else tail[1..])
  {
    ValueEnds(code, tail);
  }

  /** Every value can be read back from the payload: the separator cannot come from inside one. */
  lemma {:induction false} ValuesReadBack(data: Fields, keys: seq<string>)
    ensures ParseValues(keys, JoinParts(data, keys)) == Values(data, keys)
  {
    if keys != [] {
      var code := EncodeURIComponent(Stringified(data, keys[0]));
      FirstValue(data, keys);
      TailParts(data, keys);
      ParseFirst(keys, JoinParts(data, keys), code, Tail(data, keys));
      EncodingRoundTrip(Stringified(data, keys[0]));
      ValuesReadBack(data, keys[1..]);
    }
  }

  lemma TailParts(data: Fields, keys: seq<string>)
    requires keys != []
    ensures if |keys| == 1 then Tail(data, keys) == ""
            else Tail(data, keys) != "" && Tail(data, keys)[1..] == JoinParts(data, keys[1..])
  {
    if |keys| > 1 { Split("&", JoinParts(data, keys[1..])); }
  }

  /** For one list of names, two payloads are the same text only when every signed value is the same. */
  lemma PayloadUnambiguous(data: Fields, other: Fields, keys: seq<string>, k: string)
    requires BuildSignaturePayload(data, keys) == BuildSignaturePayload(other, keys) && k in keys
    ensures Stringified(data, k) == Stringified(other, k)
  {
    var sorted := SortKeys(keys);
    SortedResult(keys);
    ValuesReadBack(data, sorted);
    ValuesReadBack(other, sorted);
    assert k in multiset(sorted);
    ValueAt(data, sorted);
    ValueAt(other, sorted);
    var i :| 0 <= i < |sorted| && sorted[i] == k;
    assert Values(data, sorted)[i] == Values(other, sorted)[i];
  }

  lemma {:induction false} ValueAt(data: Fields, keys: seq<string>)
    ensures |Values(data, keys)| == |keys|
    ensures forall i | 0 <= i < |keys| :: Values(data, keys)[i] == Some(Stringified(data, keys[i]))
  {
    if keys != [] {
      ValueAt(data, keys[1..]);
    }
  }
}
