/** The opaque cursor string of a page: a sort value, a separator and the id that breaks ties. */
module Cursors {
  import opened Types

  const CURSOR_TIEBREAKER_SEP: string := "||"

  datatype Decoded = Decoded(sortValue: string, id: Option<string>)

  function EncodeCursor(sortValue: string, id: Option<string>): string {
    if id.None? then sortValue else sortValue + CURSOR_TIEBREAKER_SEP + id.value
  }

  predicate SepAt(s: string, i: int) {
    0 <= i && i + 2 <= |s| && s[i] == '|' && s[i + 1] == '|'
  }

  /** lastIndexOf the separator */
  function LastSep(s: string): (r: Option<nat>)
    ensures r.Some? ==> SepAt(s, r.value) && forall i | i > r.value :: !SepAt(s, i)
    ensures r.None? ==> forall i :: !SepAt(s, i)
  {
    if |s| < 2 then None
    else if SepAt(s, |s| - 2) then Some(|s| - 2)
    else
      var r := LastSep(s[..|s| - 1]);
      assert forall i :: SepAt(s, i) ==> SepAt(s[..|s| - 1], i);
      r
  }

  function DecodeCursor(cursor: string): Decoded {
    match LastSep(cursor)
    case None => Decoded(cursor, None)
    case Some(i) => Decoded(cursor[..i], Some(cursor[i + |CURSOR_TIEBREAKER_SEP|..]))
  }

  /** No bar at the front and no two together: true of every bigserial, and of every string without a bar. */
  ghost predicate Unambiguous(id: string) {
    !(|id| > 0 && id[0] == '|') && forall i :: !SepAt(id, i)
  }

  /** Decoding undoes encoding for every sort value, bars included, exactly when the id is unambiguous. */
  lemma CursorRoundTrip(sortValue: string, id: string)
    ensures DecodeCursor(EncodeCursor(sortValue, Some(id))) == Decoded(sortValue, Some(id)) <==> Unambiguous(id)
  {
    var n, c := |sortValue|, EncodeCursor(sortValue, Some(id));
    assert c[n + 2..] == id && c[..n] == sortValue;
    assert SepAt(c, n);
    assert forall i :: SepAt(id, i) ==> SepAt(c, n + 2 + i);
    assert |id| > 0 && id[0] == '|' ==> SepAt(c, n + 1);
    var at := LastSep(c).value;
    if at > n + 1 {
      assert SepAt(id, at - n - 2);
      assert |c[..at]| != n;
    } else if at == n + 1 {
      assert c[n + 2] == id[0];
      assert |c[..at]| != n;
    }
  }

  /** A cursor without an id comes back as it was exactly when the value holds no separator. */
  lemma PlainRoundTrip(sortValue: string)
    ensures DecodeCursor(EncodeCursor(sortValue, None)) == Decoded(sortValue, None)
            <==> forall i :: !SepAt(sortValue, i)
  {
    if LastSep(sortValue).Some? { assert SepAt(sortValue, LastSep(sortValue).value); }
  }

  lemma IdsWithoutBars(id: string)
    requires '|' !in id
    ensures Unambiguous(id)
  {
    assert forall i | 0 <= i < |id| :: id[i] in id;
  }

  /* ---- ids and integers in decimals ---- */

  function Digit(d: nat): char
    requires d < 10
  {
    ('0' as int + d) as char
  }

  function DigitValue(c: char): nat {
    if '0' <= c <= '9' then c as int - '0' as int else 0
  }

  function PrintNat(n: nat): string {
    if n < 10 then [Digit(n)] else PrintNat(n / 10) + [Digit(n % 10)]
  }

  function ReadNat(s: string): nat {
    if s == "" then 0 else ReadNat(s[..|s| - 1]) * 10 + DigitValue(s[|s| - 1])
  }

  predicate AllDigits(s: string) {
    s != "" && forall c | c in s :: '0' <= c <= '9'
  }

  lemma {:induction false} NatRoundTrip(n: nat)
    ensures ReadNat(PrintNat(n)) == n && AllDigits(PrintNat(n))
  {
    if n >= 10 {
      NatRoundTrip(n / 10);
      assert PrintNat(n)[..|PrintNat(n)| - 1] == PrintNat(n / 10);
    }
  }

  function PrintInt(v: int): string {
    if v < 0 then "-" + PrintNat(-v) else PrintNat(v)
  }

  function ReadInt(s: string): int {
    if s != "" && s[0] == '-' then 0 - ReadNat(s[1..]) else ReadNat(s)
  }

  lemma IntRoundTrip(v: int)
    ensures ReadInt(PrintInt(v)) == v
  {
    NatRoundTrip(if v < 0 then -v else v);
    if v >= 0 {
      assert PrintNat(v)[0] in PrintNat(v);
    } else {
      assert PrintInt(v)[1..] == PrintNat(-v);
    }
  }

  /** A cursor with a bigserial id comes back whole whatever its sort value is. */
  lemma IdCursorRoundTrip(sortValue: string, id: nat)
    ensures DecodeCursor(EncodeCursor(sortValue, Some(PrintNat(id)))) == Decoded(sortValue, Some(PrintNat(id)))
    ensures ReadNat(PrintNat(id)) == id && EncodeCursor(sortValue, Some(PrintNat(id))) != ""
  {
    NatRoundTrip(id);
    IdsWithoutBars(PrintNat(id));
    CursorRoundTrip(sortValue, PrintNat(id));
  }
}
