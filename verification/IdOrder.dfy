/** Generated ids in ascending order, as ORDER BY id returns them, and what LIMIT leaves of a list. */
module IdOrder {

  lemma {:induction false} LeastExists(ids: set<nat>) returns (m: nat)
    requires ids != {}
    ensures m in ids && forall x | x in ids :: m <= x
  {
    var some :| some in ids;
    m := some;
    if ids != {some} {
      var rest := LeastExists(ids - {some});
      m := if rest < some then rest else some;
      assert forall x | x in ids :: x == some || x in ids - {some};
    }
  }

  function Least(ids: set<nat>): (m: nat)
    requires ids != {}
    ensures m in ids && forall x | x in ids :: m <= x
  {
    assert exists m :: m in ids && forall x | x in ids :: m <= x by {
      var m := LeastExists(ids);
    }
    var m :| m in ids && forall x | x in ids :: m <= x;
    m
  }

  function Ascending(ids: set<nat>): seq<nat> {
    if ids == {} then [] else [Least(ids)] + Ascending(ids - {Least(ids)})
  }

  predicate Increasing(s: seq<nat>) {
    forall i, j | 0 <= i < j < |s| :: s[i] < s[j]
  }

  lemma {:induction false} AscendingIds(ids: set<nat>)
    ensures forall x :: x in Ascending(ids) <==> x in ids
    ensures Increasing(Ascending(ids))
  {
    if ids != {} {
      var first := Least(ids);
      var rest := Ascending(ids - {first});
      AscendingIds(ids - {first});
      assert forall j | 0 <= j < |rest| :: rest[j] in rest;
      forall x | x in ids ensures x in [first] + rest {
        if x != first { assert x in ids - {first}; }
      }
    }
  }

  /** There is one way to list a set in ascending order. */
  lemma {:induction false} IncreasingUnique(a: seq<nat>, b: seq<nat>)
    requires Increasing(a) && Increasing(b)
    requires forall x :: x in a <==> x in b
    ensures a == b
  {
    if b != [] { assert b[|b| - 1] in a; }
    if a != [] {
      assert a[|a| - 1] in b;
      var n, m := |a| - 1, |b| - 1;
      assert a[n] == b[m];
      forall x ensures x in a[..n] <==> x in b[..m] {
        if x in a[..n] { assert x in a && x in b && x != a[n]; }
        if x in b[..m] { assert x in b && x in a && x != b[m]; }
      }
      IncreasingUnique(a[..n], b[..m]);
      assert a == a[..n] + [a[n]] && b == b[..m] + [b[m]];
    }
  }

  function Take<T>(s: seq<T>, n: nat): seq<T> {
    if n <= |s| then s[..n] else s
  }

  /** The rows in `n` full pages, or batches. */
  function RowsIn(n: nat, limit: nat): nat {
    if n == 0 then 0 else RowsIn(n - 1, limit) + limit
  }

  lemma {:induction false} RowsInProduct(n: nat, limit: nat)
    ensures RowsIn(n, limit) == n * limit
  {
    if n > 0 { RowsInProduct(n - 1, limit); }
  }
}
