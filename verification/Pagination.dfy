/**
 Keyset pagination: the page query, the result built from it, and the walk along nextCursor. The cursor
 carries the sort value as the service prints it, which for a timestamp is cut to the millisecond.
 */
module Pagination {
  import opened Types
  import opened IdOrder

  /** A row by its sort column, in the column's own precision, and its unique id. */
  datatype Row = Row(value: int, id: nat)

  /** A decoded cursor. */
  datatype Cursor = Cursor(value: int, id: nat)

  datatype Direction = Asc | Desc

  predicate Precedes(a: Row, b: Row, dir: Direction) {
    if dir.Asc? then a.value < b.value || (a.value == b.value && a.id < b.id)
    else a.value > b.value || (a.value == b.value && a.id > b.id)
  }

  /** WHERE (column, id) op (value, id) */
  predicate After(c: Cursor, r: Row, dir: Direction) {
    if dir.Asc? then r.value > c.value || (r.value == c.value && r.id > c.id)
    else r.value < c.value || (r.value == c.value && r.id < c.id)
  }

  predicate InOrder(s: seq<Row>, dir: Direction) {
    forall i, j | 0 <= i < j < |s| :: Precedes(s[i], s[j], dir)
  }

  /* ---- ORDER BY column, id ---- */

  lemma {:induction false} FirstExists(rows: set<Row>, dir: Direction) returns (f: Row)
    requires rows != {}
    ensures f in rows && forall r | r in rows :: r == f || Precedes(f, r, dir)
  {
    var some :| some in rows;
    f := some;
    if rows != {some} {
      var rest := FirstExists(rows - {some}, dir);
      f := if Precedes(rest, some, dir) then rest else some;
      assert forall r | r in rows :: r == some || r in rows - {some};
    }
  }

  function FirstRow(rows: set<Row>, dir: Direction): (f: Row)
    requires rows != {}
    ensures f in rows && forall r | r in rows :: r == f || Precedes(f, r, dir)
  {
    assert exists f :: f in rows && forall r | r in rows :: r == f || Precedes(f, r, dir) by {
      var f := FirstExists(rows, dir);
    }
    var f :| f in rows && forall r | r in rows :: r == f || Precedes(f, r, dir);
    f
  }

  function SortRows(rows: set<Row>, dir: Direction): seq<Row> {
    if rows == {} then []
    else
      var f := FirstRow(rows, dir);
      [f] + SortRows(rows - {f}, dir)
  }

  lemma {:induction false} SortedRows(rows: set<Row>, dir: Direction)
    ensures forall r :: r in SortRows(rows, dir) <==> r in rows
    ensures InOrder(SortRows(rows, dir), dir)
  {
    if rows != {} {
      var f := FirstRow(rows, dir);
      var rest := SortRows(rows - {f}, dir);
      SortedRows(rows - {f}, dir);
      assert forall j | 0 <= j < |rest| :: rest[j] in rest;
      forall r | r in rows ensures r in [f] + rest {
        if r != f { assert r in rows - {f}; }
      }
    }
  }

  /** Every row once, by value and then by id, both ways up or both ways down. */
  lemma ListOrder(rows: set<Row>, dir: Direction, i: nat, j: nat)
    requires i < j < |SortRows(rows, dir)|
    ensures var a, b := SortRows(rows, dir)[i], SortRows(rows, dir)[j];
            && a in rows && b in rows && a != b
            && (dir == Asc ==> a.value < b.value || (a.value == b.value && a.id < b.id))
            && (dir == Desc ==> a.value > b.value || (a.value == b.value && a.id > b.id))
  {
    SortedRows(rows, dir);
    var all := SortRows(rows, dir);
    assert all[i] in all && all[j] in all && Precedes(all[i], all[j], dir);
  }

  lemma {:induction false} ListUnique(a: seq<Row>, b: seq<Row>, dir: Direction)
    requires InOrder(a, dir) && InOrder(b, dir)
    requires forall r :: r in a <==> r in b
    ensures a == b
  {
    if b != [] { assert b[|b| - 1] in a; }
    if a != [] {
      assert a[|a| - 1] in b;
      var n, m := |a| - 1, |b| - 1;
      assert a[n] == b[m];
      forall r ensures r in a[..n] <==> r in b[..m] {
        if r in a[..n] { assert r in a && r in b && r != a[n]; }
        if r in b[..m] { assert r in b && r in a && r != b[m]; }
      }
      ListUnique(a[..n], b[..m], dir);
      assert a == a[..n] + [a[n]] && b == b[..m] + [b[m]];
    }
  }

  /* ---- one page ---- */

  function Wanted(rows: set<Row>, cursor: Option<Cursor>, dir: Direction): set<Row> {
    set r | r in rows && (cursor.None? || After(cursor.value, r, dir))
  }

  /** The query of a page: one row more than the limit is asked for. */
  function PageQuery(rows: set<Row>, cursor: Option<Cursor>, limit: nat, dir: Direction): seq<Row> {
    Take(SortRows(Wanted(rows, cursor, dir), dir), limit + 1)
  }

  datatype Page = Page(data: seq<Row>, nextCursor: Option<Cursor>, hasMore: bool)

  /** `show` is what the cursor string keeps of a sort value. */
  function BuildPaginationResult(rows: seq<Row>, limit: nat, show: int -> int): Page {
    var hasMore := |rows| > limit;
    var data := if hasMore then rows[..limit] else rows;
    var next := if |data| > 0 && hasMore then Some(Cursor(show(data[|data| - 1].value), data[|data| - 1].id)) else None;
    Page(data, next, hasMore)
  }

  /** How many rows of the list a cursor has behind it: all it skips come before all it lets through. */
  function Behind(all: seq<Row>, c: Cursor, dir: Direction): nat {
    if all == [] || After(c, all[0], dir) then 0 else 1 + Behind(all[1..], c, dir)
  }

  lemma {:induction false} BehindSplits(all: seq<Row>, c: Cursor, dir: Direction)
    requires InOrder(all, dir)
    ensures Behind(all, c, dir) <= |all|
    ensures forall j | 0 <= j < |all| :: After(c, all[j], dir) <==> j >= Behind(all, c, dir)
  {
    if all != [] {
      if After(c, all[0], dir) {
        forall j | 0 < j < |all| ensures After(c, all[j], dir) { assert Precedes(all[0], all[j], dir); }
      } else {
        BehindSplits(all[1..], c, dir);
        forall j | 0 < j < |all| ensures After(c, all[j], dir) <==> j - 1 >= Behind(all[1..], c, dir) {
          assert all[1..][j - 1] == all[j];
        }
      }
    }
  }

  function StartOf(all: seq<Row>, cursor: Option<Cursor>, dir: Direction): nat {
    if cursor.None? then 0 else Behind(all, cursor.value, dir)
  }

  lemma WantedFromStart(all: seq<Row>, rows: set<Row>, cursor: Option<Cursor>, dir: Direction, r: Row)
    requires InOrder(all, dir) && forall x :: x in all <==> x in rows
    requires StartOf(all, cursor, dir) <= |all|
    ensures r in all[StartOf(all, cursor, dir)..] <==> r in Wanted(rows, cursor, dir)
  {
    var start := StartOf(all, cursor, dir);
    if cursor.Some? { BehindSplits(all, cursor.value, dir); }
    if r in Wanted(rows, cursor, dir) {
      var j :| 0 <= j < |all| && all[j] == r;
      assert all[start..][j - start] == r;
    }
    if r in all[start..] {
      var j :| start <= j < |all| && all[j] == r;
      assert r in all;
    }
  }

  /** A page is a stretch of the one sorted list, from where its cursor points. */
  lemma PageIsStretch(rows: set<Row>, cursor: Option<Cursor>, limit: nat, dir: Direction)
    ensures var all := SortRows(rows, dir);
            StartOf(all, cursor, dir) <= |all|
              && PageQuery(rows, cursor, limit, dir) == Take(all[StartOf(all, cursor, dir)..], limit + 1)
  {
    SortedRows(rows, dir);
    StretchIsWanted(SortRows(rows, dir), rows, cursor, dir);
  }

  lemma StretchIsWanted(all: seq<Row>, rows: set<Row>, cursor: Option<Cursor>, dir: Direction)
    requires InOrder(all, dir) && forall x :: x in all <==> x in rows
    ensures StartOf(all, cursor, dir) <= |all|
            && SortRows(Wanted(rows, cursor, dir), dir) == all[StartOf(all, cursor, dir)..]
  {
    if cursor.Some? { BehindSplits(all, cursor.value, dir); }
    var stretch, wanted := all[StartOf(all, cursor, dir)..], Wanted(rows, cursor, dir);
    SortedRows(wanted, dir);
    forall r ensures r in stretch <==> r in wanted { WantedFromStart(all, rows, cursor, dir, r); }
    ListUnique(SortRows(wanted, dir), stretch, dir);
  }

  /* ---- the walk ---- */

  datatype Walk = Walk(visited: seq<Row>, next: Option<Cursor>, finished: bool)

  function AddPage(w: Walk, page: Page): Walk {
    Walk(w.visited + page.data, page.nextCursor, page.nextCursor.None?)
  }

  /** `n` pages, each fetched with the cursor of the one before, until there is none. */
  function WalkPages(rows: set<Row>, limit: nat, dir: Direction, show: int -> int, n: nat): Walk {
    if n == 0 then Walk([], None, false)
    else
      var w := WalkPages(rows, limit, dir, show, n - 1);
      if w.finished then w else AddPage(w, BuildPaginationResult(PageQuery(rows, w.next, limit, dir), limit, show))
  }

  /** The same walk along the sorted list. */
  function WalkList(all: seq<Row>, limit: nat, dir: Direction, show: int -> int, n: nat): (w: Walk)
    requires InOrder(all, dir)
  {
    if n == 0 then Walk([], None, false)
    else
      var w := WalkList(all, limit, dir, show, n - 1);
      if w.finished then w else AddPage(w, BuildPaginationResult(ListPage(all, w.next, limit, dir), limit, show))
  }

  function ListPage(all: seq<Row>, cursor: Option<Cursor>, limit: nat, dir: Direction): seq<Row>
    requires InOrder(all, dir)
  {
    assert StartOf(all, cursor, dir) <= |all| by { if cursor.Some? { BehindSplits(all, cursor.value, dir); } }
    Take(all[StartOf(all, cursor, dir)..], limit + 1)
  }

  lemma PageAgrees(rows: set<Row>, all: seq<Row>, cursor: Option<Cursor>, limit: nat, dir: Direction)
    requires InOrder(all, dir) && all == SortRows(rows, dir)
    ensures PageQuery(rows, cursor, limit, dir) == ListPage(all, cursor, limit, dir)
  {
    PageIsStretch(rows, cursor, limit, dir);
  }

  lemma {:induction false} WalksAgree(rows: set<Row>, all: seq<Row>, limit: nat, dir: Direction, show: int -> int,
      n: nat)
    requires InOrder(all, dir) && all == SortRows(rows, dir)
    ensures WalkPages(rows, limit, dir, show, n) == WalkList(all, limit, dir, show, n)
  {
    if n > 0 {
      WalksAgree(rows, all, limit, dir, show, n - 1);
      PageAgrees(rows, all, WalkList(all, limit, dir, show, n - 1).next, limit, dir);
    }
  }

  function Min(a: nat, b: nat): nat {
    if a < b then a else b
  }

  /**
   The first `k` rows visited, the list finished if that was all of it, and otherwise the cursor of the last
   one in hand.
   */
  predicate At(w: Walk, all: seq<Row>, k: nat, show: int -> int) {
    && k <= |all| && w.visited == all[..k]
    && (w.finished ==> k == |all|)
    && (!w.finished ==> w.next == if k == 0 then None else Some(CursorOf(all, k, show)))
  }

  function CursorOf(all: seq<Row>, k: nat, show: int -> int): Cursor
    requires 0 < k <= |all|
  {
    Cursor(show(all[k - 1].value), all[k - 1].id)
  }

  /** What a page boundary needs: the cursor of the row before it separates that row from the next one. */
  predicate Separates(all: seq<Row>, k: nat, dir: Direction, show: int -> int)
    requires 0 < k < |all|
  {
    !After(CursorOf(all, k, show), all[k - 1], dir) && After(CursorOf(all, k, show), all[k], dir)
  }

  lemma PointsToNext(all: seq<Row>, k: nat, dir: Direction, show: int -> int)
    requires InOrder(all, dir) && 0 < k < |all|
    ensures Behind(all, CursorOf(all, k, show), dir) == k <==> Separates(all, k, dir, show)
  {
    BehindSplits(all, CursorOf(all, k, show), dir);
  }

  lemma PageData(all: seq<Row>, limit: nat, show: int -> int, k: nat)
    requires limit >= 1 && k <= |all|
    ensures BuildPaginationResult(Take(all[k..], limit + 1), limit, show)
            == if k + limit < |all| then Page(all[k..k + limit], Some(CursorOf(all, k + limit, show)), true)
               else Page(all[k..], None, false)
  {
  }

  lemma PageAdded(all: seq<Row>, limit: nat, show: int -> int, w: Walk, k: nat)
    requires limit >= 1 && k <= |all| && w.visited == all[..k]
    ensures var after := AddPage(w, BuildPaginationResult(Take(all[k..], limit + 1), limit, show));
            At(after, all, Min(k + limit, |all|), show) && (after.finished <==> k + limit >= |all|)
  {
    PageData(all, limit, show, k);
    if k + limit < |all| {
      assert all[..k] + all[k..k + limit] == all[..k + limit];
    } else {
      assert all[..k] + all[k..] == all == all[..|all|];
    }
  }

  /** One page from a place where the cursor points to the next row. */
  lemma PageAt(all: seq<Row>, limit: nat, dir: Direction, show: int -> int, w: Walk, k: nat)
    requires InOrder(all, dir) && limit >= 1 && At(w, all, k, show) && !w.finished
    requires 0 < k < |all| ==> Separates(all, k, dir, show)
    requires k == |all| ==> k == 0
    ensures var after := AddPage(w, BuildPaginationResult(ListPage(all, w.next, limit, dir), limit, show));
            At(after, all, Min(k + limit, |all|), show) && (after.finished <==> k + limit >= |all|)
  {
    if 0 < k < |all| { PointsToNext(all, k, dir, show); }
    assert ListPage(all, w.next, limit, dir) == Take(all[k..], limit + 1);
    PageAdded(all, limit, show, w, k);
  }

  /* ---- when the walk is the list ---- */

  /** After any number of pages the rows visited are the front of the sorted list, and the walk ends with the list. */
  ghost predicate WalkExact(rows: set<Row>, limit: nat, dir: Direction, show: int -> int) {
    forall n: nat :: PagesExact(rows, limit, dir, show, n)
  }

  predicate PagesExact(rows: set<Row>, limit: nat, dir: Direction, show: int -> int, n: nat) {
    ExactAfter(SortRows(rows, dir), WalkPages(rows, limit, dir, show, n), n, limit)
  }

  predicate ExactAfter(all: seq<Row>, w: Walk, n: nat, limit: nat) {
    w.visited == all[..Min(RowsIn(n, limit), |all|)] && (w.finished <==> n >= 1 && RowsIn(n, limit) >= |all|)
  }

  /** Every boundary between two pages of this size. */
  ghost predicate SeparatesPages(all: seq<Row>, limit: nat, dir: Direction, show: int -> int) {
    forall n: nat :: SeparatesPage(all, limit, dir, show, n)
  }

  predicate SeparatesPage(all: seq<Row>, limit: nat, dir: Direction, show: int -> int, n: nat) {
    0 < RowsIn(n, limit) < |all| ==> Separates(all, RowsIn(n, limit), dir, show)
  }

  /** `n` pages with `k` rows, or as many as there are. */
  predicate Walked(w: Walk, all: seq<Row>, n: nat, k: nat, show: int -> int) {
    At(w, all, Min(k, |all|), show) && (w.finished <==> n >= 1 && k >= |all|)
  }

  /** The `n`-th page, with `k` rows behind it. */
  lemma OneMorePage(all: seq<Row>, limit: nat, dir: Direction, show: int -> int, n: nat, k: nat)
    requires limit >= 1 && InOrder(all, dir) && (0 < k < |all| ==> Separates(all, k, dir, show))
    requires n > 0 && (k == 0 <==> n == 1) && Walked(WalkList(all, limit, dir, show, n - 1), all, n - 1, k, show)
    ensures Walked(WalkList(all, limit, dir, show, n), all, n, k + limit, show)
  {
    var w := WalkList(all, limit, dir, show, n - 1);
    if !w.finished { PageAt(all, limit, dir, show, w, k); }
  }

  lemma {:induction false} ExactWhenSeparated(all: seq<Row>, limit: nat, dir: Direction, show: int -> int, n: nat)
    requires limit >= 1 && InOrder(all, dir) && SeparatesPages(all, limit, dir, show)
    ensures Walked(WalkList(all, limit, dir, show, n), all, n, RowsIn(n, limit), show)
  {
    if n == 0 {
      NoPageYet(all, limit, dir, show);
    } else {
      ExactWhenSeparated(all, limit, dir, show, n - 1);
      PageWhenSeparated(all, limit, dir, show, n);
    }
  }

  lemma NoPageYet(all: seq<Row>, limit: nat, dir: Direction, show: int -> int)
    requires InOrder(all, dir)
    ensures Walked(WalkList(all, limit, dir, show, 0), all, 0, RowsIn(0, limit), show)
  {
  }

  lemma PageWhenSeparated(all: seq<Row>, limit: nat, dir: Direction, show: int -> int, n: nat)
    requires limit >= 1 && InOrder(all, dir) && SeparatesPages(all, limit, dir, show) && n > 0
    requires Walked(WalkList(all, limit, dir, show, n - 1), all, n - 1, RowsIn(n - 1, limit), show)
    ensures Walked(WalkList(all, limit, dir, show, n), all, n, RowsIn(n, limit), show)
  {
    var k := RowsIn(n - 1, limit);
    assert SeparatesPage(all, limit, dir, show, n - 1);
    assert RowsIn(n, limit) == k + limit && (k == 0 <==> n == 1);
    OneMorePage(all, limit, dir, show, n, k);
  }

  /** Between two pages a walk has the cursor of the last row it visited. */
  lemma CursorIsLast(all: seq<Row>, limit: nat, dir: Direction, show: int -> int, n: nat)
    requires InOrder(all, dir) && limit >= 1 && n > 0
    ensures var w := WalkList(all, limit, dir, show, n);
            !w.finished ==> |w.visited| > 0 && w.next == Some(CursorOf(w.visited, |w.visited|, show))
  {
  }

  lemma NextExact(all: seq<Row>, limit: nat, dir: Direction, show: int -> int, n: nat)
    requires limit >= 1 && InOrder(all, dir) && !WalkList(all, limit, dir, show, n).finished
    requires ListExact(all, limit, dir, show, n + 1)
    ensures var w := WalkList(all, limit, dir, show, n);
            AddPage(w, BuildPaginationResult(ListPage(all, w.next, limit, dir), limit, show)).visited
            == all[..Min(RowsIn(n, limit) + limit, |all|)]
  {
  }

  lemma SeparatedWhenExact(all: seq<Row>, limit: nat, dir: Direction, show: int -> int, n: nat)
    requires limit >= 1 && InOrder(all, dir) && 0 < RowsIn(n, limit) < |all|
    requires ListExact(all, limit, dir, show, n) && ListExact(all, limit, dir, show, n + 1)
    ensures Separates(all, RowsIn(n, limit), dir, show)
  {
    CursorInHand(all, limit, dir, show, n);
    NextExact(all, limit, dir, show, n);
    NextRowVisited(all, limit, dir, show, WalkList(all, limit, dir, show, n), RowsIn(n, limit));
    PointsToNext(all, RowsIn(n, limit), dir, show);
  }

  lemma CursorInHand(all: seq<Row>, limit: nat, dir: Direction, show: int -> int, n: nat)
    requires limit >= 1 && InOrder(all, dir) && 0 < RowsIn(n, limit) < |all| && ListExact(all, limit, dir, show, n)
    ensures var w, k := WalkList(all, limit, dir, show, n), RowsIn(n, limit);
            !w.finished && w.visited == all[..k] && w.next == Some(CursorOf(all, k, show))
  {
    CursorIsLast(all, limit, dir, show, n);
  }

  /** If the next page goes on where the last one stopped, the cursor points there. */
  lemma NextRowVisited(all: seq<Row>, limit: nat, dir: Direction, show: int -> int, w: Walk, k: nat)
    requires limit >= 1 && InOrder(all, dir) && 0 < k < |all| && w.visited == all[..k]
             && w.next == Some(CursorOf(all, k, show))
    requires AddPage(w, BuildPaginationResult(ListPage(all, w.next, limit, dir), limit, show)).visited
             == all[..Min(k + limit, |all|)]
    ensures Behind(all, CursorOf(all, k, show), dir) == k
  {
    var start := Behind(all, CursorOf(all, k, show), dir);
    BehindSplits(all, CursorOf(all, k, show), dir);
    PageData(all, limit, show, start);
    var data := BuildPaginationResult(ListPage(all, w.next, limit, dir), limit, show).data;
    var end := all[..Min(k + limit, |all|)];
    assert |end| > k && (all[..k] + data)[k] == end[k] == all[k];
    assert data[0] == all[start];
  }

  predicate ListExact(all: seq<Row>, limit: nat, dir: Direction, show: int -> int, n: nat)
    requires InOrder(all, dir)
  {
    ExactAfter(all, WalkList(all, limit, dir, show, n), n, limit)
  }

  lemma ExactOnList(rows: set<Row>, all: seq<Row>, limit: nat, dir: Direction, show: int -> int, n: nat)
    requires InOrder(all, dir) && all == SortRows(rows, dir)
    ensures PagesExact(rows, limit, dir, show, n) <==> ListExact(all, limit, dir, show, n)
  {
    WalksAgree(rows, all, limit, dir, show, n);
  }

  lemma ListExactIff(all: seq<Row>, limit: nat, dir: Direction, show: int -> int)
    requires limit >= 1 && InOrder(all, dir)
    ensures (forall n: nat :: ListExact(all, limit, dir, show, n)) <==> SeparatesPages(all, limit, dir, show)
  {
    if SeparatesPages(all, limit, dir, show) {
      forall n: nat ensures ListExact(all, limit, dir, show, n) { ExactWhenSeparated(all, limit, dir, show, n); }
    }
    if forall n: nat :: ListExact(all, limit, dir, show, n) {
      forall n: nat ensures SeparatesPage(all, limit, dir, show, n) {
        assert ListExact(all, limit, dir, show, n) && ListExact(all, limit, dir, show, n + 1);
        if 0 < RowsIn(n, limit) < |all| { SeparatedWhenExact(all, limit, dir, show, n); }
      }
    }
  }

  /** The walk is exact for a page size exactly when the cursor separates at each boundary between its pages. */
  lemma WalkExactIff(rows: set<Row>, limit: nat, dir: Direction, show: int -> int)
    requires limit >= 1
    ensures WalkExact(rows, limit, dir, show) <==> SeparatesPages(SortRows(rows, dir), limit, dir, show)
  {
    var all := SortRows(rows, dir);
    SortedRows(rows, dir);
    forall n: nat ensures PagesExact(rows, limit, dir, show, n) <==> ListExact(all, limit, dir, show, n) {
      ExactOnList(rows, all, limit, dir, show, n);
    }
    ListExactIff(all, limit, dir, show);
  }

  /* ---- columns the cursor keeps whole, and timestamps ---- */

  ghost predicate KeepsValues(show: int -> int) {
    forall v :: show(v) == v
  }

  /** Microseconds cut to the millisecond, as the cursor format prints them. */
  function ToMillis(): int -> int {
    t => t - t % 1000
  }

  ghost predicate CutsToMillis(show: int -> int) {
    forall t :: show(t) == ToMillis()(t)
  }

  /** A sort column whose values survive the cursor: every walk is exact, in either direction, for every page size. */
  lemma WholeValuesWalkExactly(rows: set<Row>, limit: nat, dir: Direction, show: int -> int)
    requires limit >= 1 && KeepsValues(show)
    ensures WalkExact(rows, limit, dir, show)
  {
    var all := SortRows(rows, dir);
    SortedRows(rows, dir);
    forall n: nat ensures SeparatesPage(all, limit, dir, show, n) {
      if 0 < RowsIn(n, limit) < |all| { assert Precedes(all[RowsIn(n, limit) - 1], all[RowsIn(n, limit)], dir); }
    }
    WalkExactIff(rows, limit, dir, show);
  }

  predicate FollowsWholeMilli(all: seq<Row>, k: nat)
    requires 0 < k < |all|
  {
    all[k - 1].value % 1000 == 0
  }

  /** Ascending: the cut cursor separates two rows exactly when the first sits on a whole millisecond. */
  lemma AscendingSeparates(all: seq<Row>, k: nat, show: int -> int)
    requires InOrder(all, Asc) && 0 < k < |all| && CutsToMillis(show)
    ensures Separates(all, k, Asc, show) <==> FollowsWholeMilli(all, k)
  {
    assert Precedes(all[k - 1], all[k], Asc);
    assert show(all[k - 1].value) == ToMillis()(all[k - 1].value);
  }

  /** Ascending, every page size works exactly when every row but the last sits on a whole millisecond. */
  lemma AscendingTimes(rows: set<Row>, show: int -> int)
    requires CutsToMillis(show)
    ensures EverySizeExact(rows, Asc, show)
            <==> forall k: nat | 0 < k < |SortRows(rows, Asc)| :: FollowsWholeMilli(SortRows(rows, Asc), k)
  {
    var all := SortRows(rows, Asc);
    SortedRows(rows, Asc);
    EveryBoundary(rows, Asc, show);
    forall k: nat | 0 < k < |all| ensures Separates(all, k, Asc, show) <==> FollowsWholeMilli(all, k) {
      AscendingSeparates(all, k, show);
    }
  }

  /** The row lies below its predecessor's time cut to the millisecond, or ties with it there and has the smaller id. */
  predicate BelowCut(before: Row, row: Row) {
    var cut := before.value - before.value % 1000;
    row.value < cut || (row.value == cut && row.id < before.id)
  }

  lemma DescendingSeparates(all: seq<Row>, k: nat, show: int -> int)
    requires 0 < k < |all| && CutsToMillis(show)
    ensures Separates(all, k, Desc, show) <==> BelowCut(all[k - 1], all[k])
  {
    assert show(all[k - 1].value) == ToMillis()(all[k - 1].value);
  }

  /** Descending, exactly when every row lies below its predecessor's time as the cursor prints it. */
  lemma DescendingTimes(rows: set<Row>, show: int -> int)
    requires CutsToMillis(show)
    ensures EverySizeExact(rows, Desc, show)
            <==> forall k: nat | 0 < k < |SortRows(rows, Desc)| ::
                   BelowCut(SortRows(rows, Desc)[k - 1], SortRows(rows, Desc)[k])
  {
    var all := SortRows(rows, Desc);
    EveryBoundary(rows, Desc, show);
    forall k: nat | 0 < k < |all| ensures Separates(all, k, Desc, show) <==> BelowCut(all[k - 1], all[k]) {
      DescendingSeparates(all, k, show);
    }
  }

  ghost predicate EverySizeExact(rows: set<Row>, dir: Direction, show: int -> int) {
    forall limit: nat | limit >= 1 :: WalkExact(rows, limit, dir, show)
  }

  predicate SeparatesAll(all: seq<Row>, dir: Direction, show: int -> int) {
    forall k: nat | 0 < k < |all| :: Separates(all, k, dir, show)
  }

  /** A page size for every boundary: all sizes work exactly when every adjacent pair is separated. */
  lemma EveryBoundary(rows: set<Row>, dir: Direction, show: int -> int)
    ensures EverySizeExact(rows, dir, show) <==> SeparatesAll(SortRows(rows, dir), dir, show)
  {
    if EverySizeExact(rows, dir, show) {
      SeparatedByEverySize(rows, dir, show);
    }
    if SeparatesAll(SortRows(rows, dir), dir, show) {
      ExactForEverySize(rows, dir, show);
    }
  }

  lemma SeparatedByEverySize(rows: set<Row>, dir: Direction, show: int -> int)
    requires EverySizeExact(rows, dir, show)
    ensures SeparatesAll(SortRows(rows, dir), dir, show)
  {
    forall k: nat | 0 < k < |SortRows(rows, dir)| ensures Separates(SortRows(rows, dir), k, dir, show) {
      assert WalkExact(rows, k, dir, show);
      WalkExactIff(rows, k, dir, show);
      FirstBoundary(SortRows(rows, dir), k, dir, show);
    }
  }

  lemma ExactForEverySize(rows: set<Row>, dir: Direction, show: int -> int)
    requires SeparatesAll(SortRows(rows, dir), dir, show)
    ensures EverySizeExact(rows, dir, show)
  {
    forall limit: nat | limit >= 1 ensures WalkExact(rows, limit, dir, show) {
      AllBoundaries(SortRows(rows, dir), limit, dir, show);
      WalkExactIff(rows, limit, dir, show);
    }
  }

  lemma AllBoundaries(all: seq<Row>, limit: nat, dir: Direction, show: int -> int)
    requires SeparatesAll(all, dir, show)
    ensures SeparatesPages(all, limit, dir, show)
  {
    forall n: nat ensures SeparatesPage(all, limit, dir, show, n) {}
  }

  lemma FirstBoundary(all: seq<Row>, k: nat, dir: Direction, show: int -> int)
    requires 0 < k < |all| && SeparatesPages(all, k, dir, show)
    ensures Separates(all, k, dir, show)
  {
    assert RowsIn(1, k) == RowsIn(0, k) + k;
    assert SeparatesPage(all, k, dir, show, 1);
  }
}
