/**
 The walk as a client makes it: every page hands out its cursor as one opaque string, and the next request
 sends that string back. It is the walk along typed cursors, so what holds there holds for the strings.
 */
module CursorWalk {
  import opened Types
  import opened IdOrder
  import opened Cursors
  import opened Pagination

  /** How a sort value is printed into a cursor, and how the database reads the text it is compared with. */
  datatype Column = Column(format: int -> string, parse: string -> int)

  function Shown(column: Column): int -> int {
    v => column.parse(column.format(v))
  }

  /** The rows a cursor string lets through; an empty string counts as no cursor. */
  function WantedBy(rows: set<Row>, cursor: Option<string>, dir: Direction, column: Column): set<Row> {
    if cursor.None? || cursor.value == "" then rows
    else
      var d := DecodeCursor(cursor.value);
      if d.id.Some? then Wanted(rows, Some(Cursor(column.parse(d.sortValue), ReadNat(d.id.value))), dir)
      else set r | r in rows && Beyond(r.value, column.parse(d.sortValue), dir)
  }

  /** Without an id only the sort column is compared. */
  predicate Beyond(value: int, cursorValue: int, dir: Direction) {
    if dir.Asc? then value > cursorValue else value < cursorValue
  }

  datatype Answer = Answer(data: seq<Row>, nextCursor: Option<string>, hasMore: bool)

  function CursorString(r: Row, column: Column): string {
    EncodeCursor(column.format(r.value), Some(PrintNat(r.id)))
  }

  /** One request: the page query and the result built from it. */
  function Fetch(rows: set<Row>, cursor: Option<string>, limit: nat, dir: Direction, column: Column): Answer {
    var found := Take(SortRows(WantedBy(rows, cursor, dir, column), dir), limit + 1);
    var hasMore := |found| > limit;
    var data := if hasMore then found[..limit] else found;
    Answer(data, if |data| > 0 && hasMore then Some(CursorString(data[|data| - 1], column)) else None, hasMore)
  }

  datatype Journey = Journey(visited: seq<Row>, next: Option<string>, finished: bool)

  function NextJourney(rows: set<Row>, limit: nat, dir: Direction, column: Column, j: Journey): Journey {
    if j.finished then j
    else
      var a := Fetch(rows, j.next, limit, dir, column);
      Journey(j.visited + a.data, a.nextCursor, a.nextCursor.None?)
  }

  /** `n` requests, each with the cursor string of the answer before, until there is none. */
  function Follow(rows: set<Row>, limit: nat, dir: Direction, column: Column, n: nat): Journey {
    if n == 0 then Journey([], None, false)
    else NextJourney(rows, limit, dir, column, Follow(rows, limit, dir, column, n - 1))
  }

  /** The string and the typed cursor are both there or both not, and stand for the same row. */
  ghost predicate SameCursor(text: Option<string>, cursor: Option<Cursor>, column: Column) {
    || (text.None? && cursor.None?)
    || exists r: Row :: text == Some(CursorString(r, column)) && cursor == Some(CursorOfRow(r, column))
  }

  function CursorOfRow(r: Row, column: Column): Cursor {
    Cursor(column.parse(column.format(r.value)), r.id)
  }

  lemma SameRowsWanted(rows: set<Row>, text: Option<string>, cursor: Option<Cursor>, dir: Direction, column: Column)
    requires SameCursor(text, cursor, column)
    ensures WantedBy(rows, text, dir, column) == Wanted(rows, cursor, dir)
  {
    if cursor.Some? {
      var r: Row :| text == Some(CursorString(r, column)) && cursor == Some(CursorOfRow(r, column));
      IdCursorRoundTrip(column.format(r.value), r.id);
    }
  }

  lemma SamePage(rows: set<Row>, text: Option<string>, cursor: Option<Cursor>, limit: nat, dir: Direction,
      column: Column)
    requires SameCursor(text, cursor, column)
    ensures var page := BuildPaginationResult(PageQuery(rows, cursor, limit, dir), limit, Shown(column));
            var a := Fetch(rows, text, limit, dir, column);
            a.data == page.data && a.hasMore == page.hasMore && SameCursor(a.nextCursor, page.nextCursor, column)
  {
    SameRowsWanted(rows, text, cursor, dir, column);
    var a := Fetch(rows, text, limit, dir, column);
    if a.nextCursor.Some? {
      assert a.nextCursor == Some(CursorString(a.data[|a.data| - 1], column));
    }
  }

  ghost predicate Alike(j: Journey, w: Walk, column: Column) {
    j.visited == w.visited && j.finished == w.finished && SameCursor(j.next, w.next, column)
  }

  function NextWalk(rows: set<Row>, limit: nat, dir: Direction, show: int -> int, w: Walk): Walk {
    if w.finished then w else AddPage(w, BuildPaginationResult(PageQuery(rows, w.next, limit, dir), limit, show))
  }

  lemma OneMoreAlike(rows: set<Row>, limit: nat, dir: Direction, column: Column, j: Journey, w: Walk)
    requires Alike(j, w, column)
    ensures Alike(NextJourney(rows, limit, dir, column, j), NextWalk(rows, limit, dir, Shown(column), w), column)
  {
    SamePage(rows, j.next, w.next, limit, dir, column);
  }

  lemma WalkPagesOn(rows: set<Row>, limit: nat, dir: Direction, show: int -> int, n: nat)
    requires n > 0
    ensures WalkPages(rows, limit, dir, show, n)
            == NextWalk(rows, limit, dir, show, WalkPages(rows, limit, dir, show, n - 1))
  {
  }

  /** Following the strings visits the same rows, in the same pages, as following the typed cursors. */
  lemma {:induction false} StringsWalkAlike(rows: set<Row>, limit: nat, dir: Direction, column: Column, n: nat)
    ensures Alike(Follow(rows, limit, dir, column, n), WalkPages(rows, limit, dir, Shown(column), n), column)
  {
    if n > 0 {
      var j, w := Follow(rows, limit, dir, column, n - 1), WalkPages(rows, limit, dir, Shown(column), n - 1);
      StringsWalkAlike(rows, limit, dir, column, n - 1);
      OneMoreAlike(rows, limit, dir, column, j, w);
      WalkPagesOn(rows, limit, dir, Shown(column), n);
    }
  }

  /**
   After `n` requests the rows visited are the first `n` pages of the sorted list, and the walk ends with the
   list.
   */
  ghost predicate FollowExact(rows: set<Row>, limit: nat, dir: Direction, column: Column) {
    forall n: nat :: FollowedExactly(rows, limit, dir, column, n)
  }

  predicate FollowedExactly(rows: set<Row>, limit: nat, dir: Direction, column: Column, n: nat) {
    var all, j := SortRows(rows, dir), Follow(rows, limit, dir, column, n);
    j.visited == all[..Min(RowsIn(n, limit), |all|)] && (j.finished <==> n >= 1 && RowsIn(n, limit) >= |all|)
  }

  lemma FollowIsWalk(rows: set<Row>, limit: nat, dir: Direction, column: Column)
    ensures FollowExact(rows, limit, dir, column) <==> WalkExact(rows, limit, dir, Shown(column))
  {
    forall n: nat
      ensures FollowedExactly(rows, limit, dir, column, n) <==> PagesExact(rows, limit, dir, Shown(column), n)
    {
      StringsWalkAlike(rows, limit, dir, column, n);
    }
  }

  /** Following nextCursor is exact iff what the database reads back separates at each boundary between pages. */
  lemma FollowExactIff(rows: set<Row>, limit: nat, dir: Direction, column: Column)
    requires limit >= 1
    ensures FollowExact(rows, limit, dir, column) <==> SeparatesPages(SortRows(rows, dir), limit, dir, Shown(column))
  {
    FollowIsWalk(rows, limit, dir, column);
    WalkExactIff(rows, limit, dir, Shown(column));
  }

  /**
   Sorted by an integer column, printed and read in decimals, every walk is exact, ties and negative values
   included.
   */
  lemma IntegersFollowExactly(rows: set<Row>, limit: nat, dir: Direction)
    requires limit >= 1
    ensures FollowExact(rows, limit, dir, Column(PrintInt, ReadInt))
  {
    var column := Column(PrintInt, ReadInt);
    forall v ensures Shown(column)(v) == v { IntRoundTrip(v); }
    WholeValuesWalkExactly(rows, limit, dir, Shown(column));
    FollowIsWalk(rows, limit, dir, column);
  }

  lemma EverySizeAlike(rows: set<Row>, dir: Direction, column: Column)
    ensures (forall limit: nat | limit >= 1 :: FollowExact(rows, limit, dir, column))
            <==> EverySizeExact(rows, dir, Shown(column))
  {
    forall limit: nat ensures FollowExact(rows, limit, dir, column) <==> WalkExact(rows, limit, dir, Shown(column)) {
      FollowIsWalk(rows, limit, dir, column);
    }
  }

  /** Sorted by a timestamp whose text stops at the millisecond: which tables every page size walks exactly. */
  lemma TimesFollowExactly(rows: set<Row>, column: Column)
    requires CutsToMillis(Shown(column))
    ensures (forall limit: nat | limit >= 1 :: FollowExact(rows, limit, Asc, column))
            <==> forall k: nat | 0 < k < |SortRows(rows, Asc)| :: FollowsWholeMilli(SortRows(rows, Asc), k)
    ensures (forall limit: nat | limit >= 1 :: FollowExact(rows, limit, Desc, column))
            <==> forall k: nat | 0 < k < |SortRows(rows, Desc)| ::
                   BelowCut(SortRows(rows, Desc)[k - 1], SortRows(rows, Desc)[k])
  {
    EverySizeAlike(rows, Asc, column);
    EverySizeAlike(rows, Desc, column);
    AscendingTimes(rows, Shown(column));
    DescendingTimes(rows, Shown(column));
  }
}
