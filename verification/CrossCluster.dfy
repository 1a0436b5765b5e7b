/** The order list of a range that straddles the year start: the first page of each cluster, merged in memory. */
module CrossCluster {
  import opened Types
  import opened IdOrder
  import opened Pagination

  /** getTime() of a row's created_at: the whole milliseconds of its microseconds. */
  function Millis(r: Row): int {
    r.value - r.value % 1000
  }

  /** The comparator of the merge looks at the time alone, ids do not break ties. */
  predicate NotAfter(a: Row, b: Row, dir: Direction) {
    if dir.Asc? then Millis(a) <= Millis(b) else Millis(a) >= Millis(b)
  }

  /** Behind every element it is not before, so that equal elements keep their order. */
  function InsertStable(s: seq<Row>, r: Row, dir: Direction): seq<Row> {
    if s == [] || NotAfter(s[|s| - 1], r, dir) then s + [r]
    else InsertStable(s[..|s| - 1], r, dir) + [s[|s| - 1]]
  }

  /** Array.prototype.sort, which is stable. */
  function StableSort(s: seq<Row>, dir: Direction): seq<Row> {
    if s == [] then [] else InsertStable(StableSort(s[..|s| - 1], dir), s[|s| - 1], dir)
  }

  /** Both clusters cut to the limit, hot in front, sorted, and cut again. */
  function MergedPage(hot: set<Row>, archive: set<Row>, limit: nat, dir: Direction): Page {
    var h := BuildPaginationResult(PageQuery(hot, None, limit, dir), limit, ToMillis()).data;
    var a := BuildPaginationResult(PageQuery(archive, None, limit, dir), limit, ToMillis()).data;
    BuildPaginationResult(StableSort(h + a, dir), limit, ToMillis())
  }

  lemma FirstData(rows: set<Row>, limit: nat, dir: Direction)
    ensures BuildPaginationResult(PageQuery(rows, None, limit, dir), limit, ToMillis()).data
            == Take(SortRows(rows, dir), limit)
  {
    PageIsStretch(rows, None, limit, dir);
    var all := SortRows(rows, dir);
    assert all[0..] == all;
  }

  /* ---- what the merge does to two sorted lists on either side of a time ---- */

  predicate NonDecreasing(s: seq<Row>, dir: Direction) {
    forall i, j | 0 <= i < j < |s| :: NotAfter(s[i], s[j], dir)
  }

  lemma {:induction false} SortedStays(s: seq<Row>, dir: Direction)
    requires NonDecreasing(s, dir)
    ensures StableSort(s, dir) == s
  {
    if s != [] {
      SortedStays(s[..|s| - 1], dir);
      assert s == s[..|s| - 1] + [s[|s| - 1]];
    }
  }

  /** An element before all of `late` and after all of `early` lands between them. */
  lemma {:induction false} InsertBetween(early: seq<Row>, late: seq<Row>, r: Row, dir: Direction)
    requires forall i | 0 <= i < |early| :: NotAfter(early[i], r, dir)
    requires forall i | 0 <= i < |late| :: !NotAfter(late[i], r, dir)
    ensures InsertStable(early + late, r, dir) == early + [r] + late
  {
    if late == [] {
      assert early + late == early;
    } else {
      var n := |late| - 1;
      InsertBetween(early, late[..n], r, dir);
      assert (early + late)[..|early + late| - 1] == early + late[..n];
      assert late == late[..n] + [late[n]];
    }
  }

  /** A sorted list put behind one it wholly precedes moves to its front. */
  lemma {:induction false} SwapSorted(late: seq<Row>, early: seq<Row>, dir: Direction)
    requires NonDecreasing(late, dir) && NonDecreasing(early, dir)
    requires forall i, j | 0 <= i < |early| && 0 <= j < |late| :: !NotAfter(late[j], early[i], dir)
    ensures StableSort(late + early, dir) == early + late
  {
    if early == [] {
      assert late + early == late && early + late == late;
      SortedStays(late, dir);
    } else {
      var n := |early| - 1;
      SwapSorted(late, early[..n], dir);
      assert (late + early)[..|late + early| - 1] == late + early[..n];
      InsertBetween(early[..n], late, early[n], dir);
      assert early[..n] + [early[n]] == early;
    }
  }

  lemma InOrderSorted(s: seq<Row>, dir: Direction)
    requires InOrder(s, dir)
    ensures NonDecreasing(s, dir)
  {
    forall i, j | 0 <= i < j < |s| ensures NotAfter(s[i], s[j], dir) {
      assert Precedes(s[i], s[j], dir);
    }
  }

  /** Orders of this year are hot, earlier ones archived; the boundary is a whole second. */
  ghost predicate SplitAt(hot: set<Row>, archive: set<Row>, yearStart: int) {
    && yearStart % 1000 == 0
    && (forall r | r in hot :: r.value >= yearStart)
    && (forall r | r in archive :: r.value < yearStart)
  }

  /** The union's sorted list is one cluster's after the other's. */
  lemma UnionList(hot: set<Row>, archive: set<Row>, yearStart: int, dir: Direction)
    requires SplitAt(hot, archive, yearStart)
    ensures SortRows(hot + archive, dir)
            == if dir.Asc? then SortRows(archive, dir) + SortRows(hot, dir)
               else SortRows(hot, dir) + SortRows(archive, dir)
  {
    var front, back := if dir.Asc? then archive else hot, if dir.Asc? then hot else archive;
    var f, b := SortRows(front, dir), SortRows(back, dir);
    SortedRows(front, dir);
    SortedRows(back, dir);
    SortedRows(hot + archive, dir);
    forall i, j | 0 <= i < |f| && 0 <= j < |b| ensures Precedes(f[i], b[j], dir) { assert f[i] in f && b[j] in b; }
    forall i, j | 0 <= i < j < |f + b| ensures Precedes((f + b)[i], (f + b)[j], dir) {}
    ListUnique(SortRows(hot + archive, dir), f + b, dir);
  }

  lemma YearApart(late: Row, early: Row, yearStart: int)
    requires yearStart % 1000 == 0 && early.value < yearStart <= late.value
    ensures Millis(early) < Millis(late)
  {
    assert late.value / 1000 >= yearStart / 1000 > early.value / 1000;
  }

  lemma MergeSides(h: seq<Row>, a: seq<Row>, yearStart: int, dir: Direction)
    requires InOrder(h, dir) && InOrder(a, dir) && yearStart % 1000 == 0
    requires forall i | 0 <= i < |h| :: h[i].value >= yearStart
    requires forall i | 0 <= i < |a| :: a[i].value < yearStart
    ensures StableSort(h + a, dir) == if dir.Asc? then a + h else h + a
  {
    InOrderSorted(h, dir);
    InOrderSorted(a, dir);
    forall i, j | 0 <= i < |a| && 0 <= j < |h| ensures Millis(a[i]) < Millis(h[j]) { YearApart(h[j], a[i], yearStart); }
    if dir.Asc? {
      SwapSorted(h, a, dir);
    } else {
      Juxtaposed(h, a, dir);
      SortedStays(h + a, dir);
    }
  }

  lemma Juxtaposed(h: seq<Row>, a: seq<Row>, dir: Direction)
    requires NonDecreasing(h, dir) && NonDecreasing(a, dir)
    requires forall i, j | 0 <= i < |h| && 0 <= j < |a| :: NotAfter(h[i], a[j], dir)
    ensures NonDecreasing(h + a, dir)
  {
  }

  /** The merge of two cut pages is one cut list after the other. */
  lemma MergeCut(hot: set<Row>, archive: set<Row>, yearStart: int, limit: nat, dir: Direction)
    requires SplitAt(hot, archive, yearStart)
    ensures var h, a := Take(SortRows(hot, dir), limit), Take(SortRows(archive, dir), limit);
            StableSort(h + a, dir) == if dir.Asc? then a + h else h + a
  {
    var hotList, archived := SortRows(hot, dir), SortRows(archive, dir);
    SortedRows(hot, dir);
    SortedRows(archive, dir);
    forall i | 0 <= i < |hotList| ensures hotList[i].value >= yearStart { assert hotList[i] in hotList; }
    forall i | 0 <= i < |archived| ensures archived[i].value < yearStart { assert archived[i] in archived; }
    MergeSides(Take(hotList, limit), Take(archived, limit), yearStart, dir);
  }

  lemma TakeFront(f: seq<Row>, b: seq<Row>, limit: nat)
    requires limit >= 1
    ensures Take(Take(f, limit) + Take(b, limit), limit) == Take(f + b, limit)
    ensures |Take(f, limit) + Take(b, limit)| > limit
            <==> |f + b| > limit && !(|f| > limit && |b| == 0) && !(|f| == 0 && |b| > limit)
  {
    var cut := Take(f, limit) + Take(b, limit);
    if |f| >= limit {
      assert Take(cut, limit) == f[..limit] == Take(f + b, limit);
    } else if |b| > limit {
      assert cut[..limit] == (f + b)[..limit];
    }
  }

  /** The merged first page is the first page of both clusters together, although each was already cut to the limit. */
  lemma MergedIsFirstPage(hot: set<Row>, archive: set<Row>, yearStart: int, limit: nat, dir: Direction)
    requires SplitAt(hot, archive, yearStart) && limit >= 1
    ensures MergedPage(hot, archive, limit, dir).data == Take(SortRows(hot + archive, dir), limit)
    ensures MergedPage(hot, archive, limit, dir).hasMore
            <==> |hot + archive| > limit && !(|hot| > limit && archive == {}) && !(hot == {} && |archive| > limit)
  {
    FirstData(hot, limit, dir);
    FirstData(archive, limit, dir);
    MergeCut(hot, archive, yearStart, limit, dir);
    UnionList(hot, archive, yearStart, dir);
    TakeFront(SortRows(hot, dir), SortRows(archive, dir), limit);
    TakeFront(SortRows(archive, dir), SortRows(hot, dir), limit);
    SortCount(hot, dir);
    SortCount(archive, dir);
    SortCount(hot + archive, dir);
  }

  lemma {:induction false} SortCount(rows: set<Row>, dir: Direction)
    ensures |SortRows(rows, dir)| == |rows|
  {
    if rows != {} {
      SortCount(rows - {FirstRow(rows, dir)}, dir);
    }
  }
}
