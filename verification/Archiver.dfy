/**
 The archival job of one region: the batch loop of one table and the walk over the tables, with a deadline and
 failures.
 */
module Archiver {
  import opened Types
  import opened IdOrder
  import opened ArchivalStore

  /** One table moved whole: its prior rows inserted into the archive in id order, then deleted. */
  function MoveTable(s: Store, t: Table, cutoff: Time): Store {
    var p := Prior(s.hot, t, cutoff);
    Store(Delete(s.hot, p), InsertAll(s.archive, p))
  }

  /** The first `n` tables of the walk moved whole. */
  function MoveTables(s: Store, cutoff: Time, specs: seq<Table>, n: nat): Store
    requires n <= |specs|
  {
    if n == 0 then s else MoveTable(MoveTables(s, cutoff, specs, n - 1), specs[n - 1], cutoff)
  }

  /** The first `copied` rows of a list inserted into the archive and the first `moved` of them deleted from hot. */
  predicate Moved(from: Store, p: seq<Stored>, copied: nat, moved: nat, to: Store) {
    moved <= copied <= |p| && to == Store(Delete(from.hot, p[..moved]), InsertAll(from.archive, p[..copied]))
  }

  /** `copied` rows of the table have reached the archive and `moved` of them have left hot. */
  predicate Progress(from: Store, t: Table, cutoff: Time, copied: nat, moved: nat, to: Store) {
    Moved(from, Prior(from.hot, t, cutoff), copied, moved, to)
  }

  /** From one store to the other by moving the first `n` tables whole, through the stores in between. */
  ghost predicate Reaches(from: Store, cutoff: Time, specs: seq<Table>, n: nat, to: Store) {
    exists trail: seq<Store> :: IsTrail(trail, cutoff, specs, n) && trail[0] == from && trail[n] == to
  }

  ghost predicate IsTrail(trail: seq<Store>, cutoff: Time, specs: seq<Table>, n: nat) {
    && n <= |specs| && |trail| == n + 1
    && forall k {:trigger MoveTable(trail[k], specs[k], cutoff)} | 0 <= k < n ::
       trail[k + 1] == MoveTable(trail[k], specs[k], cutoff)
  }

  lemma {:induction false} ReachesMoveTables(from: Store, cutoff: Time, specs: seq<Table>, n: nat, to: Store)
    requires Reaches(from, cutoff, specs, n, to)
    ensures n <= |specs| && to == MoveTables(from, cutoff, specs, n)
  {
    var trail: seq<Store> :| IsTrail(trail, cutoff, specs, n) && trail[0] == from && trail[n] == to;
    TrailEnds(trail, cutoff, specs, n);
  }

  lemma {:induction false} TrailEnds(trail: seq<Store>, cutoff: Time, specs: seq<Table>, n: nat)
    requires IsTrail(trail, cutoff, specs, n)
    ensures trail[n] == MoveTables(trail[0], cutoff, specs, n)
  {
    if n > 0 {
      assert trail[n] == MoveTable(trail[n - 1], specs[n - 1], cutoff);
      TrailEnds(trail[..n], cutoff, specs, n - 1);
    }
  }

  lemma ReachesNext(from: Store, cutoff: Time, specs: seq<Table>, n: nat, at: Store)
    requires Reaches(from, cutoff, specs, n, at) && n < |specs|
    ensures Reaches(from, cutoff, specs, n + 1, MoveTable(at, specs[n], cutoff))
  {
    var trail: seq<Store> :| IsTrail(trail, cutoff, specs, n) && trail[0] == from && trail[n] == at;
    var longer := trail + [MoveTable(at, specs[n], cutoff)];
    forall k | 0 <= k < n + 1 ensures longer[k + 1] == MoveTable(longer[k], specs[k], cutoff) {
      if k < n { assert trail[k + 1] == MoveTable(trail[k], specs[k], cutoff); }
    }
    assert IsTrail(longer, cutoff, specs, n + 1) && longer[0] == from;
  }

  /**
   All tables before the `n`-th are moved whole, and that one as far as `copied` and `moved` say; later ones
   not at all.
   */
  ghost predicate StoppedAt(from: Store, cutoff: Time, specs: seq<Table>, n: nat, at: Store, copied: nat, moved: nat,
      to: Store) {
    n < |specs| && Reaches(from, cutoff, specs, n, at) && Progress(at, specs[n], cutoff, copied, moved, to)
  }

  ghost predicate StoppedShort(from: Store, cutoff: Time, specs: seq<Table>, to: Store) {
    exists n, at, copied, moved :: StoppedAt(from, cutoff, specs, n, at, copied, moved, to)
  }

  class Region {
    var hot: Hot
    var archive: Archive
    var now: Time          // Date.now() of the worker
    var cutoff: Time       // date_trunc('year', NOW()) of the database
    var locked: bool       // archival:<region>:lock
    var failures: nat      // transactions of either cluster that failed
    var selects: seq<Time> // for each SELECT, the time the worker last looked at

    constructor (h: Hot, a: Archive, t: Time, c: Time)
      ensures hot == h && archive == a && now == t && cutoff == c && !locked && failures == 0 && selects == []
    {
      hot, archive, now, cutoff, locked, failures, selects := h, a, t, c, false, 0, [];
    }

    function Stores(): Store
      reads `hot, `archive
    {
      Store(hot, archive)
    }

    /** Any amount of time may have passed since the last look. */
    method Now() returns (t: Time)
      modifies `now
      ensures t == now >= old(now)
    {
      var elapsed :| elapsed >= 0;
      now := now + elapsed;
      t := now;
    }

    /**
     WHERE timestamp < date_trunc('year', NOW()) ORDER BY id LIMIT limit; a year may have turned since the last
     SELECT.
     */
    method SelectBatchRows(t: Table, limit: nat) returns (rows: seq<Stored>)
      modifies `cutoff, `selects
      ensures cutoff >= old(cutoff) && rows == SelectBatch(hot, t, cutoff, limit)
      ensures selects == old(selects) + [now]
    {
      selects := selects + [now];
      var passed :| passed >= 0;
      cutoff := cutoff + passed;
      rows := SelectBatch(hot, t, cutoff, limit);
    }

    /** One transaction on the archive cluster; a failed one is rolled back. */
    method InsertIgnoringConflicts(rows: seq<Stored>) returns (ok: bool)
      modifies `archive, `failures
      ensures archive == if ok then InsertAll(old(archive), rows) else old(archive)
      ensures failures == old(failures) + if ok then 0 else 1
    {
      ok := *;
      if ok {
        archive := InsertAll(archive, rows);
      } else {
        failures := failures + 1;
      }
    }

    method DeleteByIds(rows: seq<Stored>) returns (ok: bool)
      modifies `hot, `failures
      ensures hot == if ok then Delete(old(hot), rows) else old(hot)
      ensures failures == old(failures) + if ok then 0 else 1
    {
      ok := *;
      if ok {
        hot := Delete(hot, rows);
      } else {
        failures := failures + 1;
      }
    }
  }

  /* ---- one table ---- */

  /** Different prior rows of one table. */
  ghost predicate Listed(hot: Hot, t: Table, cutoff: Time, list: seq<Stored>) {
    |Keys(list)| == |list| && forall x | x in list :: IsPrior(hot, t, cutoff, x)
  }

  /** The list is the front of the table's prior rows in id order. */
  ghost predicate IsFront(hot: Hot, t: Table, cutoff: Time, list: seq<Stored>) {
    |list| <= |Prior(hot, t, cutoff)| && list == Prior(hot, t, cutoff)[..|list|]
  }

  ghost predicate NoPrior(hot: Hot, t: Table, cutoff: Time) {
    forall k | k in hot && k.table == t :: hot[k].ts >= cutoff
  }

  lemma SelectedRows(hot: Hot, t: Table, cutoff: Time, limit: nat)
    ensures var rows := SelectBatch(hot, t, cutoff, limit);
            Listed(hot, t, cutoff, rows) && |rows| <= limit
              && (|rows| < limit ==> NoPrior(Delete(hot, rows), t, cutoff))
  {
    var rows, p := SelectBatch(hot, t, cutoff, limit), Prior(hot, t, cutoff);
    PriorRows(hot, t, cutoff);
    KeysCount(rows);
    DeleteKeys(hot, rows);
    forall x | x in rows ensures IsPrior(hot, t, cutoff, x) { assert x in p; }
    if |rows| < limit {
      forall k | k in hot && k.table == t && hot[k].ts < cutoff ensures k in Keys(rows) {
        assert IsPrior(hot, t, cutoff, Stored(k, hot[k])) && Stored(k, hot[k]) in p;
      }
    }
  }

  /** What is selected once a list is deleted continues that list. */
  lemma ListedOn(hot: Hot, t: Table, cutoff: Time, list: seq<Stored>, rows: seq<Stored>)
    requires Listed(hot, t, cutoff, list) && Listed(Delete(hot, list), t, cutoff, rows)
    ensures Listed(hot, t, cutoff, list + rows)
  {
    DeleteKeys(hot, list);
    forall k | k in Keys(rows) ensures k !in Keys(list) {
      var y :| y in rows && y.key == k;
      assert IsPrior(Delete(hot, list), t, cutoff, y);
    }
    KeysOfBoth(list, rows);
    forall x | x in list + rows ensures IsPrior(hot, t, cutoff, x) {
      if x !in list { assert x in rows; }
    }
  }

  lemma KeysOfBoth(list: seq<Stored>, rows: seq<Stored>)
    ensures Keys(list + rows) == Keys(list) + Keys(rows)
  {
    forall k ensures k in Keys(list + rows) <==> k in Keys(list) || k in Keys(rows) {}
  }

  lemma FrontOn(hot: Hot, t: Table, cutoff: Time, list: seq<Stored>, limit: nat)
    requires IsFront(hot, t, cutoff, list)
    ensures var rows := SelectBatch(Delete(hot, list), t, cutoff, limit);
            IsFront(hot, t, cutoff, list + rows) && (|rows| < limit ==> |list + rows| == |Prior(hot, t, cutoff)|)
  {
    PriorAfterDelete(hot, t, cutoff, |list|);
  }

  /** The next batch archived, and then deleted. */
  lemma BatchMoves(from: Store, list: seq<Stored>, rows: seq<Stored>, s: Store)
    requires Moved(from, list, |list|, |list|, s)
    ensures var more, copied := list + rows, Store(s.hot, InsertAll(s.archive, rows));
            && Moved(from, more, |more|, |list|, copied)
            && Moved(from, more, |more|, |more|, Store(Delete(s.hot, rows), copied.archive))
  {
    var more := list + rows;
    assert list[..|list|] == list && more[..|list|] == list && more[..|more|] == more && more[|list|..|more|] == rows;
    InsertInTwo(from.archive, list, rows);
    DeleteInTwo(from.hot, more, |list|, |more|);
  }

  lemma NothingMoved(from: Store)
    ensures Moved(from, [], 0, 0, from)
  {
  }

  lemma {:induction false} KeysCount(p: seq<Stored>)
    requires InIdOrder(p)
    ensures |Keys(p)| == |p|
  {
    if p != [] {
      var init, last := p[..|p| - 1], p[|p| - 1];
      KeysCount(init);
      assert last.key !in Keys(init);
      assert Keys(p) == Keys(init) + {last.key} by {
        assert p == init + [last];
      }
    }
  }

  lemma ListedCount(hot: Hot, t: Table, cutoff: Time, list: seq<Stored>)
    requires Listed(hot, t, cutoff, list)
    ensures |list| <= |hot| && |Delete(hot, list)| == |hot| - |list|
  {
    DeleteKeys(hot, list);
    assert Keys(list) <= hot.Keys;
    assert Delete(hot, list).Keys == hot.Keys - Keys(list);
  }

  /** Deleting the first rows of a list takes as many rows out of hot. */
  lemma MovedCount(hot: Hot, t: Table, cutoff: Time, list: seq<Stored>, moved: nat)
    requires Listed(hot, t, cutoff, list) && moved <= |list|
    ensures |Delete(hot, list[..moved])| == |hot| - moved
  {
    FrontDistinct(list, moved);
    ListedCount(hot, t, cutoff, list[..moved]);
  }

  lemma {:induction false} FrontDistinct(list: seq<Stored>, n: nat)
    requires n <= |list| && |Keys(list)| == |list|
    ensures |Keys(list[..n])| == n
    decreases |list|
  {
    if n == |list| {
      assert list[..n] == list;
    } else {
      var init, last := list[..|list| - 1], list[|list| - 1];
      assert list == init + [last] && Keys(list) == Keys(init) + {last.key};
      KeysAtMost(init);
      FrontDistinct(init, n);
      assert init[..n] == list[..n];
    }
  }

  lemma {:induction false} KeysAtMost(list: seq<Stored>)
    ensures |Keys(list)| <= |list|
  {
    if list != [] {
      var init, last := list[..|list| - 1], list[|list| - 1];
      KeysAtMost(init);
      assert list == init + [last] && Keys(list) == Keys(init) + {last.key};
    }
  }

  /** Every batch but the last is full. */
  predicate Batched(moved: nat, batches: nat, size: nat) {
    if batches == 0 then moved == 0 else RowsIn(batches - 1, size) < moved <= RowsIn(batches, size)
  }

  lemma CountBatch(moved: nat, batches: nat, size: nat, rows: nat)
    requires 0 < rows <= size && moved == RowsIn(batches, size)
    ensures Batched(moved + rows, batches + 1, size)
    ensures rows == size ==> moved + rows == RowsIn(batches + 1, size)
  {
  }

  /**
   What a table's batches have done so far: these rows copied, in this order, and the first `moved` of them
   deleted.
   */
  ghost predicate Batches(from: Store, t: Table, cutoff: Time, list: seq<Stored>, moved: nat, to: Store) {
    Listed(from.hot, t, cutoff, list) && Moved(from, list, |list|, moved, to)
  }

  /** Everything a SELECT after some batches means for the batch that follows. */
  lemma SelectAfter(from: Store, t: Table, cutoff: Time, limit: nat, list: seq<Stored>, s: Store, rows: seq<Stored>)
    requires Listed(from.hot, t, cutoff, list) && Moved(from, list, |list|, |list|, s)
             && rows == SelectBatch(s.hot, t, cutoff, limit)
    ensures Listed(from.hot, t, cutoff, list + rows) && |rows| <= limit
    ensures |rows| < limit ==> NoPrior(Delete(s.hot, rows), t, cutoff)
    ensures |list + rows| <= |from.hot|
    ensures IsFront(from.hot, t, cutoff, list) ==>
              IsFront(from.hot, t, cutoff, list + rows)
                && (|rows| < limit ==> |list + rows| == |Prior(from.hot, t, cutoff)|)
  {
    assert list[..|list|] == list;
    SelectedRows(s.hot, t, cutoff, limit);
    ListedOn(from.hot, t, cutoff, list, rows);
    ListedCount(from.hot, t, cutoff, list + rows);
    if IsFront(from.hot, t, cutoff, list) { FrontOn(from.hot, t, cutoff, list, limit); }
  }

  /** What one batch leaves: nothing, the rows copied, or the rows copied and deleted. */
  function Committed(s: Store, rows: seq<Stored>, inserted: bool, deleted: bool): Store {
    Store(if deleted then Delete(s.hot, rows) else s.hot, if inserted then InsertAll(s.archive, rows) else s.archive)
  }

  /** The rows in the archive after a batch, and how the batch went. */
  ghost predicate BatchDone(
      from: Store, t: Table, cutoff: Time, limit: nat, rows: nat, list: seq<Stored>, more: seq<Stored>,
      inserted: bool, deleted: bool, to: Store)
  {
    && rows <= limit && |more| == (|list| + if inserted then rows else 0) && |more| <= |from.hot|
    && Batches(from, t, cutoff, more, |list| + if deleted then rows else 0, to)
    && (rows < limit && deleted ==> NoPrior(to.hot, t, cutoff))
    && (IsFront(from.hot, t, cutoff, list) ==>
          && IsFront(from.hot, t, cutoff, more)
          && (rows < limit && inserted ==> |more| == |Prior(from.hot, t, cutoff)|))
  }

  lemma BatchesLater(from: Store, t: Table, cutoff: Time, later: Time, list: seq<Stored>, moved: nat, s: Store)
    requires Batches(from, t, cutoff, list, moved, s) && cutoff <= later
    ensures Batches(from, t, later, list, moved, s)
  {
  }

  lemma BatchOutcome(from: Store, t: Table, cutoff: Time, limit: nat, list: seq<Stored>, s: Store, rows: seq<Stored>,
      inserted: bool, deleted: bool)
    requires Batches(from, t, cutoff, list, |list|, s) && rows == SelectBatch(s.hot, t, cutoff, limit)
    requires deleted ==> inserted
    ensures BatchDone(from, t, cutoff, limit, |rows|, list, if inserted then list + rows else list,
              inserted, deleted, Committed(s, rows, inserted, deleted))
  {
    if inserted {
      SelectAfter(from, t, cutoff, limit, list, s, rows);
      BatchMoves(from, list, rows, s);
      BatchCopied(from, t, cutoff, limit, |rows|, list, list + rows, deleted, Committed(s, rows, true, deleted));
    } else {
      SelectedRows(s.hot, t, cutoff, limit);
      ListedCount(from.hot, t, cutoff, list);
    }
  }

  lemma BatchCopied(from: Store, t: Table, cutoff: Time, limit: nat, rows: nat, list: seq<Stored>, more: seq<Stored>,
      deleted: bool, to: Store)
    requires Listed(from.hot, t, cutoff, more) && rows <= limit && |more| == |list| + rows <= |from.hot|
    requires Moved(from, more, |more|, |list| + if deleted then rows else 0, to)
    requires rows < limit && deleted ==> NoPrior(to.hot, t, cutoff)
    requires IsFront(from.hot, t, cutoff, list) ==>
               IsFront(from.hot, t, cutoff, more) && (rows < limit ==> |more| == |Prior(from.hot, t, cutoff)|)
    ensures BatchDone(from, t, cutoff, limit, rows, list, more, true, deleted, to)
  {
  }

  /** Whatever has been selected since was begun before the deadline. */
  predicate InTime(before: seq<Time>, after: seq<Time>, deadline: Time) {
    before <= after && forall i | |before| <= i < |after| :: after[i] < deadline
  }

  lemma InTimeOn(before: seq<Time>, middle: seq<Time>, after: seq<Time>, deadline: Time)
    requires InTime(before, middle, deadline) && InTime(middle, after, deadline)
    ensures InTime(before, after, deadline)
  {
  }

  /** One batch: the SELECT, the archive transaction, and once it has committed the hot one. */
  method MoveBatch(r: Region, t: Table, limit: nat, ghost from: Store, ghost list: seq<Stored>)
    returns (rows: nat, inserted: bool, deleted: bool, ghost more: seq<Stored>)
    requires Batches(from, t, r.cutoff, list, |list|, r.Stores())
    modifies r`hot, r`archive, r`cutoff, r`failures, r`selects
    ensures r.selects == old(r.selects) + [r.now]
    ensures r.cutoff >= old(r.cutoff) && (deleted ==> inserted) && (rows == 0 ==> inserted && deleted)
    ensures r.failures == old(r.failures) + if deleted then 0 else 1
    ensures BatchDone(from, t, r.cutoff, limit, rows, list, more, inserted, deleted, r.Stores())
  {
    ghost var s, cutoff := r.Stores(), r.cutoff;
    var batch := r.SelectBatchRows(t, limit);
    BatchesLater(from, t, cutoff, r.cutoff, list, |list|, s);
    rows, inserted, deleted := |batch|, true, true;
    if rows > 0 {
      inserted, deleted := CommitBatch(r, batch);
    }
    BatchOutcome(from, t, r.cutoff, limit, list, s, batch, inserted, deleted);
    more := if inserted then list + batch else list;
    assert batch == [] ==> Committed(s, batch, true, true) == s;
  }

  /** The archive transaction, and once it has committed the hot one. */
  method CommitBatch(r: Region, rows: seq<Stored>) returns (inserted: bool, deleted: bool)
    modifies r`hot, r`archive, r`failures
    ensures deleted ==> inserted
    ensures r.Stores() == Committed(old(r.Stores()), rows, inserted, deleted)
    ensures r.failures == old(r.failures) + if deleted then 0 else 1
  {
    deleted := false;
    inserted := r.InsertIgnoringConflicts(rows);
    if inserted {
      deleted := r.DeleteByIds(rows);
    }
  }

  /** One turn of the loop, after full batches only; only another full batch lets it go on. */
  method NextBatch(r: Region, t: Table, batchSize: nat, moved0: nat, batches0: nat, ghost from: Store, ghost low: Time,
      ghost list0: seq<Stored>)
    returns (ok: bool, full: bool, moved: nat, batches: nat, ghost list: seq<Stored>)
    requires Batches(from, t, r.cutoff, list0, moved0, r.Stores()) && moved0 == |list0| && r.cutoff >= low
    requires Batched(moved0, batches0, batchSize) && moved0 == RowsIn(batches0, batchSize)
    requires r.cutoff == low ==> IsFront(from.hot, t, low, list0)
    modifies r`hot, r`archive, r`cutoff, r`failures, r`selects
    ensures r.selects == old(r.selects) + [r.now]
    ensures r.cutoff >= old(r.cutoff) && Batches(from, t, r.cutoff, list, moved, r.Stores())
    ensures r.failures == old(r.failures) + if ok then 0 else 1
    ensures |list| <= moved + batchSize && |list| <= |from.hot| && (batchSize == 0 ==> ok && moved == moved0)
    ensures ok ==> moved == |list| && Batched(moved, batches, batchSize)
    ensures full ==> ok && moved == RowsIn(batches, batchSize) && |list| > |list0|
    ensures ok && !full && batchSize > 0 ==> NoPrior(r.hot, t, low)
    ensures r.cutoff == low ==> IsFront(from.hot, t, low, list)
    ensures r.cutoff == low && ok && !full && batchSize > 0 ==> moved == |Prior(from.hot, t, low)|
  {
    var rows, inserted, deleted;
    rows, inserted, deleted, list := MoveBatch(r, t, batchSize, from, list0);
    ok, full, moved, batches := true, false, moved0, batches0;
    if rows == 0 { return; }
    ok := deleted;
    if !deleted { return; }
    CountBatch(moved, batches, batchSize, rows);
    moved := moved + rows;
    batches := batches + 1;
    full := rows == batchSize;
  }

  /**
   Batches until the table is empty of prior rows or the deadline has passed, each with the cutoff of its
   moment. Whatever happens in between, a failure of either transaction included, the rows copied are prior
   rows of the table, `moved` of them gone from hot, and at most one batch is copied and not moved. While
   the year does not turn they are a front of the table in id order, as if it had been moved at once.
   */
  method MoveTableBatches(r: Region, t: Table, batchSize: nat, deadline: Time)
    returns (ok: bool, moved: nat, batches: nat, ghost list: seq<Stored>)
    modifies r`hot, r`archive, r`now, r`cutoff, r`failures, r`selects
    ensures r.cutoff >= old(r.cutoff) && r.now >= old(r.now) && InTime(old(r.selects), r.selects, deadline)
    ensures r.failures == old(r.failures) + if ok then 0 else 1
    ensures Batches(old(r.Stores()), t, r.cutoff, list, moved, r.Stores()) && |list| <= moved + batchSize
    ensures ok ==> moved == |list| && Batched(moved, batches, batchSize)
    ensures ok && batchSize > 0 ==> NoPrior(r.hot, t, old(r.cutoff)) || r.now >= deadline
    ensures batchSize == 0 ==> ok && moved == 0
    ensures r.cutoff == old(r.cutoff) ==>
              && IsFront(old(r.hot), t, r.cutoff, list)
              && (ok && batchSize > 0 ==> moved == |Prior(old(r.hot), t, r.cutoff)| || r.now >= deadline)
  {
    ghost var from, low := r.Stores(), r.cutoff;
    ok, moved, batches, list := true, 0, 0, [];
    NothingMoved(from);
    var now := r.Now();
    while now < deadline
      invariant Batches(from, t, r.cutoff, list, moved, r.Stores()) && ok && moved == |list|
      invariant Batched(moved, batches, batchSize) && moved == RowsIn(batches, batchSize)
      invariant now == r.now >= old(r.now) && r.cutoff >= low && r.failures == old(r.failures)
      invariant InTime(old(r.selects), r.selects, deadline)
      invariant |list| <= |from.hot| && (batchSize == 0 ==> moved == 0)
      invariant r.cutoff == low ==> IsFront(from.hot, t, low, list)
      decreases |from.hot| - |list|
    {
      var full;
      ok, full, moved, batches, list := NextBatch(r, t, batchSize, moved, batches, from, low, list);
      if !full { break; }
      now := r.Now();
    }
  }

  lemma FrontIsProgress(from: Store, t: Table, cutoff: Time, list: seq<Stored>, moved: nat, to: Store)
    requires IsFront(from.hot, t, cutoff, list) && Moved(from, list, |list|, moved, to)
    ensures Progress(from, t, cutoff, |list|, moved, to)
  {
    var p := Prior(from.hot, t, cutoff);
    assert list[..moved] == p[..moved] && list[..|list|] == p[..|list|];
  }

  /* ---- one run ---- */

  datatype TableResult = TableResult(table: Table, moved: nat, batches: nat)

  datatype RunResult =
    | SkippedLockHeld
    | Threw
    | Ran(startedAt: Time, duration: int, totalMoved: nat, perTable: seq<TableResult>, timedOut: bool)

  function RowsMoved(perTable: seq<TableResult>): nat {
    if perTable == [] then 0 else RowsMoved(perTable[..|perTable| - 1]) + perTable[|perTable| - 1].moved
  }

  /** One report per table walked, in the order of the walk, its rows moved in batches of the given size. */
  predicate Reported(perTable: seq<TableResult>, specs: seq<Table>, size: nat) {
    && |perTable| <= |specs|
    && forall j | 0 <= j < |perTable| ::
         perTable[j].table == specs[j] && Batched(perTable[j].moved, perTable[j].batches, size)
  }

  lemma OneReportMore(perTable: seq<TableResult>, specs: seq<Table>, size: nat, moved: nat, batches: nat)
    requires Reported(perTable, specs, size) && |perTable| < |specs| && Batched(moved, batches, size)
    ensures var more := perTable + [TableResult(specs[|perTable|], moved, batches)];
            Reported(more, specs, size) && RowsMoved(more) == RowsMoved(perTable) + moved
  {
    RowsAddUp(perTable, TableResult(specs[|perTable|], moved, batches));
  }

  lemma RowsAddUp(perTable: seq<TableResult>, last: TableResult)
    ensures RowsMoved(perTable + [last]) == RowsMoved(perTable) + last.moved
  {
    assert (perTable + [last])[..|perTable|] == perTable;
  }

  lemma ProgressWhole(from: Store, t: Table, cutoff: Time, to: Store)
    requires Progress(from, t, cutoff, |Prior(from.hot, t, cutoff)|, |Prior(from.hot, t, cutoff)|, to)
    ensures to == MoveTable(from, t, cutoff)
  {
    var p := Prior(from.hot, t, cutoff);
    assert p[..|p|] == p;
  }

  /** What one table adds to the walk while the year stays the same. */
  lemma TableWalked(from: Store, cutoff: Time, specs: seq<Table>, n: nat, at: Store, copied: nat, moved: nat, to: Store)
    requires StoppedAt(from, cutoff, specs, n, at, copied, moved, to)
    ensures StoppedShort(from, cutoff, specs, to)
    ensures moved == copied == |Prior(at.hot, specs[n], cutoff)| ==> Reaches(from, cutoff, specs, n + 1, to)
  {
    if moved == copied == |Prior(at.hot, specs[n], cutoff)| {
      ProgressWhole(at, specs[n], cutoff, to);
      ReachesNext(from, cutoff, specs, n, at);
    }
  }

  /** Between two tables nothing of the next one has moved. */
  lemma StoppedBetween(from: Store, cutoff: Time, specs: seq<Table>, n: nat, to: Store)
    requires n < |specs| && Reaches(from, cutoff, specs, n, to)
    ensures StoppedShort(from, cutoff, specs, to)
  {
    NothingMoved(to);
    assert IsFront(to.hot, specs[n], cutoff, []);
    FrontIsProgress(to, specs[n], cutoff, [], 0, to);
    assert StoppedAt(from, cutoff, specs, n, to, 0, 0, to);
  }

  lemma ReachesItself(from: Store, cutoff: Time, specs: seq<Table>)
    ensures Reaches(from, cutoff, specs, 0, from)
  {
    assert IsTrail([from], cutoff, specs, 0);
  }

  /** Every row of whatever history the store held is held afterwards, once, as it was. */
  ghost predicate KeepsRows(from: Store, low: Time, cutoff: Time, to: Store) {
    forall history | StoreOk(history, low, from) :: StoreOk(history, cutoff, to)
  }

  lemma BatchesKeepRows(from: Store, t: Table, low: Time, cutoff: Time, list: seq<Stored>, moved: nat, to: Store)
    requires low <= cutoff && Batches(from, t, cutoff, list, moved, to)
    ensures KeepsRows(from, low, cutoff, to)
  {
    forall history | StoreOk(history, low, from) ensures StoreOk(history, cutoff, to) {
      forall x | x in list ensures Known(history, cutoff, x) { assert IsPrior(from.hot, t, cutoff, x); }
      assert list[..|list|] == list;
      assert StoreOk(history, cutoff, from);
      CopyKeepsStore(history, cutoff, from, list);
      forall x | x in list[..moved] ensures x in list {}
      DeleteKeepsStore(history, cutoff, Store(from.hot, InsertAll(from.archive, list)), list[..moved]);
    }
  }

  /** Only prior rows of this table have left hot, and only its rows have come into the archive. */
  ghost predicate Touches(from: Store, t: Table, cutoff: Time, to: Store) {
    && (forall k | k in to.hot :: k in from.hot && to.hot[k] == from.hot[k])
    && (forall k | k in from.hot && (k.table != t || from.hot[k].ts >= cutoff) :: k in to.hot)
    && (forall x | x in to.archive :: x in from.archive || x.key.table == t)
  }

  lemma BatchesTouch(from: Store, t: Table, cutoff: Time, list: seq<Stored>, moved: nat, to: Store)
    requires Batches(from, t, cutoff, list, moved, to)
    ensures Touches(from, t, cutoff, to)
  {
    DeleteKeys(from.hot, list[..moved]);
    forall k | k in Keys(list[..moved]) ensures k.table == t && k in from.hot && from.hot[k].ts < cutoff {
      var x :| x in list[..moved] && x.key == k;
      assert x in list && IsPrior(from.hot, t, cutoff, x);
    }
    assert list[..|list|] == list;
    forall x | x in to.archive ensures x in from.archive || x.key.table == t {
      InsertOnlyGiven(from.archive, list, x);
      if x in list { assert IsPrior(from.hot, t, cutoff, x); }
    }
  }

  /** The first `n` tables hold nothing older than `low`, and tables from the `m`-th on are as they were. */
  ghost predicate Within(from: Store, low: Time, cutoff: Time, n: nat, m: nat, to: Store) {
    && (forall k | k in to.hot :: k in from.hot && to.hot[k] == from.hot[k])
    && (forall k | k in from.hot && (PlaceOf(k.table) >= m || from.hot[k].ts >= cutoff) :: k in to.hot)
    && (forall x | x in to.archive :: x in from.archive || PlaceOf(x.key.table) < m)
    && (forall k | k in to.hot && PlaceOf(k.table) < n :: to.hot[k].ts >= low)
  }

  lemma WithinNext(from: Store, low: Time, seen: Time, cutoff: Time, clean: nat, n: nat, at: Store, t: Table, to: Store)
    requires Within(from, low, seen, clean, n, at) && seen <= cutoff && PlaceOf(t) == n && Touches(at, t, cutoff, to)
    ensures Within(from, low, cutoff, clean, n + 1, to)
    ensures clean == n && NoPrior(to.hot, t, low) ==> Within(from, low, cutoff, n + 1, n + 1, to)
  {
  }

  ghost predicate InPlace(specs: seq<Table>) {
    forall n | 0 <= n < |specs| :: PlaceOf(specs[n]) == n
  }

  /**
   Where the walk is after `i` tables: `n` of them are clean, and `whole` says that all are moved whole. A batch size
   of zero moves nothing.
   */
  ghost predicate Walking(from: Store, low: Time, specs: seq<Table>, size: nat, i: nat, n: nat, whole: bool,
      cutoff: Time, to: Store)
  {
    && n <= i <= |specs| && low <= cutoff
    && KeepsRows(from, low, cutoff, to) && Within(from, low, cutoff, n, i, to)
    && (size > 0 ==> if whole then n == i else i == n + 1)
    && (cutoff == low && size > 0 ==>
          if whole then Reaches(from, low, specs, i, to) else StoppedShort(from, low, specs, to))
    && (size == 0 ==> to == from && n == 0 && whole)
  }

  /** What the batches of the `n`-th table mean for the walk. */
  lemma WalkedOn(
      from: Store, low: Time, specs: seq<Table>, clean: nat, n: nat, at: Store, seen: Time, list: seq<Stored>,
      moved: nat, ok: bool, batchSize: nat, cutoff: Time, to: Store)
    returns (whole: bool)
    requires n < |specs| && InPlace(specs) && low <= seen <= cutoff && (batchSize > 0 ==> clean == n)
    requires Within(from, low, seen, clean, n, at) && KeepsRows(from, low, seen, at)
    requires seen == low && batchSize > 0 ==> Reaches(from, low, specs, n, at)
    requires Batches(at, specs[n], cutoff, list, moved, to) && (ok ==> moved == |list|)
    requires cutoff == seen ==> IsFront(at.hot, specs[n], cutoff, list)
    ensures whole <==> ok && batchSize > 0 && NoPrior(to.hot, specs[n], low)
                       && (cutoff == seen ==> moved == |Prior(at.hot, specs[n], cutoff)|)
    ensures |to.hot| == |at.hot| - moved && KeepsRows(from, low, cutoff, to)
    ensures Within(from, low, cutoff, if whole then n + 1 else clean, n + 1, to)
    ensures cutoff == low && batchSize > 0 ==>
              if whole then Reaches(from, low, specs, n + 1, to) else StoppedShort(from, low, specs, to)
  {
    whole := ok && batchSize > 0 && NoPrior(to.hot, specs[n], low)
      && (cutoff == seen ==> moved == |Prior(at.hot, specs[n], cutoff)|);
    MovedCount(at.hot, specs[n], cutoff, list, moved);
    BatchesTouch(at, specs[n], cutoff, list, moved, to);
    WithinNext(from, low, seen, cutoff, clean, n, at, specs[n], to);
    BatchesKeepRows(at, specs[n], seen, cutoff, list, moved, to);
    KeptOn(from, low, seen, at, cutoff, to);
    if cutoff == low && batchSize > 0 {
      FrontIsProgress(at, specs[n], cutoff, list, moved, to);
      assert StoppedAt(from, low, specs, n, at, |list|, moved, to);
      TableWalked(from, low, specs, n, at, |list|, moved, to);
    }
  }

  lemma KeptOn(from: Store, low: Time, seen: Time, at: Store, cutoff: Time, to: Store)
    requires KeepsRows(from, low, seen, at) && KeepsRows(at, seen, cutoff, to)
    ensures KeepsRows(from, low, cutoff, to)
  {
  }

  /** One table of the walk, taken up when all earlier ones are moved whole. */
  method WalkTable(r: Region, specs: seq<Table>, i: nat, batchSize: nat, deadline: Time, ghost from: Store,
      ghost low: Time, ghost clean: nat)
    returns (ok: bool, moved: nat, batches: nat, ghost whole: bool)
    requires i < |specs| && InPlace(specs)
    requires Walking(from, low, specs, batchSize, i, clean, true, r.cutoff, r.Stores())
    modifies r`hot, r`archive, r`now, r`cutoff, r`failures, r`selects
    ensures InTime(old(r.selects), r.selects, deadline)
    ensures r.cutoff >= old(r.cutoff) && r.now >= old(r.now) && |r.hot| == |old(r.hot)| - moved
    ensures r.failures == old(r.failures) + (if ok then 0 else 1) && (ok ==> Batched(moved, batches, batchSize))
    ensures var n := if whole && batchSize > 0 then i + 1 else clean;
            Walking(from, low, specs, batchSize, i + 1, n, whole, r.cutoff, r.Stores())
    ensures ok && !whole ==> r.now >= deadline
    ensures whole ==> ok
  {
    ghost var at, seen := r.Stores(), r.cutoff;
    ghost var list;
    ok, moved, batches, list := MoveTableBatches(r, specs[i], batchSize, deadline);
    whole := WalkedOn(from, low, specs, clean, i, at, seen, list, moved, ok, batchSize, r.cutoff, r.Stores());
    if batchSize == 0 {
      assert list == [];
      NothingMoved(at);
      whole := true;
    }
  }

  /** What a walk that stops here, or is through, has done. */
  ghost predicate Walked(from: Store, low: Time, specs: seq<Table>, size: nat, done: bool, n: nat, cutoff: Time,
      to: Store)
  {
    && n <= |specs| && low <= cutoff
    && KeepsRows(from, low, cutoff, to) && Within(from, low, cutoff, n, n + 1, to)
    && (done && size > 0 ==> n == |specs|)
    && (cutoff == low && size > 0 ==>
          || Reaches(from, low, specs, |specs|, to)
          || (!done && StoppedShort(from, low, specs, to)))
    && (size == 0 ==> to == from)
  }

  lemma WalkBegins(from: Store, low: Time, specs: seq<Table>, size: nat)
    ensures Walking(from, low, specs, size, 0, 0, true, low, from) && Counted(from, from, specs, size, 0, [])
  {
    ReachesItself(from, low, specs);
  }

  lemma WalkStops(from: Store, low: Time, specs: seq<Table>, size: nat, i: nat, n: nat, whole: bool, cutoff: Time,
      to: Store, done: bool)
    requires Walking(from, low, specs, size, i, n, whole, cutoff, to) && InPlace(specs)
    requires done ==> i == |specs| && whole
    ensures Walked(from, low, specs, size, done, n, cutoff, to)
  {
    if whole && i < |specs| && cutoff == low && size > 0 { StoppedBetween(from, low, specs, i, to); }
  }

  /** The rows that have left hot, as the run counts and reports them after some tables. */
  predicate Counted(from: Store, to: Store, specs: seq<Table>, size: nat, total: nat, perTable: seq<TableResult>) {
    total == |from.hot| - |to.hot| == RowsMoved(perTable) && Reported(perTable, specs, size)
  }

  /** One table, taken up when all earlier ones are moved whole, and its report. */
  method NextTable(r: Region, specs: seq<Table>, batchSize: nat, deadline: Time, total0: nat,
      perTable0: seq<TableResult>, ghost from: Store, ghost low: Time, ghost n0: nat)
    returns (ok: bool, total: nat, perTable: seq<TableResult>, ghost n: nat, ghost whole: bool)
    requires |perTable0| < |specs| && InPlace(specs)
    requires Walking(from, low, specs, batchSize, |perTable0|, n0, true, r.cutoff, r.Stores())
    requires Counted(from, r.Stores(), specs, batchSize, total0, perTable0)
    modifies r`hot, r`archive, r`now, r`cutoff, r`failures, r`selects
    ensures InTime(old(r.selects), r.selects, deadline) && r.now >= old(r.now)
    ensures r.failures == old(r.failures) + if ok then 0 else 1
    ensures Walking(from, low, specs, batchSize, |perTable0| + 1, n, whole, r.cutoff, r.Stores())
    ensures ok ==> |perTable| == |perTable0| + 1 && Counted(from, r.Stores(), specs, batchSize, total, perTable)
    ensures ok && !whole ==> r.now >= deadline
  {
    var moved, batches;
    var i := |perTable0|;
    ok, moved, batches, whole := WalkTable(r, specs, i, batchSize, deadline, from, low, n0);
    n := if whole && batchSize > 0 then i + 1 else n0;
    total, perTable := total0, perTable0;
    if ok {
      OneReportMore(perTable, specs, batchSize, moved, batches);
      perTable := perTable + [TableResult(specs[i], moved, batches)];
      total := total + moved;
    }
  }

  /**
   The walk over the tables, which looks at the clock before and after each one; `n` is the table it stopped at. It
   throws exactly when a transaction has failed, and has timed out exactly when its last look was past the deadline.
   */
  method WalkTables(r: Region, specs: seq<Table>, batchSize: nat, deadline: Time)
    returns (ok: bool, totalMoved: nat, perTable: seq<TableResult>, timedOut: bool, ghost n: nat)
    requires InPlace(specs) && specs != []
    modifies r`hot, r`archive, r`now, r`cutoff, r`failures, r`selects
    ensures InTime(old(r.selects), r.selects, deadline) && r.now >= old(r.now)
    ensures r.failures == old(r.failures) + if ok then 0 else 1
    ensures ok ==> (timedOut <==> r.now >= deadline)
    ensures Walked(old(r.Stores()), old(r.cutoff), specs, batchSize, ok && !timedOut, n, r.cutoff, r.Stores())
    ensures ok ==> Counted(old(r.Stores()), r.Stores(), specs, batchSize, totalMoved, perTable)
    ensures ok && !timedOut ==> |perTable| == |specs|
  {
    ghost var from, low := r.Stores(), r.cutoff;
    ok, totalMoved, perTable, timedOut, n := true, 0, [], false, 0;
    WalkBegins(from, low, specs, batchSize);
    ghost var i, whole, at, cutoff := 0, true, from, low;
    while |perTable| < |specs|
      invariant ok && r.now >= old(r.now) && r.failures == old(r.failures) && i == |perTable|
      invariant InTime(old(r.selects), r.selects, deadline)
      invariant at == r.Stores() && cutoff == r.cutoff
      invariant Walking(from, low, specs, batchSize, i, n, whole, cutoff, at)
      invariant !whole ==> timedOut
      invariant timedOut <==> |perTable| > 0 && r.now >= deadline
      invariant Counted(from, at, specs, batchSize, totalMoved, perTable)
    {
      var now := r.Now();
      if now >= deadline {
        timedOut := true;
        break;
      }
      ghost var before := r.selects;
      ok, totalMoved, perTable, n, whole :=
        NextTable(r, specs, batchSize, deadline, totalMoved, perTable, from, low, n);
      i, at, cutoff := i + 1, r.Stores(), r.cutoff;
      InTimeOn(old(r.selects), before, r.selects, deadline);
      if !ok { break; }
      now := r.Now();
      timedOut := timedOut || now >= deadline;
    }
    WalkStops(from, low, specs, batchSize, i, n, whole, cutoff, at, ok && !timedOut);
  }

  /** No row is left in hot that was of an earlier year at that time. */
  ghost predicate NothingPrior(hot: Hot, cutoff: Time) {
    forall k | k in hot :: hot[k].ts >= cutoff
  }

  lemma AllTablesClean(from: Store, low: Time, cutoff: Time, to: Store)
    requires Within(from, low, cutoff, |TABLE_SPECS|, |TABLE_SPECS| + 1, to)
    ensures NothingPrior(to.hot, low)
  {
    SpecsInPlace();
    forall k | k in to.hot ensures to.hot[k].ts >= low {
      assert PlaceOf(k.table) < |TABLE_SPECS|;
    }
  }

  /**
   Unless the lock was held, the run throws exactly when a transaction fails, and times out exactly when its last look
   at the clock, `looked`, was a runtime or more after its start; after such a look it selects no batch. A run
   without a failure that ends before that has left nothing in hot that was prior when it began; any other that took
   the lock stopped at one table, with all earlier ones emptied and all later ones untouched. While the year stays
   the same, moving is exact: as if each table had been moved at once. However it ends, no row of any history is
   lost, changed or archived twice, the totals are the numbers of rows that left hot, and the lock is given back.
   */
  method RunArchivalForRegion(r: Region, batchSize: nat, runtime: nat)
    returns (res: RunResult, ghost n: nat, ghost looked: Time)
    modifies r
    ensures res.SkippedLockHeld? <==> old(r.locked)
    ensures res.SkippedLockHeld? || batchSize == 0 ==> r.Stores() == old(r.Stores())
    ensures r.locked == old(r.locked) && r.cutoff >= old(r.cutoff) && r.now >= old(r.now)
    ensures res.Threw? <==> r.failures > old(r.failures)
    ensures res.Ran? ==> old(r.now) <= res.startedAt <= looked <= r.now == res.startedAt + res.duration
    ensures res.Ran? ==> (res.timedOut <==> looked >= res.startedAt + runtime)
    ensures res.Ran? ==> InTime(old(r.selects), r.selects, res.startedAt + runtime)
    ensures res.Ran? && r.now < res.startedAt + runtime && batchSize > 0 ==> NothingPrior(r.hot, old(r.cutoff))
    ensures !res.SkippedLockHeld? ==>
              Walked(old(r.Stores()), old(r.cutoff), TABLE_SPECS, batchSize, res.Ran? && !res.timedOut, n, r.cutoff,
                     r.Stores())
    ensures res.Ran? ==>
              && Counted(old(r.Stores()), r.Stores(), TABLE_SPECS, batchSize, res.totalMoved, res.perTable)
              && (!res.timedOut ==> |res.perTable| == |TABLE_SPECS|)
  {
    if r.locked { return SkippedLockHeld, 0, r.now; }
    r.locked := true;
    var startedAt := r.Now();
    SpecsInPlace();
    var ok, totalMoved, perTable, timedOut;
    ok, totalMoved, perTable, timedOut, n := WalkTables(r, TABLE_SPECS, batchSize, startedAt + runtime);
    looked := r.now;
    r.locked := false;
    if !ok { return Threw, n, looked; }
    if !timedOut && batchSize > 0 { AllTablesClean(old(r.Stores()), old(r.cutoff), r.cutoff, r.Stores()); }
    var now := r.Now();
    res := Ran(startedAt, now - startedAt, totalMoved, perTable, timedOut);
  }
}
