/**
 The hot and the archive cluster of one region: what a batch SELECT returns, what the conflict-ignoring
 INSERT and the DELETE do, and that a table moved in batches ends as if it had been moved at once.
 */
module ArchivalStore {
  import opened Types
  import opened IdOrder

  datatype Table = AgentEarnings | WebhookEvents | PaymentSessions | Transactions | OrderItems | Orders

  /** The walk order: every table that refers to an order before the orders themselves. */
  const TABLE_SPECS: seq<Table> := [AgentEarnings, WebhookEvents, PaymentSessions, Transactions, OrderItems, Orders]

  /** A table's place in that order. */
  function PlaceOf(t: Table): nat {
    match t
    case AgentEarnings => 0
    case WebhookEvents => 1
    case PaymentSessions => 2
    case Transactions => 3
    case OrderItems => 4
    case Orders => 5
  }

  lemma SpecsInPlace()
    ensures |TABLE_SPECS| == 6 && forall n | 0 <= n < |TABLE_SPECS| :: PlaceOf(TABLE_SPECS[n]) == n
    ensures forall t :: TABLE_SPECS[PlaceOf(t)] == t
  {
  }

  /** A bigserial primary key and the table it belongs to. */
  datatype RowId = RowId(table: Table, id: nat)

  /** The row's own timestamp column and all its other columns. */
  datatype Row = Row(ts: Time, content: nat)

  datatype Stored = Stored(key: RowId, row: Row)

  type Hot = map<RowId, Row>
  type Archive = seq<Stored>

  datatype Store = Store(hot: Hot, archive: Archive)

  /* ---- the batch SELECT: WHERE ts < cutoff ORDER BY id LIMIT n ---- */

  /** The rows under some ids of a table, in id order. */
  function RowsOf(hot: Hot, t: Table, ids: set<nat>): seq<Stored>
    requires forall id | id in ids :: RowId(t, id) in hot
  {
    if ids == {} then []
    else
      var first := Least(ids);
      [Stored(RowId(t, first), hot[RowId(t, first)])] + RowsOf(hot, t, ids - {first})
  }

  lemma {:induction false} RowsOfIds(hot: Hot, t: Table, ids: set<nat>)
    requires forall id | id in ids :: RowId(t, id) in hot
    ensures forall x :: x in RowsOf(hot, t, ids) <==> x.key.table == t && x.key.id in ids && x.row == hot[x.key]
    ensures InIdOrder(RowsOf(hot, t, ids))
  {
    if ids != {} {
      RowsOfIds(hot, t, ids - {Least(ids)});
    }
  }

  predicate IsPrior(hot: Hot, t: Table, cutoff: Time, x: Stored) {
    x.key in hot && x.row == hot[x.key] && x.key.table == t && x.row.ts < cutoff
  }

  function PriorIds(hot: Hot, t: Table, cutoff: Time): set<nat> {
    set k | k in hot && k.table == t && hot[k].ts < cutoff :: k.id
  }

  /** Every row of the table before the cutoff, in id order. */
  function Prior(hot: Hot, t: Table, cutoff: Time): seq<Stored> {
    RowsOf(hot, t, PriorIds(hot, t, cutoff))
  }

  predicate InIdOrder(r: seq<Stored>) {
    forall i, j | 0 <= i < j < |r| :: r[i].key.id < r[j].key.id
  }

  lemma PriorRows(hot: Hot, t: Table, cutoff: Time)
    ensures forall x :: x in Prior(hot, t, cutoff) <==> IsPrior(hot, t, cutoff, x)
    ensures InIdOrder(Prior(hot, t, cutoff))
  {
    RowsOfIds(hot, t, PriorIds(hot, t, cutoff));
    forall x: Stored | IsPrior(hot, t, cutoff, x) ensures x in Prior(hot, t, cutoff) {
      assert x.key.id in PriorIds(hot, t, cutoff);
    }
  }

  function SelectBatch(hot: Hot, t: Table, cutoff: Time, limit: nat): seq<Stored> {
    Take(Prior(hot, t, cutoff), limit)
  }

  /* ---- the DELETE and the INSERT ---- */

  function Keys(rows: seq<Stored>): set<RowId> {
    set x | x in rows :: x.key
  }

  /** DELETE WHERE id IN the ids of some rows. */
  function Delete(hot: Hot, rows: seq<Stored>): Hot {
    if rows == [] then hot else Delete(hot, rows[..|rows| - 1]) - {rows[|rows| - 1].key}
  }

  lemma {:induction false} DeleteKeys(hot: Hot, rows: seq<Stored>)
    ensures Delete(hot, rows) == hot - Keys(rows)
  {
    if rows == [] {
      assert Keys(rows) == {};
    } else {
      var init, last := rows[..|rows| - 1], rows[|rows| - 1];
      DeleteKeys(hot, init);
      assert rows == init + [last];
      assert Keys(rows) == Keys(init) + {last.key};
    }
  }

  /** The unique key of the archived table: the id, and for the partitioned orders the id with its created_at. */
  predicate Conflicts(x: Stored, y: Stored) {
    x.key == y.key && (x.key.table == Orders ==> x.row.ts == y.row.ts)
  }

  predicate Taken(archive: Archive, x: Stored) {
    exists i | 0 <= i < |archive| :: Conflicts(archive[i], x)
  }

  /** INSERT of several rows ON CONFLICT DO NOTHING. */
  function InsertAll(archive: Archive, rows: seq<Stored>): Archive {
    if rows == [] then archive
    else
      var done, last := InsertAll(archive, rows[..|rows| - 1]), rows[|rows| - 1];
      if Taken(done, last) then done else done + [last]
  }

  lemma {:induction false} InsertInTwo(archive: Archive, xs: seq<Stored>, ys: seq<Stored>)
    ensures InsertAll(InsertAll(archive, xs), ys) == InsertAll(archive, xs + ys)
  {
    if ys == [] {
      assert xs + ys == xs;
    } else {
      var init := ys[..|ys| - 1];
      InsertInTwo(archive, xs, init);
      assert (xs + ys)[..|xs + ys| - 1] == xs + init;
    }
  }

  /** One row per key: a key never stands for two different rows. */
  ghost predicate Agree(archive: Archive, rows: seq<Stored>) {
    && (forall x, y | x in archive && y in rows && x.key == y.key :: x == y)
    && (forall x, y | x in rows && y in rows && x.key == y.key :: x == y)
  }

  ghost predicate NoDuplicates(archive: Archive) {
    forall i, j | 0 <= i < j < |archive| :: archive[i].key != archive[j].key
  }

  /** Inserting rows again adds nothing, inserting new ones adds each once. */
  lemma {:induction false} InsertMembers(archive: Archive, rows: seq<Stored>)
    requires Agree(archive, rows)
    ensures forall x :: x in InsertAll(archive, rows) <==> x in archive || x in rows
    ensures NoDuplicates(archive) ==> NoDuplicates(InsertAll(archive, rows))
    ensures archive <= InsertAll(archive, rows)
  {
    if rows != [] {
      var init, last := rows[..|rows| - 1], rows[|rows| - 1];
      forall x | x in init ensures x in rows {}
      InsertMembers(archive, init);
      var done := InsertAll(archive, init);
      assert forall x :: x in rows <==> x in init || x == last;
      if Taken(done, last) {
        var i :| 0 <= i < |done| && Conflicts(done[i], last);
        assert done[i] in done && done[i] == last;
      } else {
        forall i | 0 <= i < |done| ensures done[i].key != last.key {
          assert done[i] in done && !Conflicts(done[i], last);
        }
      }
    }
  }

  /* ---- moving a table in batches is moving it at once ---- */

  /** A sequence in id order that holds exactly the prior rows is the SELECT's result. */
  lemma PriorUnique(hot: Hot, t: Table, cutoff: Time, r: seq<Stored>)
    requires forall x :: x in r <==> IsPrior(hot, t, cutoff, x)
    requires InIdOrder(r)
    ensures r == Prior(hot, t, cutoff)
  {
    var p := Prior(hot, t, cutoff);
    PriorRows(hot, t, cutoff);
    assert forall x :: x in r <==> x in p;
    SameOrdered(r, p);
  }

  lemma {:induction false} SameOrdered(a: seq<Stored>, b: seq<Stored>)
    requires forall x :: x in a <==> x in b
    requires InIdOrder(a) && InIdOrder(b)
    ensures a == b
  {
    if b != [] { assert b[|b| - 1] in a; }
    if a != [] {
      assert a[|a| - 1] in b;
      var n, m := |a| - 1, |b| - 1;
      assert a[n] == b[m];
      forall x ensures x in a[..n] <==> x in b[..m] {
        if x in a[..n] { assert x in a && x in b && x != a[n]; }
        if x in b[..m] { assert x in b && x in a && x != b[m]; }
      }
      SameOrdered(a[..n], b[..m]);
      assert a == a[..n] + [a[n]] && b == b[..m] + [b[m]];
    }
  }

  /** Deleting the first rows of the SELECT leaves the others for the next one. */
  lemma PriorAfterDelete(hot: Hot, t: Table, cutoff: Time, n: nat)
    requires n <= |Prior(hot, t, cutoff)|
    ensures Prior(Delete(hot, Prior(hot, t, cutoff)[..n]), t, cutoff) == Prior(hot, t, cutoff)[n..]
  {
    var p := Prior(hot, t, cutoff);
    var left := Delete(hot, p[..n]);
    DeleteKeys(hot, p[..n]);
    PriorRows(hot, t, cutoff);
    forall x ensures x in p[n..] <==> IsPrior(left, t, cutoff, x) {
      if x in p[n..] {
        KeptKey(p, n, x);
      } else if x in p {
        assert x in p[..n];
      }
    }
    PriorUnique(left, t, cutoff, p[n..]);
  }

  lemma KeptKey(p: seq<Stored>, n: nat, x: Stored)
    requires n <= |p| && x in p[n..] && InIdOrder(p)
    ensures x in p && x.key !in Keys(p[..n])
  {
    var j :| n <= j < |p| && p[j] == x;
    forall y | y in p[..n] ensures y.key != x.key {
      var i :| 0 <= i < n && p[i] == y;
    }
  }

  lemma DeleteInTwo(hot: Hot, p: seq<Stored>, n: nat, m: nat)
    requires n <= m <= |p|
    ensures Delete(Delete(hot, p[..n]), p[n..m]) == Delete(hot, p[..m])
  {
    DeleteKeys(hot, p[..n]);
    DeleteKeys(Delete(hot, p[..n]), p[n..m]);
    DeleteKeys(hot, p[..m]);
    assert p[..m] == p[..n] + p[n..m];
    assert Keys(p[..m]) == Keys(p[..n]) + Keys(p[n..m]);
  }

  lemma InsertOnlyGiven(archive: Archive, rows: seq<Stored>, x: Stored)
    requires x in InsertAll(archive, rows)
    ensures x in archive || x in rows
    decreases |rows|
  {
    if rows != [] && x in InsertAll(archive, rows[..|rows| - 1]) {
      InsertOnlyGiven(archive, rows[..|rows| - 1], x);
    }
  }

  /** A row whose key is taken by another version of it can never get in. */
  lemma {:induction false} InsertKeepsOut(archive: Archive, rows: seq<Stored>, x: Stored)
    requires x !in archive && Taken(archive, x)
    ensures x !in InsertAll(archive, rows) && Taken(InsertAll(archive, rows), x)
  {
    if rows != [] {
      InsertKeepsOut(archive, rows[..|rows| - 1], x);
      var done := InsertAll(archive, rows[..|rows| - 1]);
      var i :| 0 <= i < |done| && Conflicts(done[i], x);
      assert InsertAll(archive, rows)[i] == done[i];
    }
  }

  /* ---- nothing lost, nothing twice ---- */

  predicate Known(history: Hot, cutoff: Time, x: Stored) {
    x.key in history && history[x.key] == x.row && x.row.ts < cutoff
  }

  ghost predicate AllKnown(history: Hot, cutoff: Time, rows: seq<Stored>) {
    forall x | x in rows :: Known(history, cutoff, x)
  }

  predicate Kept(history: Hot, store: Store, k: RowId)
    requires k in history
  {
    k in store.hot || Stored(k, history[k]) in store.archive
  }

  /** Every row of the history is in hot or archived, as it is; the archive holds prior rows only, one per key. */
  ghost predicate StoreOk(history: Hot, cutoff: Time, store: Store) {
    && (forall k | k in store.hot :: k in history && history[k] == store.hot[k])
    && (forall k | k in history :: Kept(history, store, k))
    && AllKnown(history, cutoff, store.archive)
    && NoDuplicates(store.archive)
  }

  lemma CopyKeepsStore(history: Hot, cutoff: Time, store: Store, rows: seq<Stored>)
    requires StoreOk(history, cutoff, store) && AllKnown(history, cutoff, rows)
    ensures StoreOk(history, cutoff, Store(store.hot, InsertAll(store.archive, rows)))
    ensures forall x | x in rows || x in store.archive :: x in InsertAll(store.archive, rows)
  {
    forall x, y | (x in store.archive || x in rows) && y in rows && x.key == y.key ensures x == y {
      assert Known(history, cutoff, x) && Known(history, cutoff, y);
    }
    InsertMembers(store.archive, rows);
    forall k | k in history ensures Kept(history, Store(store.hot, InsertAll(store.archive, rows)), k) {
      assert Kept(history, store, k);
    }
  }

  lemma DeleteKeepsStore(history: Hot, cutoff: Time, store: Store, rows: seq<Stored>)
    requires StoreOk(history, cutoff, store) && forall x | x in rows :: x in store.archive
    ensures StoreOk(history, cutoff, Store(Delete(store.hot, rows), store.archive))
  {
    DeleteKeys(store.hot, rows);
    forall k | k in history ensures Kept(history, Store(Delete(store.hot, rows), store.archive), k) {
      assert Kept(history, store, k);
      if k in Keys(rows) {
        var x :| x in rows && x.key == k;
        assert Known(history, cutoff, x);
      }
    }
  }
}
