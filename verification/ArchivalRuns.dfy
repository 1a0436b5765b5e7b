/**
 Any number of archival workers at once, with no lock between them: their batch commits interleaved with
 each other, with deaths at any point, with the turn of the year, and with the running application.
 */
module ArchivalRuns {
  import opened Types
  import opened IdOrder
  import opened ArchivalStore
  import opened Archiver

  type WorkerId = nat

  /** A worker named after what it does next; `n` is its place in the walk. */
  datatype Worker =
    | Entering(n: nat, deadline: Time)                       // the look at the clock before a table
    | Looping(n: nat, deadline: Time)                        // the look at the clock before a batch
    | Querying(n: nat, deadline: Time)
    | Copying(n: nat, deadline: Time, batch: seq<Stored>)
    | Deleting(n: nat, deadline: Time, batch: seq<Stored>)
    | Stopped

  /**
   `history` is every row ever inserted, as last updated, wherever it is now; `cutoffs` are all that were ever
   in force.
   */
  datatype Sys = Sys(
    history: Hot, store: Store, now: Time, cutoff: Time, cutoffs: set<Time>, size: nat, workers: map<WorkerId, Worker>)

  datatype Action =
    | Launch(worker: WorkerId, runtime: nat)
    | Advance(worker: WorkerId)
    | Kill(worker: WorkerId)
    | InsertRow(key: RowId, row: Row)
    | UpdateRow(key: RowId, content: nat)
    | Tick(elapsed: nat)
    | NewYear(cutoff: Time)

  function Start(now: Time, cutoff: Time, size: nat): Sys {
    Sys(map[], Store(map[], []), now, cutoff, {cutoff}, size, map[])
  }

  function NextWorker(s: Sys, w: Worker): Worker {
    match w
    case Entering(n, d) => if n >= |TABLE_SPECS| || s.now >= d then Stopped else Looping(n, d)
    case Looping(n, d) => if s.now >= d then Entering(n + 1, d) else Querying(n, d)
    case Querying(n, d) =>
      if n >= |TABLE_SPECS| then Stopped
      else
        var batch := SelectBatch(s.store.hot, TABLE_SPECS[n], s.cutoff, s.size);
        if batch == [] then Entering(n + 1, d) else Copying(n, d, batch)
    case Copying(n, d, batch) => Deleting(n, d, batch)
    case Deleting(n, d, batch) => if |batch| < s.size then Entering(n + 1, d) else Looping(n, d)
    case Stopped => Stopped
  }

  function NextStore(s: Sys, w: Worker): Store {
    match w
    case Copying(_, _, batch) => Store(s.store.hot, InsertAll(s.store.archive, batch))
    case Deleting(_, _, batch) => Store(Delete(s.store.hot, batch), s.store.archive)
    case _ => s.store
  }

  function AdvanceWorker(s: Sys, w: WorkerId): Sys
    requires w in s.workers
  {
    s.(store := NextStore(s, s.workers[w]), workers := s.workers[w := NextWorker(s, s.workers[w])])
  }

  function WriteRow(s: Sys, k: RowId, row: Row): Sys {
    s.(history := s.history[k := row], store := Store(s.store.hot[k := row], s.store.archive))
  }

  /** Rows are inserted under fresh ids, and any row that is still in hot may be updated. */
  function Step(s: Sys, a: Action): Sys {
    match a
    case Launch(w, runtime) => if w in s.workers then s else s.(workers := s.workers[w := Entering(0, s.now + runtime)])
    case Advance(w) => if w in s.workers then AdvanceWorker(s, w) else s
    case Kill(w) => s.(workers := s.workers - {w})
    case InsertRow(k, row) => if k in s.history then s else WriteRow(s, k, row)
    case UpdateRow(k, content) => if k !in s.store.hot then s else WriteRow(s, k, s.store.hot[k].(content := content))
    case Tick(elapsed) => s.(now := s.now + elapsed)
    case NewYear(cutoff) => if cutoff < s.cutoff then s else s.(cutoff := cutoff, cutoffs := s.cutoffs + {cutoff})
  }

  function Exec(s0: Sys, actions: seq<Action>): Sys {
    if actions == [] then s0 else Step(Exec(s0, actions[..|actions| - 1]), actions[|actions| - 1])
  }

  lemma ExecNext(s0: Sys, actions: seq<Action>, a: Action)
    ensures Exec(s0, actions + [a]) == Step(Exec(s0, actions), a)
  {
    assert (actions + [a])[..|actions|] == actions;
  }

  lemma {:induction false} ExecOn(s0: Sys, actions: seq<Action>, more: seq<Action>)
    ensures Exec(s0, actions + more) == Exec(Exec(s0, actions), more)
  {
    if more == [] {
      assert actions + more == actions;
    } else {
      var init := more[..|more| - 1];
      ExecOn(s0, actions, init);
      assert (actions + more)[..|actions + more| - 1] == actions + init;
    }
  }

  /* ---- nothing is lost and nothing is duplicated ---- */

  ghost predicate WorkerOk(s: Sys, w: Worker) {
    && (w.Copying? || w.Deleting? ==> AllKnown(s.history, s.cutoff, w.batch))
    && (w.Deleting? ==> forall x | x in w.batch :: x in s.store.archive)
  }

  ghost predicate SysOk(s: Sys) {
    StoreOk(s.history, s.cutoff, s.store) && forall w | w in s.workers :: WorkerOk(s, s.workers[w])
  }

  /** An older version of the row is in the archive, or in the hands of a worker on its way there. */
  ghost predicate Shadowed(s: Sys, k: RowId) {
    || (exists x | x in s.store.archive :: x.key == k)
    || (exists w | w in s.workers :: HoldsRow(s.workers[w], k))
  }

  predicate HoldsRow(w: Worker, k: RowId) {
    (w.Copying? || w.Deleting?) && k in Keys(w.batch)
  }

  /** An update that changes a row finds it in no one's hands. */
  ghost predicate Gentle(s: Sys, a: Action) {
    a.UpdateRow? && a.key in s.store.hot && s.store.hot[a.key].content != a.content ==> !Shadowed(s, a.key)
  }

  ghost predicate GentleRun(s0: Sys, actions: seq<Action>) {
    actions != [] ==>
      GentleRun(s0, actions[..|actions| - 1]) && Gentle(Exec(s0, actions[..|actions| - 1]), actions[|actions| - 1])
  }

  lemma SelectedAreKnown(s: Sys, t: Table)
    requires StoreOk(s.history, s.cutoff, s.store)
    ensures AllKnown(s.history, s.cutoff, SelectBatch(s.store.hot, t, s.cutoff, s.size))
  {
    SelectedRows(s.store.hot, t, s.cutoff, s.size);
    forall x | x in SelectBatch(s.store.hot, t, s.cutoff, s.size) ensures Known(s.history, s.cutoff, x) {
      assert IsPrior(s.store.hot, t, s.cutoff, x);
    }
  }

  lemma AdvanceKeepsOk(s: Sys, w: WorkerId)
    requires SysOk(s) && w in s.workers
    ensures SysOk(AdvanceWorker(s, w))
  {
    var worker := s.workers[w];
    assert WorkerOk(s, worker);
    match worker
    case Copying(_, _, batch) => CopyKeepsStore(s.history, s.cutoff, s.store, batch);
    case Deleting(_, _, batch) => DeleteKeepsStore(s.history, s.cutoff, s.store, batch);
    case Querying(n, _) => if n < |TABLE_SPECS| { SelectedAreKnown(s, TABLE_SPECS[n]); }
    case _ =>
  }

  /** Writes of the application: a new row, or new contents of a row no older version of which is about. */
  lemma WriteKeepsOk(s: Sys, k: RowId, row: Row)
    requires SysOk(s) && !Shadowed(s, k) && (k in s.history ==> k in s.store.hot)
    ensures SysOk(WriteRow(s, k, row))
  {
    var after := WriteRow(s, k, row);
    forall x | Known(s.history, s.cutoff, x) && x.key != k ensures Known(after.history, after.cutoff, x) {}
    forall p | p in after.history ensures Kept(after.history, after.store, p) {
      if p != k { assert Kept(s.history, s.store, p); }
    }
    forall w | w in s.workers ensures WorkerOk(after, s.workers[w]) {
      assert WorkerOk(s, s.workers[w]) && !HoldsRow(s.workers[w], k);
    }
  }

  /** No older version of a row that never was, or of one of the current year, can be about. */
  lemma FreshIsFree(s: Sys, k: RowId)
    requires SysOk(s) && (k in s.history ==> s.history[k].ts >= s.cutoff)
    ensures !Shadowed(s, k)
  {
    forall w | w in s.workers ensures !HoldsRow(s.workers[w], k) {
      assert WorkerOk(s, s.workers[w]);
    }
  }

  lemma StepKeepsOk(s: Sys, a: Action)
    requires SysOk(s) && Gentle(s, a)
    ensures SysOk(Step(s, a))
  {
    match a
    case Advance(w) => if w in s.workers { AdvanceKeepsOk(s, w); }
    case InsertRow(k, row) =>
      if k !in s.history {
        FreshIsFree(s, k);
        WriteKeepsOk(s, k, row);
      }
    case UpdateRow(k, content) =>
      if k in s.store.hot {
        if s.store.hot[k].content == content { assert WriteRow(s, k, s.store.hot[k].(content := content)) == s; }
        else { WriteKeepsOk(s, k, s.store.hot[k].(content := content)); }
      }
    case _ =>
      forall w | w in Step(s, a).workers ensures WorkerOk(Step(s, a), Step(s, a).workers[w]) {
        if w in s.workers { assert WorkerOk(s, s.workers[w]); }
      }
  }

  lemma {:induction false} GentleKeepsOk(s0: Sys, actions: seq<Action>)
    requires SysOk(s0) && GentleRun(s0, actions)
    ensures SysOk(Exec(s0, actions))
  {
    if actions != [] {
      var prior := actions[..|actions| - 1];
      GentleKeepsOk(s0, prior);
      StepKeepsOk(Exec(s0, prior), actions[|actions| - 1]);
    }
  }

  /**
   Whatever the workers do, wherever they die and whenever the year turns, no row is lost, changed or archived
   twice, as long as no update changes a row an older version of which is archived or on its way there.
   */
  lemma NothingLost(now: Time, cutoff: Time, size: nat, actions: seq<Action>)
    requires GentleRun(Start(now, cutoff, size), actions)
    ensures SysOk(Exec(Start(now, cutoff, size), actions))
  {
    GentleKeepsOk(Start(now, cutoff, size), actions);
  }

  /**
   A row of the current year is in hot as it was last written, no copy of it is archived, and it may be updated
   at any time.
   */
  lemma CurrentYearUntouched(now: Time, cutoff: Time, size: nat, actions: seq<Action>, k: RowId)
    requires GentleRun(Start(now, cutoff, size), actions)
    requires var s := Exec(Start(now, cutoff, size), actions); k in s.history && s.history[k].ts >= s.cutoff
    ensures var s := Exec(Start(now, cutoff, size), actions);
            && k in s.store.hot && s.store.hot[k] == s.history[k] && !Shadowed(s, k)
            && forall i | 0 <= i < |s.store.archive| :: s.store.archive[i].key != k
  {
    var s := Exec(Start(now, cutoff, size), actions);
    NothingLost(now, cutoff, size, actions);
    FreshIsFree(s, k);
    assert Kept(s.history, s.store, k);
    forall i | 0 <= i < |s.store.archive| ensures s.store.archive[i].key != k {
      assert s.store.archive[i] in s.store.archive;
    }
  }

  /* ---- a run that is left alone finishes the job ---- */

  lemma WholeTable(history: Hot, s: Store, t: Table, cutoff: Time)
    requires StoreOk(history, cutoff, s)
    ensures StoreOk(history, cutoff, MoveTable(s, t, cutoff))
    ensures forall k :: k in MoveTable(s, t, cutoff).hot <==> k in s.hot && !(k.table == t && s.hot[k].ts < cutoff)
  {
    var p := Prior(s.hot, t, cutoff);
    PriorRows(s.hot, t, cutoff);
    KeysCount(p);
    assert p[..|p|] == p;
    BatchesKeepRows(s, t, cutoff, cutoff, p, |p|, MoveTable(s, t, cutoff));
    WholeHot(s, t, cutoff);
  }

  lemma WholeHot(s: Store, t: Table, cutoff: Time)
    ensures forall k :: k in MoveTable(s, t, cutoff).hot <==> k in s.hot && !(k.table == t && s.hot[k].ts < cutoff)
  {
    var p := Prior(s.hot, t, cutoff);
    PriorRows(s.hot, t, cutoff);
    DeleteKeys(s.hot, p);
    forall k | k in s.hot && k.table == t && s.hot[k].ts < cutoff ensures k in Keys(p) {
      assert IsPrior(s.hot, t, cutoff, Stored(k, s.hot[k]));
    }
  }

  /** Hot and archive divide the rows exactly at the cutoff. */
  ghost predicate Divided(history: Hot, cutoff: Time, store: Store) {
    && (forall k :: k in store.hot <==> k in history && history[k].ts >= cutoff)
    && (forall x :: x in store.archive <==> Known(history, cutoff, x))
    && (forall k | k in store.hot :: store.hot[k] == history[k])
    && NoDuplicates(store.archive)
  }

  lemma DividedWhenClean(history: Hot, cutoff: Time, store: Store)
    requires StoreOk(history, cutoff, store) && forall k | k in store.hot :: store.hot[k].ts >= cutoff
    ensures Divided(history, cutoff, store) && forall t :: Prior(store.hot, t, cutoff) == []
  {
    forall k | k in history && history[k].ts >= cutoff ensures k in store.hot { assert Kept(history, store, k); }
    forall x | Known(history, cutoff, x) ensures x in store.archive { assert Kept(history, store, x.key); }
    forall t ensures Prior(store.hot, t, cutoff) == [] { FirstPrior(store.hot, t, cutoff); }
  }

  lemma FirstPrior(hot: Hot, t: Table, cutoff: Time)
    ensures Prior(hot, t, cutoff) == [] || exists x: Stored :: IsPrior(hot, t, cutoff, x)
  {
    var p := Prior(hot, t, cutoff);
    PriorRows(hot, t, cutoff);
    if p != [] { assert p[0] in p; }
  }

  /**
   After any history of crashed, killed and timed-out workers, one run that is left alone in one year leaves
   hot with no prior row and the archive with exactly the original prior rows; the next SELECT of every table
   is empty. `to` is what a run that neither threw nor timed out leaves.
   */
  lemma Converges(now: Time, cutoff: Time, size: nat, actions: seq<Action>, to: Store)
    requires GentleRun(Start(now, cutoff, size), actions)
    requires var s := Exec(Start(now, cutoff, size), actions);
             KeepsRows(s.store, s.cutoff, s.cutoff, to)
               && Within(s.store, s.cutoff, s.cutoff, |TABLE_SPECS|, |TABLE_SPECS| + 1, to)
    ensures var s := Exec(Start(now, cutoff, size), actions);
            Divided(s.history, s.cutoff, to) && forall t :: Prior(to.hot, t, s.cutoff) == []
  {
    var s := Exec(Start(now, cutoff, size), actions);
    NothingLost(now, cutoff, size, actions);
    assert StoreOk(s.history, s.cutoff, s.store);
    DividedWhenClean(s.history, s.cutoff, to);
  }
}
