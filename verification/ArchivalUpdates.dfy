/**
 Which updates the archival workers bear, exactly: an update that changes a row may be lost iff an older version
 of the row is in the archive or in the hands of a worker. Shown on a run from the start as well.
 */
module ArchivalUpdates {
  import opened Types
  import opened ArchivalStore
  import opened Archiver
  import opened ArchivalRuns
  import opened ArchivalTurns

  /** Another version of the row has its place in the archive, the one in hot has not. */
  ghost predicate Superseded(s: Sys, k: RowId) {
    && k in s.history && k in s.store.hot && s.store.hot[k] == s.history[k] && s.history[k].ts < s.cutoff
    && Stored(k, s.history[k]) !in s.store.archive && Taken(s.store.archive, Stored(k, s.history[k]))
  }

  /** The row as last written is in neither cluster. */
  ghost predicate Lost(s: Sys, k: RowId) {
    k in s.history && !Kept(s.history, s.store, k)
  }

  /* ---- one move of the table ---- */

  /** An updated row survives the next move of its table iff the archive holds no row under its key. */
  lemma UpdateSurvivesIff(history: Hot, cutoff: Time, store: Store, k: RowId, content: nat)
    requires StoreOk(history, cutoff, store) && k in store.hot && store.hot[k].ts < cutoff
             && store.hot[k].content != content
    ensures var row := store.hot[k].(content := content);
            Kept(history[k := row], MoveTable(Store(store.hot[k := row], store.archive), k.table, cutoff), k)
            <==> forall x | x in store.archive :: x.key != k
  {
    var row := store.hot[k].(content := content);
    var history', after := history[k := row], Store(store.hot[k := row], store.archive);
    WholeHot(after, k.table, cutoff);
    if x :| x in store.archive && x.key == k {
      assert Known(history, cutoff, x) && Conflicts(x, Stored(k, row));
      SupersededStaysOut(after.archive, Prior(after.hot, k.table, cutoff), history, cutoff, k, row);
    } else {
      forall x | x in store.archive ensures Known(history', cutoff, x) { assert Known(history, cutoff, x); }
      forall p | p in history' ensures Kept(history', after, p) {
        if p != k { assert Kept(history, store, p); }
      }
      WholeTable(history', after, k.table, cutoff);
    }
  }

  lemma SupersededStaysOut(archive: Archive, rows: seq<Stored>, history: Hot, cutoff: Time, k: RowId, row: Row)
    requires AllKnown(history, cutoff, archive) && k in history && row.ts == history[k].ts && row != history[k]
    requires exists x | x in archive :: x.key == k
    ensures Stored(k, row) !in InsertAll(archive, rows)
  {
    var x :| x in archive && x.key == k;
    var i :| 0 <= i < |archive| && archive[i] == x;
    forall y | y in archive ensures y != Stored(k, row) { assert Known(history, cutoff, y); }
    assert Known(history, cutoff, x) && Conflicts(archive[i], Stored(k, row));
    InsertKeepsOut(archive, rows, Stored(k, row));
  }

  /* ---- workers that are left alone ---- */

  /** A worker before its deadline that has the row ahead of it or in its batch. */
  predicate Heading(s: Sys, w: Worker, k: RowId) {
    && s.size > 0 && !w.Stopped? && s.now < w.deadline && w.n <= PlaceOf(k.table)
    && ((w.Copying? || w.Deleting?) && w.n == PlaceOf(k.table) && |w.batch| < s.size ==> k in Keys(w.batch))
  }

  ghost predicate Loses(s: Sys, k: RowId, actions: seq<Action>) {
    AllQuiet(actions) && Lost(Exec(s, actions), k)
  }

  lemma LosesLater(s: Sys, w: WorkerId, k: RowId, rest: seq<Action>)
    requires w in s.workers && Loses(AdvanceWorker(s, w), k, rest)
    ensures Loses(s, k, [Advance(w)] + rest)
  {
    AdvanceThen(s, w, rest);
  }

  lemma SupersededStays(s: Sys, w: WorkerId, k: RowId)
    requires w in s.workers && Superseded(s, k)
    ensures var t := AdvanceWorker(s, w); if k in t.store.hot then Superseded(t, k) else Lost(t, k)
  {
    match s.workers[w]
    case Copying(_, _, batch) => InsertKeepsOut(s.store.archive, batch, Stored(k, s.history[k]));
    case Deleting(_, _, batch) => DeleteKeys(s.store.hot, batch);
    case _ =>
  }

  lemma HeadingStays(s: Sys, w: WorkerId, k: RowId)
    requires w in s.workers && k in s.store.hot && s.store.hot[k].ts < s.cutoff && Heading(s, s.workers[w], k)
    ensures var t := AdvanceWorker(s, w); k in t.store.hot ==> Heading(t, t.workers[w], k)
  {
    SpecsInPlace();
    match s.workers[w]
    case Querying(n, _) =>
      SelectedRows(s.store.hot, TABLE_SPECS[n], s.cutoff, s.size);
      DeleteKeys(s.store.hot, SelectBatch(s.store.hot, TABLE_SPECS[n], s.cutoff, s.size));
    case Deleting(_, _, batch) => DeleteKeys(s.store.hot, batch);
    case _ =>
  }

  /** Left alone, the worker deletes the row from hot, although the archive has only another version of it. */
  lemma {:induction false} DriveToRow(s: Sys, w: WorkerId, k: RowId) returns (actions: seq<Action>)
    requires w in s.workers && Superseded(s, k) && Heading(s, s.workers[w], k)
    ensures Loses(s, k, actions)
    decreases TablesLeft(s.workers[w]), RowsAhead(s, s.workers[w]), StepsLeft(s.workers[w])
  {
    var t, rest := AdvanceWorker(s, w), [];
    SupersededStays(s, w, k);
    HeadingStays(s, w, k);
    if k in t.store.hot {
      AdvanceIsNearer(s, w);
      rest := DriveToRow(t, w, k);
    }
    LosesLater(s, w, k, rest);
    actions := [Advance(w)] + rest;
  }

  /** A worker with an older version in its hands finishes its batch. */
  lemma {:induction false} FinishBatch(s: Sys, w: WorkerId, k: RowId) returns (actions: seq<Action>)
    requires w in s.workers && HoldsRow(s.workers[w], k) && k in s.history
    requires Stored(k, s.history[k]) !in s.store.archive && Stored(k, s.history[k]) !in s.workers[w].batch
    ensures Loses(s, k, actions)
    decreases s.workers[w].Copying?
  {
    var t, rest, batch := AdvanceWorker(s, w), [], s.workers[w].batch;
    if s.workers[w].Copying? {
      if Stored(k, s.history[k]) in t.store.archive {
        InsertOnlyGiven(s.store.archive, batch, Stored(k, s.history[k]));
      }
      rest := FinishBatch(t, w, k);
    } else {
      DeleteKeys(s.store.hot, batch);
    }
    LosesLater(s, w, k, rest);
    actions := [Advance(w)] + rest;
  }

  /* ---- the condition ---- */

  /** After the update no copy of the new version is anywhere but in hot, and an older one is about. */
  lemma OldVersions(s: Sys, k: RowId, content: nat)
    requires SysOk(s) && k in s.store.hot && s.store.hot[k].content != content
    ensures var u := Step(s, UpdateRow(k, content)); var x := Stored(k, u.history[k]);
            && x !in u.store.archive
            && (forall w | w in u.workers && HoldsRow(u.workers[w], k) :: x !in u.workers[w].batch)
            && ((exists y | y in s.store.archive :: y.key == k) ==> Superseded(u, k))
  {
    var x := Stored(k, s.store.hot[k].(content := content));
    forall y | y in s.store.archive ensures y != x && (y.key == k ==> Conflicts(y, x) && y.row.ts < s.cutoff) {
      assert Known(s.history, s.cutoff, y);
    }
    forall w | w in s.workers && HoldsRow(s.workers[w], k) ensures x !in s.workers[w].batch {
      assert WorkerOk(s, s.workers[w]) && !Known(s.history, s.cutoff, x);
    }
  }

  lemma ShadowedLoses(s: Sys, k: RowId, content: nat, unused: WorkerId) returns (actions: seq<Action>)
    requires SysOk(s) && s.size > 0 && k in s.store.hot && s.store.hot[k].content != content && unused !in s.workers
    requires Shadowed(s, k)
    ensures Loses(Step(s, UpdateRow(k, content)), k, actions)
  {
    var u := Step(s, UpdateRow(k, content));
    OldVersions(s, k, content);
    if w :| w in s.workers && HoldsRow(s.workers[w], k) {
      actions := FinishBatch(u, w, k);
    } else {
      var t := Step(u, Launch(unused, 1));
      var rest := DriveToRow(t, unused, k);
      FirstThen(u, Launch(unused, 1), rest);
      actions := [Launch(unused, 1)] + rest;
    }
  }

  /** The workers may yet lose the row, without another update that changes a row they have in hand. */
  ghost predicate MayLose(s: Sys, k: RowId) {
    exists actions :: GentleRun(s, actions) && Lost(Exec(s, actions), k)
  }

  lemma {:induction false} HistoryStays(s0: Sys, actions: seq<Action>, k: RowId)
    requires k in s0.history
    ensures k in Exec(s0, actions).history
  {
    if actions != [] { HistoryStays(s0, actions[..|actions| - 1], k); }
  }

  /**
   An update that changes a row may be lost iff an older version of the row is archived already, by whomever,
   or in the hands of a worker: then workers alone lose it, and otherwise no gentle continuation does.
   */
  lemma UpdateLostIff(s: Sys, k: RowId, content: nat, unused: WorkerId)
    requires SysOk(s) && s.size > 0 && k in s.store.hot && s.store.hot[k].content != content && unused !in s.workers
    ensures Shadowed(s, k) <==> MayLose(Step(s, UpdateRow(k, content)), k)
  {
    var u := Step(s, UpdateRow(k, content));
    if Shadowed(s, k) {
      var actions := ShadowedLoses(s, k, content, unused);
      QuietIsCareful(u, actions);
      assert MayLose(u, k);
    } else {
      WriteKeepsOk(s, k, s.store.hot[k].(content := content));
      forall actions | GentleRun(u, actions) ensures !Lost(Exec(u, actions), k) {
        GentleKeepsOk(u, actions);
        HistoryStays(u, actions, k);
      }
    }
  }

  /* ---- a run from the start ---- */

  /** The row of a year that has ended, and a worker about to select it. */
  lemma ToSelection() returns (actions: seq<Action>, s: Sys)
    ensures GentleRun(Start(0, 5, 1), actions) && s == Exec(Start(0, 5, 1), actions)
    ensures s.store == Store(map[EARNING_ID := Row(5, 0)], []) && s.workers == map[0 := Querying(0, 1)]
    ensures s.cutoff == 10 && s.size == 1
  {
    var s0 := Start(0, 5, 1);
    actions, s := GentleNext(s0, [], InsertRow(EARNING_ID, Row(5, 0)));
    actions, s := GentleNext(s0, actions, NewYear(10));
    actions, s := GentleNext(s0, actions, Launch(0, 1));
    actions, s := GentleNext(s0, actions, Advance(0));
    actions, s := GentleNext(s0, actions, Advance(0));
  }

  /** The row is copied by a worker that dies before it deletes the batch. */
  lemma ToDeadWorker() returns (actions: seq<Action>, s: Sys)
    ensures GentleRun(Start(0, 5, 1), actions) && s == Exec(Start(0, 5, 1), actions)
    ensures EARNING_ID in s.store.hot && s.store.hot[EARNING_ID] == Row(5, 0) && s.workers == map[] && s.size == 1
    ensures exists x | x in s.store.archive :: x.key == EARNING_ID
  {
    var s0 := Start(0, 5, 1);
    actions, s := ToSelection();
    PriorRows(s.store.hot, AgentEarnings, 10);
    assert IsPrior(s.store.hot, AgentEarnings, 10, Stored(EARNING_ID, Row(5, 0)));
    actions, s := GentleNext(s0, actions, Advance(0));
    var x := s.workers[0].batch[0];
    assert x in Prior(s.store.hot, AgentEarnings, 10);
    actions, s := GentleNext(s0, actions, Advance(0));
    assert s.store.archive == InsertAll([], [x]) == [x];
    actions, s := GentleNext(s0, actions, Kill(0));
  }

  /** An update of that row is lost by the next worker. */
  lemma UpdateLost()
    ensures exists actions :: Lost(Exec(Start(0, 5, 1), actions), EARNING_ID)
  {
    var before, s := ToDeadWorker();
    NothingLost(0, 5, 1, before);
    var more := ShadowedLoses(s, EARNING_ID, 1, 0);
    FirstThen(s, UpdateRow(EARNING_ID, 1), more);
    ExecOn(Start(0, 5, 1), before, [UpdateRow(EARNING_ID, 1)] + more);
  }
}
