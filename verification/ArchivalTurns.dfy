/**
 Which turns of the year the archival workers bear, exactly: a turn breaks the order of children and parents iff
 some worker has passed a row that the turn does not part from an order. Shown on a run from the start as well.
 */
module ArchivalTurns {
  import opened Types
  import opened ArchivalStore
  import opened Archiver
  import opened ArchivalRuns
  import opened ArchivalFamilies

  /* ---- a worker that is left alone ---- */

  /** Neither the application nor the calendar does anything. */
  predicate Quiet(a: Action) {
    a.Launch? || a.Advance? || a.Kill?
  }

  predicate AllQuiet(actions: seq<Action>) {
    forall i | 0 <= i < |actions| :: Quiet(actions[i])
  }

  lemma {:induction false} QuietIsCareful(s0: Sys, actions: seq<Action>)
    requires AllQuiet(actions)
    ensures GentleRun(s0, actions) && CarefulRun(s0, actions)
  {
    if actions != [] { QuietIsCareful(s0, actions[..|actions| - 1]); }
  }

  lemma FirstThen(s: Sys, a: Action, rest: seq<Action>)
    ensures Exec(s, [a] + rest) == Exec(Step(s, a), rest)
  {
    ExecOn(s, [a], rest);
    assert [a][..0] == [];
  }

  lemma AdvanceThen(s: Sys, w: WorkerId, rest: seq<Action>)
    requires w in s.workers
    ensures Exec(s, [Advance(w)] + rest) == Exec(AdvanceWorker(s, w), rest) && [Advance(w)] + [] == [Advance(w)]
  {
    FirstThen(s, Advance(w), rest);
  }

  /** How far a worker still has to go: tables, then rows that will be left in hot, then the steps of a batch. */
  function TablesLeft(w: Worker): nat {
    if w.Stopped? || w.n > |TABLE_SPECS| then 0 else |TABLE_SPECS| - w.n
  }

  function RowsAhead(s: Sys, w: Worker): nat {
    if w.Copying? || w.Deleting? then |Delete(s.store.hot, w.batch)| else |s.store.hot|
  }

  function StepsLeft(w: Worker): nat {
    match w
    case Entering(_, _) => 5
    case Copying(_, _, _) => 4
    case Deleting(_, _, _) => 3
    case Looping(_, _) => 2
    case Querying(_, _) => 1
    case Stopped => 0
  }

  /** A batch holds rows of its table. */
  predicate OfTable(w: Worker) {
    w.Copying? || w.Deleting? ==> w.n < |TABLE_SPECS| && forall x | x in w.batch :: x.key.table == TABLE_SPECS[w.n]
  }

  lemma SelectedShrinks(s: Sys, n: nat, d: Time)
    requires n < |TABLE_SPECS| && NextWorker(s, Querying(n, d)).Copying?
    ensures OfTable(NextWorker(s, Querying(n, d))) && RowsAhead(s, NextWorker(s, Querying(n, d))) < |s.store.hot|
  {
    var batch := SelectBatch(s.store.hot, TABLE_SPECS[n], s.cutoff, s.size);
    SelectedRows(s.store.hot, TABLE_SPECS[n], s.cutoff, s.size);
    DeleteKeys(s.store.hot, batch);
    assert batch[0] in batch && batch[0].key in Keys(batch);
    var left := Delete(s.store.hot, batch);
    assert left.Keys < s.store.hot.Keys;
    FewerKeys(left.Keys, s.store.hot.Keys);
  }

  lemma FewerKeys(a: set<RowId>, b: set<RowId>)
    requires a < b
    ensures |a| < |b|
  {
    assert b == a + (b - a) && b - a != {};
    assert |b| == |a| + |b - a|;
  }

  /* ---- turns of the year ---- */

  /** A row a worker has passed, and an order it will select that no cutoff parts from it. */
  ghost predicate Doomed(s: Sys, w: Worker, k: RowId, o: RowId) {
    && Passed(s, w, k) && OfTable(w)
    && k in s.store.hot && PriorOrder(s, s.cutoff, o) && !Parted(s.cutoffs, s.store.hot[o].ts, s.store.hot[k].ts)
  }

  lemma ArchivedTooSoon(s: Sys, x: Stored, o: RowId, k: RowId)
    requires SysOk(s) && x in s.store.archive && x.key == o && o.table == Orders && o in s.store.hot
             && k in s.store.hot && k.table != Orders
    requires !Parted(s.cutoffs, s.store.hot[o].ts, s.store.hot[k].ts)
    ensures !ParentsLast(s)
  {
    assert Known(s.history, s.cutoff, x);
  }

  /** The order is one of the rows just selected. */
  lemma LastBatch(s: Sys, w: WorkerId, k: RowId, o: RowId)
    requires SysOk(s) && w in s.workers && s.workers[w].Copying? && k in s.store.hot && k.table != Orders
             && PriorOrder(s, s.cutoff, o)
    requires o in Keys(s.workers[w].batch) && !Parted(s.cutoffs, s.store.hot[o].ts, s.store.hot[k].ts)
    ensures Breaks(s, [Advance(w)])
  {
    AdvanceThen(s, w, []);
    var batch := s.workers[w].batch;
    assert WorkerOk(s, s.workers[w]);
    AdvanceKeepsOk(s, w);
    CopyKeepsStore(s.history, s.cutoff, s.store, batch);
    var x :| x in batch && x.key == o;
    ArchivedTooSoon(AdvanceWorker(s, w), x, o, k);
  }

  lemma DeletedDoom(s: Sys, w: WorkerId, k: RowId, o: RowId)
    requires SysOk(s) && ParentsLast(s) && w in s.workers && s.workers[w].Deleting? && Doomed(s, s.workers[w], k, o)
    ensures Doomed(AdvanceWorker(s, w), AdvanceWorker(s, w).workers[w], k, o)
  {
    var worker := s.workers[w];
    assert WorkerOk(s, worker);
    SpecsInPlace();
    DeleteKeys(s.store.hot, worker.batch);
    forall x | x in worker.batch ensures x.key != o {
      assert x in s.store.archive && Known(s.history, s.cutoff, x);
    }
  }

  lemma SelectedDoom(s: Sys, w: WorkerId, k: RowId, o: RowId)
    requires SysOk(s) && w in s.workers && s.workers[w].Querying? && Doomed(s, s.workers[w], k, o)
    ensures var t := AdvanceWorker(s, w);
            Doomed(t, t.workers[w], k, o) || (t.workers[w].Copying? && o in Keys(t.workers[w].batch))
  {
    var n, d := s.workers[w].n, s.workers[w].deadline;
    SpecsInPlace();
    SelectedRows(s.store.hot, TABLE_SPECS[n], s.cutoff, s.size);
    DeleteKeys(s.store.hot, SelectBatch(s.store.hot, TABLE_SPECS[n], s.cutoff, s.size));
  }

  predicate Nearer(s: Sys, t: Sys, w: WorkerId)
    requires w in s.workers && w in t.workers
  {
    var a, b := s.workers[w], t.workers[w];
    || TablesLeft(b) < TablesLeft(a)
    || (TablesLeft(b) == TablesLeft(a) && RowsAhead(t, b) < RowsAhead(s, a))
    || (TablesLeft(b) == TablesLeft(a) && RowsAhead(t, b) == RowsAhead(s, a) && StepsLeft(b) < StepsLeft(a))
  }

  /** Every step of a worker before its deadline is one towards its end. */
  lemma AdvanceIsNearer(s: Sys, w: WorkerId)
    requires w in s.workers && !s.workers[w].Stopped? && s.workers[w].n < |TABLE_SPECS| && s.now < s.workers[w].deadline
    ensures Nearer(s, AdvanceWorker(s, w), w)
  {
    var t := AdvanceWorker(s, w);
    if s.workers[w].Querying? && t.workers[w].Copying? { SelectedShrinks(s, s.workers[w].n, s.workers[w].deadline); }
  }

  lemma DoomStays(s: Sys, w: WorkerId, k: RowId, o: RowId)
    requires SysOk(s) && ParentsLast(s) && w in s.workers && Doomed(s, s.workers[w], k, o)
    ensures var t := AdvanceWorker(s, w);
            Doomed(t, t.workers[w], k, o) || (t.workers[w].Copying? && o in Keys(t.workers[w].batch))
  {
    if s.workers[w].Querying? {
      SelectedDoom(s, w, k, o);
    } else if s.workers[w].Deleting? {
      DeletedDoom(s, w, k, o);
    }
  }

  ghost predicate Breaks(s: Sys, actions: seq<Action>) {
    AllQuiet(actions) && !ParentsLast(Exec(s, actions))
  }

  lemma BreaksLater(s: Sys, w: WorkerId, rest: seq<Action>)
    requires w in s.workers && Breaks(AdvanceWorker(s, w), rest)
    ensures Breaks(s, [Advance(w)] + rest)
  {
    AdvanceThen(s, w, rest);
  }

  /** Left alone, a worker that has passed the row archives the order before it. */
  lemma {:induction false} DriveToOrders(s: Sys, w: WorkerId, k: RowId, o: RowId) returns (actions: seq<Action>)
    requires SysOk(s) && w in s.workers && Doomed(s, s.workers[w], k, o)
    ensures Breaks(s, actions)
    decreases TablesLeft(s.workers[w]), RowsAhead(s, s.workers[w]), StepsLeft(s.workers[w])
  {
    actions := [];
    if ParentsLast(s) {
      var t, rest := AdvanceWorker(s, w), [Advance(w)];
      AdvanceKeepsOk(s, w);
      DoomStays(s, w, k, o);
      if Doomed(t, t.workers[w], k, o) {
        AdvanceIsNearer(s, w);
        rest := DriveToOrders(t, w, k, o);
      } else {
        LastBatch(t, w, k, o);
      }
      BreaksLater(s, w, rest);
      actions := [Advance(w)] + rest;
    }
  }

  /* ---- late workers ---- */

  /** Copying or deleting a batch of orders. */
  predicate HoldsOrders(w: Worker) {
    (w.Copying? || w.Deleting?) && w.n == 5
  }

  function CopyingOrders(s: Sys): set<WorkerId> {
    set w | w in s.workers && s.workers[w].Copying? && s.workers[w].n == 5
  }

  function DeletingOrders(s: Sys): set<WorkerId> {
    set w | w in s.workers && s.workers[w].Deleting? && s.workers[w].n == 5
  }

  /** A row and an order not parted from it that late workers come to. */
  ghost predicate LateDoomed(s: Sys, k: RowId, o: RowId) {
    && k in s.store.hot && k.table != Orders && PriorOrder(s, s.cutoff, o) && InReach(s, s.cutoff, o)
    && !Parted(s.cutoffs, s.store.hot[o].ts, s.store.hot[k].ts)
    && forall w | w in s.workers :: OfTable(s.workers[w])
  }

  /** A batch of orders being copied, or deleted: the order keeps its place behind no more orders than before. */
  lemma HolderAdvances(s: Sys, w: WorkerId, k: RowId, o: RowId)
    requires SysOk(s) && ParentsLast(s) && LateDoomed(s, k, o) && w in s.workers && HoldsOrders(s.workers[w])
    ensures LateDoomed(AdvanceWorker(s, w), k, o)
    ensures LateWorkers(AdvanceWorker(s, w)) == LateWorkers(s)
  {
    var t, batch := AdvanceWorker(s, w), s.workers[w].batch;
    assert WorkerOk(s, s.workers[w]) && OfTable(s.workers[w]);
    SpecsInPlace();
    assert LateWorkers(t) == LateWorkers(s);
    if s.workers[w].Deleting? {
      DeleteKeys(s.store.hot, batch);
      forall x | x in batch ensures x.key != o {
        assert x in s.store.archive && Known(s.history, s.cutoff, x);
      }
    }
    HandsStay(s, w);
    SubsetSize(Ahead(t, s.cutoff, o), Ahead(s, s.cutoff, o));
  }

  /** What is in hand stays so until it has left hot. */
  lemma HandsStay(s: Sys, w: WorkerId)
    requires w in s.workers && HoldsOrders(s.workers[w])
    ensures var t := AdvanceWorker(s, w); forall p | p in t.store.hot && p in InHand(s) :: p in InHand(t)
  {
    var t := AdvanceWorker(s, w);
    DeleteKeys(s.store.hot, s.workers[w].batch);
    forall p | p in t.store.hot && p in InHand(s) ensures p in InHand(t) {
      var v :| v in s.workers && p in BatchKeys(s.workers[v]);
      assert t.workers[v] == s.workers[v] || v == w;
      InTheirHands(t, v, p);
    }
  }

  /** The order is not in the next batch, so that is a full one, of orders before it. */
  lemma NextBatchAhead(s: Sys, k: RowId, o: RowId)
    requires LateDoomed(s, k, o) && forall w | w in s.workers :: !HoldsOrders(s.workers[w])
    requires o !in Keys(SelectBatch(s.store.hot, Orders, s.cutoff, s.size))
    ensures var batch := Keys(SelectBatch(s.store.hot, Orders, s.cutoff, s.size));
            |batch| == s.size && batch <= Ahead(s, s.cutoff, o)
  {
    var p := Prior(s.store.hot, Orders, s.cutoff);
    var batch := SelectBatch(s.store.hot, Orders, s.cutoff, s.size);
    PriorRows(s.store.hot, Orders, s.cutoff);
    SelectedRows(s.store.hot, Orders, s.cutoff, s.size);
    DeleteKeys(s.store.hot, batch);
    assert IsPrior(s.store.hot, Orders, s.cutoff, Stored(o, s.store.hot[o]));
    var i :| 0 <= i < |p| && p[i] == Stored(o, s.store.hot[o]);
    forall j | 0 <= j < |batch| ensures batch[j] == p[j] && batch[j].key != o { assert batch[j] in batch; }
    forall q | q in Keys(batch) ensures q in Ahead(s, s.cutoff, o) {
      var j :| 0 <= j < |batch| && batch[j].key == q;
      assert batch[j] == p[j] && batch[j] in batch;
      OrdersFree(s, q);
    }
  }

  lemma OrdersFree(s: Sys, q: RowId)
    requires q.table == Orders && forall w | w in s.workers :: OfTable(s.workers[w]) && !HoldsOrders(s.workers[w])
    ensures q !in InHand(s)
  {
    SpecsInPlace();
    forall v | v in s.workers ensures q !in BatchKeys(s.workers[v]) {
      assert OfTable(s.workers[v]) && !HoldsOrders(s.workers[v]);
    }
  }

  /** A late worker takes a batch of other orders: one late worker less, and a batch of orders less before this one. */
  lemma LateAdvances(s: Sys, w: WorkerId, k: RowId, o: RowId)
    requires LateDoomed(s, k, o) && w in LateWorkers(s) && forall v | v in s.workers :: !HoldsOrders(s.workers[v])
    requires o !in Keys(SelectBatch(s.store.hot, Orders, s.cutoff, s.size)) && s.size > 0
    ensures LateDoomed(AdvanceWorker(s, w), k, o)
    ensures LateWorkers(AdvanceWorker(s, w)) == LateWorkers(s) - {w}
  {
    var t, batch := AdvanceWorker(s, w), Keys(SelectBatch(s.store.hot, Orders, s.cutoff, s.size));
    SpecsInPlace();
    SelectedRows(s.store.hot, Orders, s.cutoff, s.size);
    NextBatchAhead(s, k, o);
    assert LateWorkers(t) == LateWorkers(s) - {w};
    forall p | p in batch ensures p in InHand(t) { InTheirHands(t, w, p); }
    SelectedKeepsHands(s, w);
    BatchLess(s, t, batch, o);
  }

  lemma BatchLess(s: Sys, t: Sys, batch: set<RowId>, o: RowId)
    requires t.store == s.store && t.size == s.size && |LateWorkers(t)| == |LateWorkers(s)| - 1
    requires batch <= InHand(t) && InHand(s) <= InHand(t) && batch <= Ahead(s, s.cutoff, o) && |batch| == s.size
    requires InReach(s, s.cutoff, o)
    ensures InReach(t, s.cutoff, o)
  {
    assert Ahead(t, s.cutoff, o) <= Ahead(s, s.cutoff, o) - batch;
    SubsetSize(Ahead(t, s.cutoff, o), Ahead(s, s.cutoff, o) - batch);
  }

  lemma SelectedKeepsHands(s: Sys, w: WorkerId)
    requires w in LateWorkers(s)
    ensures InHand(s) <= InHand(AdvanceWorker(s, w))
  {
    var t := AdvanceWorker(s, w);
    forall p | p in InHand(s) ensures p in InHand(t) {
      var v :| v in s.workers && p in BatchKeys(s.workers[v]);
      InTheirHands(t, v, p);
    }
  }

  /** Left alone, workers that hold orders finish, and then late ones come to the order, one batch after the other. */
  lemma {:induction false} DriveLate(s: Sys, k: RowId, o: RowId) returns (actions: seq<Action>)
    requires SysOk(s) && LateDoomed(s, k, o)
    ensures Breaks(s, actions)
    decreases |LateWorkers(s)|, |CopyingOrders(s)|, |DeletingOrders(s)|, 1
  {
    actions := [];
    if ParentsLast(s) {
      if w :| w in s.workers && HoldsOrders(s.workers[w]) {
        AdvanceKeepsOk(s, w);
        HolderAdvances(s, w, k, o);
        HolderIsNearer(s, w);
        var rest := DriveLate(AdvanceWorker(s, w), k, o);
        BreaksLater(s, w, rest);
        actions := [Advance(w)] + rest;
      } else {
        actions := DriveLateBatch(s, k, o);
      }
    }
  }

  lemma HolderIsNearer(s: Sys, w: WorkerId)
    requires w in s.workers && HoldsOrders(s.workers[w])
    ensures var t := AdvanceWorker(s, w);
            || |CopyingOrders(t)| < |CopyingOrders(s)|
            || (|CopyingOrders(t)| == |CopyingOrders(s)| && |DeletingOrders(t)| < |DeletingOrders(s)|)
  {
    var t := AdvanceWorker(s, w);
    if s.workers[w].Copying? {
      assert CopyingOrders(t) == CopyingOrders(s) - {w};
    } else {
      assert CopyingOrders(t) == CopyingOrders(s) && DeletingOrders(t) == DeletingOrders(s) - {w};
    }
  }

  lemma {:induction false} DriveLateBatch(s: Sys, k: RowId, o: RowId) returns (actions: seq<Action>)
    requires SysOk(s) && LateDoomed(s, k, o) && forall v | v in s.workers :: !HoldsOrders(s.workers[v])
    ensures Breaks(s, actions)
    decreases |LateWorkers(s)|, |CopyingOrders(s)|, |DeletingOrders(s)|, 0
  {
    if s.size == 0 { EmptyBatches(|LateWorkers(s)|); }
    var w :| w in LateWorkers(s);
    var t, rest := AdvanceWorker(s, w), [Advance(w)];
    AdvanceKeepsOk(s, w);
    if o in Keys(SelectBatch(s.store.hot, Orders, s.cutoff, s.size)) {
      LastBatch(t, w, k, o);
    } else {
      LateAdvances(s, w, k, o);
      rest := DriveLate(t, k, o);
    }
    BreaksLater(s, w, rest);
    actions := [Advance(w)] + rest;
  }

  /* ---- the turn ---- */

  /** The turn lets the worker select the order and does not part it from what the worker has passed. */
  ghost predicate Endangers(s: Sys, cutoff: Time, w: WorkerId, k: RowId, o: RowId) {
    && w in s.workers && k in s.store.hot && Passed(s, s.workers[w], k) && PriorOrder(s, cutoff, o)
    && !Parted(s.cutoffs + {cutoff}, s.store.hot[o].ts, s.store.hot[k].ts)
  }

  lemma EndangeredPair(s: Sys, cutoff: Time) returns (w: WorkerId, k: RowId, o: RowId)
    requires !PassedOk(s, cutoff)
    ensures Endangers(s, cutoff, w, k, o)
  {
    if forall w, k, o :: !Endangers(s, cutoff, w, k, o) {
      forall w, k, o | w in s.workers && k in s.store.hot && Passed(s, s.workers[w], k) && PriorOrder(s, cutoff, o)
        ensures Parted(s.cutoffs + {cutoff}, s.store.hot[o].ts, s.store.hot[k].ts)
      {
        assert !Endangers(s, cutoff, w, k, o);
      }
      assert false;
    }
    w, k, o :| Endangers(s, cutoff, w, k, o);
  }

  lemma TurnDooms(s: Sys, cutoff: Time, w: WorkerId, k: RowId, o: RowId)
    requires FamilyOk(s) && cutoff >= s.cutoff && Endangers(s, cutoff, w, k, o)
    ensures w in s.workers && Doomed(Step(s, NewYear(cutoff)), s.workers[w], k, o)
  {
    assert BatchOk(s, s.workers[w]);
  }

  /** The turn brings an order within reach of the late workers and does not part it from a row that is left. */
  lemma LatePair(s: Sys, cutoff: Time) returns (k: RowId, o: RowId)
    requires FamilyOk(s) && cutoff >= s.cutoff && !LateOk(s, cutoff, s.cutoffs + {cutoff})
    ensures LateDoomed(Step(s, NewYear(cutoff)), k, o)
  {
    k, o :| k in s.store.hot && k.table != Orders && PriorOrder(s, cutoff, o) && InReach(s, cutoff, o)
      && !Parted(s.cutoffs + {cutoff}, s.store.hot[o].ts, s.store.hot[k].ts);
    SameReach(s, Step(s, NewYear(cutoff)), cutoff, o);
    BatchesOfTables(s);
  }

  lemma BatchesOfTables(s: Sys)
    requires FamilyOk(s)
    ensures forall w | w in s.workers :: OfTable(s.workers[w])
  {
    forall w | w in s.workers ensures OfTable(s.workers[w]) { assert BatchOk(s, s.workers[w]); }
  }

  lemma TurnHarms(s: Sys, cutoff: Time) returns (actions: seq<Action>)
    requires SysOk(s) && FamilyOk(s) && cutoff >= s.cutoff && !TurnOk(s, cutoff)
    ensures Breaks(Step(s, NewYear(cutoff)), actions)
  {
    StepKeepsOk(s, NewYear(cutoff));
    if PassedOk(s, cutoff) {
      var k, o := LatePair(s, cutoff);
      actions := DriveLate(Step(s, NewYear(cutoff)), k, o);
    } else {
      actions := PassedHarms(s, cutoff);
    }
  }

  lemma PassedHarms(s: Sys, cutoff: Time) returns (actions: seq<Action>)
    requires FamilyOk(s) && cutoff >= s.cutoff && !PassedOk(s, cutoff) && SysOk(Step(s, NewYear(cutoff)))
    ensures Breaks(Step(s, NewYear(cutoff)), actions)
  {
    var w, k, o := EndangeredPair(s, cutoff);
    TurnDooms(s, cutoff, w, k, o);
    actions := DriveToOrders(Step(s, NewYear(cutoff)), w, k, o);
  }

  /** No careful continuation archives an order too soon. */
  ghost predicate KeepsOrder(u: Sys) {
    forall actions | CarefulRun(u, actions) :: ParentsLast(Exec(u, actions))
  }

  /**
   A turn of the year is harmless iff it parts what each worker has passed from the orders it makes prior, and
   what is left from the orders late workers come to: then no careful continuation archives an order too soon,
   and otherwise workers do so when left alone.
   */
  lemma TurnHarmlessIff(s: Sys, cutoff: Time)
    requires SysOk(s) && FamilyOk(s) && cutoff >= s.cutoff
    ensures TurnOk(s, cutoff) <==> KeepsOrder(Step(s, NewYear(cutoff)))
  {
    var u := Step(s, NewYear(cutoff));
    StepKeepsOk(s, NewYear(cutoff));
    if TurnOk(s, cutoff) {
      TurnKeepsFamily(s, cutoff);
      forall actions | CarefulRun(u, actions) ensures ParentsLast(Exec(u, actions)) {
        CarefulKeepsFamily(u, actions);
      }
    } else {
      var actions := TurnHarms(s, cutoff);
      QuietIsCareful(u, actions);
      assert CarefulRun(u, actions) && !ParentsLast(Exec(u, actions));
    }
  }

  lemma GentleNext(s0: Sys, actions: seq<Action>, a: Action) returns (longer: seq<Action>, s: Sys)
    requires GentleRun(s0, actions) && !a.UpdateRow?
    ensures GentleRun(s0, longer) && s == Exec(s0, longer) && s == Step(Exec(s0, actions), a)
  {
    longer, s := actions + [a], Step(Exec(s0, actions), a);
    ExecNext(s0, actions, a);
    assert longer[..|longer| - 1] == actions;
  }

  const ORDER_ID := RowId(Orders, 1)
  const EARNING_ID := RowId(AgentEarnings, 1)

  lemma ToLaunch() returns (actions: seq<Action>, s: Sys)
    ensures GentleRun(Start(0, 5, 1), actions) && s == Exec(Start(0, 5, 1), actions)
    ensures s.store.hot == map[ORDER_ID := Row(5, 0), EARNING_ID := Row(5, 0)] && s.workers == map[0 := Entering(0, 1)]
    ensures s.cutoff == 5 && s.cutoffs == {5} && s.size == 1 && s.now == 0
  {
    var s0 := Start(0, 5, 1);
    actions, s := GentleNext(s0, [], InsertRow(ORDER_ID, Row(5, 0)));
    actions, s := GentleNext(s0, actions, InsertRow(EARNING_ID, Row(5, 0)));
    actions, s := GentleNext(s0, actions, Launch(0, 1));
  }

  /** An order and its earning are inserted, and a worker finds nothing to move in the first table. */
  lemma ToSecondTable() returns (actions: seq<Action>, s: Sys)
    ensures GentleRun(Start(0, 5, 1), actions) && s == Exec(Start(0, 5, 1), actions)
    ensures s.store.hot == map[ORDER_ID := Row(5, 0), EARNING_ID := Row(5, 0)] && s.workers == map[0 := Entering(1, 1)]
    ensures s.cutoff == 5 && s.cutoffs == {5} && s.size == 1 && s.now == 0
  {
    var s0 := Start(0, 5, 1);
    actions, s := ToLaunch();
    actions, s := GentleNext(s0, actions, Advance(0));
    actions, s := GentleNext(s0, actions, Advance(0));
    FirstPrior(s.store.hot, AgentEarnings, 5);
    actions, s := GentleNext(s0, actions, Advance(0));
  }

  /** When the year turns there, the worker goes on to archive the order while the earning stays in hot. */
  lemma TurnBreaksOrder()
    ensures exists actions :: GentleRun(Start(0, 5, 1), actions) && !ParentsLast(Exec(Start(0, 5, 1), actions))
  {
    var before, s := ToSecondTable();
    var actions, u := GentleNext(Start(0, 5, 1), before, NewYear(10));
    NothingLost(0, 5, 1, actions);
    var more := DriveToOrders(u, 0, EARNING_ID, ORDER_ID);
    QuietIsCareful(u, more);
    GentleOn(Start(0, 5, 1), actions, more);
  }

  lemma {:induction false} GentleOn(s0: Sys, actions: seq<Action>, more: seq<Action>)
    requires GentleRun(s0, actions) && GentleRun(Exec(s0, actions), more)
    ensures GentleRun(s0, actions + more) && Exec(s0, actions + more) == Exec(Exec(s0, actions), more)
  {
    ExecOn(s0, actions, more);
    if more == [] {
      assert actions + more == actions;
    } else {
      var init := more[..|more| - 1];
      GentleOn(s0, actions, init);
      assert (actions + more)[..|actions + more| - 1] == actions + init;
    }
  }
}
