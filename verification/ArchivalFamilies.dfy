/**
 Children before parents: when an order is archived, what of the five earlier tables has left hot, for any
 number of workers, and which turns of the year are harmless to that.
 */
module ArchivalFamilies {
  import opened Types
  import opened IdOrder
  import opened ArchivalStore
  import opened Archiver
  import opened ArchivalRuns

  /** Some cutoff was in force that had the one time before it and the other not. */
  ghost predicate Parted(cutoffs: set<Time>, older: Time, newer: Time) {
    exists c | c in cutoffs :: older < c <= newer
  }

  /** Of the earlier tables only rows that a past cutoff parts from an archived order are still in hot. */
  ghost predicate ParentsLast(s: Sys) {
    forall x, k | x in s.store.archive && x.key.table == Orders && k in s.store.hot && k.table != Orders ::
      Parted(s.cutoffs, x.row.ts, s.store.hot[k].ts)
  }

  /** A worker before its deadline will not look at this row again before it comes to select orders. */
  predicate Passed(s: Sys, w: Worker, k: RowId) {
    && s.size > 0 && k.table != Orders
    && match w
       case Entering(n, d) => s.now < d && PlaceOf(k.table) < n <= 5
       case Looping(n, d) => s.now < d && PlaceOf(k.table) < n <= 5
       case Querying(n, d) => s.now < d && PlaceOf(k.table) < n <= 5
       case Copying(n, d, batch) => s.now < d && PassedBatch(s, n, batch, k)
       case Deleting(n, d, batch) => s.now < d && PassedBatch(s, n, batch, k)
       case Stopped => false
  }

  /** A short batch is a table's last. */
  predicate PassedBatch(s: Sys, n: nat, batch: seq<Stored>, k: RowId) {
    if |batch| < s.size then PlaceOf(k.table) <= n < 5 && k !in Keys(batch) else PlaceOf(k.table) < n <= 5
  }

  predicate PriorOrder(s: Sys, cutoff: Time, o: RowId) {
    o.table == Orders && o in s.store.hot && s.store.hot[o].ts < cutoff
  }

  /** What a worker has passed is parted from every order it may come to select. */
  ghost predicate WalkOk(s: Sys, w: Worker) {
    forall k, o | k in s.store.hot && Passed(s, w, k) && PriorOrder(s, s.cutoff, o) ::
      Parted(s.cutoffs, s.store.hot[o].ts, s.store.hot[k].ts)
  }

  /** A batch is of its table, and orders about to be copied are parted from what is left of the other tables. */
  ghost predicate BatchOk(s: Sys, w: Worker) {
    && (w.Copying? || w.Deleting? ==>
          s.size > 0 && w.n < |TABLE_SPECS| && forall x | x in w.batch :: x.key.table == TABLE_SPECS[w.n])
    && (w.Copying? ==> forall x, k | x in w.batch && x.key.table == Orders && k in s.store.hot && k.table != Orders ::
          Parted(s.cutoffs, x.row.ts, s.store.hot[k].ts))
  }

  /* ---- workers that are late: they take one more batch of orders, whatever is left of the other tables ---- */

  predicate IsLate(s: Sys, w: Worker) {
    w.Querying? && w.n == 5 && s.now >= w.deadline
  }

  function LateWorkers(s: Sys): set<WorkerId> {
    set w | w in s.workers && IsLate(s, s.workers[w])
  }

  function BatchKeys(w: Worker): set<RowId> {
    if w.Copying? || w.Deleting? then Keys(w.batch) else {}
  }

  function InHand(s: Sys): set<RowId> {
    set w, k | w in s.workers && k in BatchKeys(s.workers[w]) :: k
  }

  /** The orders late workers take before this one, when those in someone's hands have left hot. */
  function Ahead(s: Sys, cutoff: Time, o: RowId): set<RowId> {
    set p | p in s.store.hot && PriorOrder(s, cutoff, p) && p !in InHand(s) && p.id < o.id
  }

  /** The batches of all late workers, one after the other, come to this order. */
  predicate InReach(s: Sys, cutoff: Time, o: RowId) {
    |Ahead(s, cutoff, o)| < RowsIn(|LateWorkers(s)|, s.size)
  }

  /** What is left of the other tables is parted from every order late workers may come to. */
  ghost predicate LateOk(s: Sys, cutoff: Time, cutoffs: set<Time>) {
    forall k, o | k in s.store.hot && k.table != Orders && PriorOrder(s, cutoff, o) && InReach(s, cutoff, o) ::
      Parted(cutoffs, s.store.hot[o].ts, s.store.hot[k].ts)
  }

  ghost predicate FamilyOk(s: Sys) {
    && ParentsLast(s) && s.cutoff in s.cutoffs && LateOk(s, s.cutoff, s.cutoffs)
    && forall w | w in s.workers :: WalkOk(s, s.workers[w]) && BatchOk(s, s.workers[w])
  }

  /** The new cutoff too parts what a worker before its deadline has passed from the orders it makes prior. */
  ghost predicate PassedOk(s: Sys, cutoff: Time) {
    forall w, k, o | w in s.workers && k in s.store.hot && Passed(s, s.workers[w], k) && PriorOrder(s, cutoff, o) ::
      Parted(s.cutoffs + {cutoff}, s.store.hot[o].ts, s.store.hot[k].ts)
  }

  /** A turn of the year is harmless when that is so, and late workers come to no order not parted from what is left. */
  ghost predicate TurnOk(s: Sys, cutoff: Time) {
    PassedOk(s, cutoff) && LateOk(s, cutoff, s.cutoffs + {cutoff})
  }

  /** Harmless turns, rows that carry a time of the current year when they are inserted, and gentle updates. */
  ghost predicate Careful(s: Sys, a: Action) {
    && Gentle(s, a)
    && (a.NewYear? && a.cutoff >= s.cutoff ==> TurnOk(s, a.cutoff))
    && (a.InsertRow? && a.key !in s.history ==> a.row.ts >= s.cutoff)
  }

  ghost predicate CarefulRun(s0: Sys, actions: seq<Action>) {
    actions != [] ==>
      CarefulRun(s0, actions[..|actions| - 1]) && Careful(Exec(s0, actions[..|actions| - 1]), actions[|actions| - 1])
  }

  /* ---- what every careful step keeps ---- */

  /** Rows leave hot, and rows that come or change are of the current year; time passes. */
  ghost predicate HotAges(s: Sys, after: Sys) {
    && after.size == s.size && after.cutoff == s.cutoff && after.cutoffs == s.cutoffs && after.now >= s.now
    && forall k | k in after.store.hot ::
         after.store.hot[k].ts >= s.cutoff || (k in s.store.hot && s.store.hot[k].ts == after.store.hot[k].ts)
  }

  lemma CutoffParts(s: Sys, older: Time, newer: Time)
    requires s.cutoff in s.cutoffs && older < s.cutoff <= newer
    ensures Parted(s.cutoffs, older, newer)
  {
  }

  lemma WalkStays(s: Sys, after: Sys, w: Worker)
    requires s.cutoff in s.cutoffs && WalkOk(s, w) && HotAges(s, after)
    ensures WalkOk(after, w)
  {
    forall k, o | k in after.store.hot && Passed(after, w, k) && PriorOrder(after, after.cutoff, o)
      ensures Parted(after.cutoffs, after.store.hot[o].ts, after.store.hot[k].ts)
    {
      assert PriorOrder(s, s.cutoff, o) && s.store.hot[o].ts == after.store.hot[o].ts;
      if after.store.hot[k].ts >= s.cutoff {
        CutoffParts(s, after.store.hot[o].ts, after.store.hot[k].ts);
      } else {
        assert Passed(s, w, k);
      }
    }
  }

  lemma BatchStays(s: Sys, after: Sys, w: Worker)
    requires s.cutoff in s.cutoffs && BatchOk(s, w) && WorkerOk(s, w) && HotAges(s, after)
    ensures BatchOk(after, w)
  {
    if w.Copying? {
      forall x, k | x in w.batch && x.key.table == Orders && k in after.store.hot && k.table != Orders
        ensures Parted(after.cutoffs, x.row.ts, after.store.hot[k].ts)
      {
        assert Known(s.history, s.cutoff, x);
        if after.store.hot[k].ts >= s.cutoff { CutoffParts(s, x.row.ts, after.store.hot[k].ts); }
      }
    }
  }

  lemma ParentsStay(s: Sys, after: Sys)
    requires s.cutoff in s.cutoffs && ParentsLast(s) && AllKnown(s.history, s.cutoff, s.store.archive)
             && HotAges(s, after)
    requires after.store.archive == s.store.archive
    ensures ParentsLast(after)
  {
    forall x, k | x in after.store.archive && x.key.table == Orders && k in after.store.hot && k.table != Orders
      ensures Parted(after.cutoffs, x.row.ts, after.store.hot[k].ts)
    {
      assert Known(s.history, s.cutoff, x);
      if after.store.hot[k].ts >= s.cutoff { CutoffParts(s, x.row.ts, after.store.hot[k].ts); }
    }
  }

  lemma CopyKeepsParents(s: Sys, batch: seq<Stored>)
    requires ParentsLast(s)
    requires forall x, k | x in batch && x.key.table == Orders && k in s.store.hot && k.table != Orders ::
               Parted(s.cutoffs, x.row.ts, s.store.hot[k].ts)
    ensures ParentsLast(s.(store := Store(s.store.hot, InsertAll(s.store.archive, batch))))
  {
    forall x | x in InsertAll(s.store.archive, batch) ensures x in s.store.archive || x in batch {
      InsertOnlyGiven(s.store.archive, batch, x);
    }
  }

  lemma SubsetSize<T>(a: set<T>, b: set<T>)
    requires a <= b
    ensures |a| <= |b|
  {
    assert b == a + (b - a);
  }

  lemma {:induction false} BatchesGrow(m: nat, n: nat, size: nat)
    requires m <= n
    ensures RowsIn(m, size) <= RowsIn(n, size)
  {
    if m < n { BatchesGrow(m, n - 1, size); }
  }

  lemma {:induction false} EmptyBatches(n: nat)
    ensures RowsIn(n, 0) == 0
  {
    if n > 0 { EmptyBatches(n - 1); }
  }

  lemma NoBatches(s: Sys, after: Sys)
    requires s.size == 0 && after.size == 0
    ensures LateOk(after, after.cutoff, after.cutoffs)
  {
    EmptyBatches(|LateWorkers(after)|);
  }

  /** Fewer late workers and no fewer orders before it: what is in reach was so. */
  lemma ReachShrinks(s: Sys, after: Sys, cutoff: Time, o: RowId)
    requires after.size == s.size && LateWorkers(after) <= LateWorkers(s)
    requires Ahead(s, cutoff, o) <= Ahead(after, cutoff, o)
    ensures InReach(after, cutoff, o) ==> InReach(s, cutoff, o)
  {
    SubsetSize(LateWorkers(after), LateWorkers(s));
    SubsetSize(Ahead(s, cutoff, o), Ahead(after, cutoff, o));
    BatchesGrow(|LateWorkers(after)|, |LateWorkers(s)|, s.size);
  }

  lemma LateStays(s: Sys, after: Sys)
    requires s.cutoff in s.cutoffs && LateOk(s, s.cutoff, s.cutoffs) && HotAges(s, after)
    requires forall o | PriorOrder(after, s.cutoff, o) && InReach(after, s.cutoff, o) :: InReach(s, s.cutoff, o)
    ensures LateOk(after, after.cutoff, after.cutoffs)
  {
    forall k, o |
      k in after.store.hot && k.table != Orders && PriorOrder(after, s.cutoff, o) && InReach(after, s.cutoff, o)
      ensures Parted(after.cutoffs, after.store.hot[o].ts, after.store.hot[k].ts)
    {
      assert PriorOrder(s, s.cutoff, o) && s.store.hot[o].ts == after.store.hot[o].ts;
      if after.store.hot[k].ts >= s.cutoff { CutoffParts(s, after.store.hot[o].ts, after.store.hot[k].ts); }
    }
  }

  /** While a worker before its deadline is about to select orders, everything left is parted from all of them. */
  lemma PunctualParts(s: Sys, after: Sys, d: Time)
    requires s.cutoff in s.cutoffs && s.size > 0 && WalkOk(s, Querying(5, d)) && s.now < d && HotAges(s, after)
    ensures LateOk(after, after.cutoff, after.cutoffs)
  {
    forall k, o | k in after.store.hot && k.table != Orders && PriorOrder(after, s.cutoff, o)
      ensures Parted(after.cutoffs, after.store.hot[o].ts, after.store.hot[k].ts)
    {
      assert PriorOrder(s, s.cutoff, o) && s.store.hot[o].ts == after.store.hot[o].ts;
      if after.store.hot[k].ts >= s.cutoff {
        CutoffParts(s, after.store.hot[o].ts, after.store.hot[k].ts);
      } else {
        assert Passed(s, Querying(5, d), k);
      }
    }
  }

  /** An order in the next batch has less than a batch before it. */
  lemma SelectedSoon(s: Sys, cutoff: Time, o: RowId)
    requires o in Keys(SelectBatch(s.store.hot, Orders, cutoff, s.size))
    ensures |Ahead(s, cutoff, o)| < s.size
  {
    var p := Prior(s.store.hot, Orders, cutoff);
    PriorRows(s.store.hot, Orders, cutoff);
    var x :| x in Take(p, s.size) && x.key == o;
    var i :| 0 <= i < |Take(p, s.size)| && Take(p, s.size)[i] == x;
    forall q | q in Ahead(s, cutoff, o) ensures q in Keys(p[..i]) {
      assert IsPrior(s.store.hot, Orders, cutoff, Stored(q, s.store.hot[q]));
      var j :| 0 <= j < |p| && p[j] == Stored(q, s.store.hot[q]);
      assert p[i] == x && j < i;
      assert p[..i][j] == p[j];
    }
    SubsetSize(Ahead(s, cutoff, o), Keys(p[..i]));
    KeysAtMost(p[..i]);
  }

  lemma LateBatchParted(s: Sys, w: WorkerId, o: RowId, k: RowId)
    requires LateOk(s, s.cutoff, s.cutoffs) && w in LateWorkers(s)
    requires o in Keys(SelectBatch(s.store.hot, Orders, s.cutoff, s.size)) && PriorOrder(s, s.cutoff, o)
    requires k in s.store.hot && k.table != Orders
    ensures Parted(s.cutoffs, s.store.hot[o].ts, s.store.hot[k].ts)
  {
    SelectedSoon(s, s.cutoff, o);
    BatchesGrow(1, |LateWorkers(s)|, s.size);
    assert InReach(s, s.cutoff, o);
  }

  /** A batch just selected, or the end of a table. */
  lemma SelectedWalk(s: Sys, id: WorkerId, n: nat, d: Time)
    requires s.cutoff in s.cutoffs && n < |TABLE_SPECS| && WalkOk(s, Querying(n, d))
    requires id in s.workers && s.workers[id] == Querying(n, d) && LateOk(s, s.cutoff, s.cutoffs)
    ensures var w := NextWorker(s, Querying(n, d)); WalkOk(s, w) && BatchOk(s, w)
  {
    SelectedPasses(s, n, d);
    SelectedBatch(s, id, n, d);
  }

  lemma SelectedPasses(s: Sys, n: nat, d: Time)
    requires s.cutoff in s.cutoffs && n < |TABLE_SPECS| && WalkOk(s, Querying(n, d))
    ensures WalkOk(s, NextWorker(s, Querying(n, d)))
  {
    var t, w := TABLE_SPECS[n], NextWorker(s, Querying(n, d));
    var batch := SelectBatch(s.store.hot, t, s.cutoff, s.size);
    SpecsInPlace();
    SelectedRows(s.store.hot, t, s.cutoff, s.size);
    DeleteKeys(s.store.hot, batch);
    forall k, o | k in s.store.hot && Passed(s, w, k) && PriorOrder(s, s.cutoff, o)
      ensures Parted(s.cutoffs, s.store.hot[o].ts, s.store.hot[k].ts)
    {
      if PlaceOf(k.table) < n {
        assert Passed(s, Querying(n, d), k);
      } else {
        assert k.table == t && k in Delete(s.store.hot, batch);
        CutoffParts(s, s.store.hot[o].ts, s.store.hot[k].ts);
      }
    }
  }

  lemma SelectedBatch(s: Sys, id: WorkerId, n: nat, d: Time)
    requires s.cutoff in s.cutoffs && n < |TABLE_SPECS| && WalkOk(s, Querying(n, d))
    requires id in s.workers && s.workers[id] == Querying(n, d) && LateOk(s, s.cutoff, s.cutoffs)
    ensures BatchOk(s, NextWorker(s, Querying(n, d)))
  {
    var t := TABLE_SPECS[n];
    var batch := SelectBatch(s.store.hot, t, s.cutoff, s.size);
    SpecsInPlace();
    SelectedRows(s.store.hot, t, s.cutoff, s.size);
    forall x | x in batch ensures IsPrior(s.store.hot, t, s.cutoff, x) {}
    forall x, k | x in batch && x.key.table == Orders && k in s.store.hot && k.table != Orders
      ensures s.size > 0 ==> Parted(s.cutoffs, x.row.ts, s.store.hot[k].ts)
    {
      assert IsPrior(s.store.hot, t, s.cutoff, x) && PriorOrder(s, s.cutoff, x.key);
      if s.now >= d {
        LateBatchParted(s, id, x.key, k);
      } else {
        assert s.size > 0 ==> Passed(s, Querying(n, d), k);
      }
    }
  }

  lemma NextWalk(s: Sys, id: WorkerId)
    requires id in s.workers && s.cutoff in s.cutoffs && LateOk(s, s.cutoff, s.cutoffs)
    requires var w := s.workers[id]; WalkOk(s, w) && BatchOk(s, w) && WorkerOk(s, w)
    ensures var w := s.workers[id];
            var after := s.(store := NextStore(s, w));
            WalkOk(after, NextWorker(s, w)) && BatchOk(after, NextWorker(s, w))
  {
    var w := s.workers[id];
    match w
    case Querying(n, d) => if n < |TABLE_SPECS| { SelectedWalk(s, id, n, d); }
    case Copying(n, d, batch) => assert forall k :: Passed(s, Deleting(n, d, batch), k) <==> Passed(s, w, k);
    case Deleting(n, d, batch) => DeletedWalk(s, n, d, batch);
    case Looping(n, d) => assert forall k :: Passed(s, NextWorker(s, w), k) ==> Passed(s, w, k);
    case Entering(n, d) => assert forall k :: Passed(s, NextWorker(s, w), k) ==> Passed(s, w, k);
    case Stopped =>
  }

  lemma DeletedWalk(s: Sys, n: nat, d: Time, batch: seq<Stored>)
    requires WalkOk(s, Deleting(n, d, batch))
    ensures WalkOk(s.(store := Store(Delete(s.store.hot, batch), s.store.archive)),
            NextWorker(s, Deleting(n, d, batch)))
  {
    var after, w := s.(store := Store(Delete(s.store.hot, batch), s.store.archive)),
      NextWorker(s, Deleting(n, d, batch));
    DeleteKeys(s.store.hot, batch);
    forall k | k in after.store.hot && Passed(after, w, k) ensures Passed(s, Deleting(n, d, batch), k) {}
    forall o | PriorOrder(after, after.cutoff, o) ensures PriorOrder(s, s.cutoff, o) {}
  }

  /* ---- what late workers may come to, step by step ---- */

  /** A step that gives nobody another batch and makes nobody late. */
  lemma NothingNearer(s: Sys, after: Sys)
    requires s.cutoff in s.cutoffs && LateOk(s, s.cutoff, s.cutoffs) && HotAges(s, after)
    requires LateWorkers(after) <= LateWorkers(s)
    requires forall p | p in s.store.hot && p !in InHand(s) && p.table == Orders && s.store.hot[p].ts < s.cutoff ::
               p in after.store.hot && p !in InHand(after) && after.store.hot[p].ts < s.cutoff
    ensures LateOk(after, after.cutoff, after.cutoffs)
  {
    forall o | PriorOrder(after, s.cutoff, o) && InReach(after, s.cutoff, o) ensures InReach(s, s.cutoff, o) {
      ReachShrinks(s, after, s.cutoff, o);
    }
    LateStays(s, after);
  }

  /** What a worker has in hand next: its selection, the same batch, or nothing. */
  lemma AdvancedHands(s: Sys, w: WorkerId)
    requires w in s.workers
    ensures var after := AdvanceWorker(s, w);
            InHand(after) <= InHand(s) + BatchKeys(after.workers[w])
            && (BatchKeys(after.workers[w]) <= BatchKeys(s.workers[w]) ==> InHand(after) <= InHand(s))
  {
  }

  /** One late worker less, and at most a batch of the orders before this one. */
  lemma ReachAfterBatch(s: Sys, after: Sys, cutoff: Time, w: WorkerId, batch: set<RowId>, o: RowId)
    requires after.size == s.size && w in LateWorkers(s) && LateWorkers(after) == LateWorkers(s) - {w}
    requires |batch| <= s.size && Ahead(s, cutoff, o) <= Ahead(after, cutoff, o) + batch
    ensures InReach(after, cutoff, o) ==> InReach(s, cutoff, o)
  {
    SubsetSize(Ahead(s, cutoff, o), Ahead(after, cutoff, o) + batch);
    SumSize(Ahead(after, cutoff, o), batch);
    assert |LateWorkers(after)| == |LateWorkers(s)| - 1;
  }

  lemma SumSize<T>(a: set<T>, b: set<T>)
    ensures |a + b| <= |a| + |b|
  {
    assert a + b == a + (b - a);
    SubsetSize(b - a, b);
  }

  lemma LateAhead(s: Sys, w: WorkerId, o: RowId)
    requires w in LateWorkers(s)
    ensures var after := AdvanceWorker(s, w);
            && LateWorkers(after) == LateWorkers(s) - {w}
            && Ahead(s, s.cutoff, o)
               <= Ahead(after, s.cutoff, o) + Keys(SelectBatch(s.store.hot, Orders, s.cutoff, s.size))
  {
    AdvancedHands(s, w);
  }

  /** A late worker selects its batch: as many orders fewer are before any other as it may have taken. */
  lemma LateSelects(s: Sys, w: WorkerId)
    requires s.cutoff in s.cutoffs && LateOk(s, s.cutoff, s.cutoffs) && w in LateWorkers(s)
    ensures var after := AdvanceWorker(s, w); LateOk(after, after.cutoff, after.cutoffs)
  {
    var after, batch := AdvanceWorker(s, w), SelectBatch(s.store.hot, Orders, s.cutoff, s.size);
    KeysAtMost(batch);
    forall o | PriorOrder(after, s.cutoff, o) && InReach(after, s.cutoff, o) ensures InReach(s, s.cutoff, o) {
      LateAhead(s, w, o);
      ReachAfterBatch(s, after, s.cutoff, w, Keys(batch), o);
    }
    LateStays(s, after);
  }

  /** A selection from an earlier table holds no order. */
  lemma SelectsNoOrder(s: Sys, w: WorkerId)
    requires w in s.workers && s.workers[w].Querying? && s.workers[w].n < 5
    ensures forall k | k in BatchKeys(AdvanceWorker(s, w).workers[w]) :: k.table != Orders
  {
    SpecsInPlace();
    SelectedRows(s.store.hot, TABLE_SPECS[s.workers[w].n], s.cutoff, s.size);
  }

  lemma InTheirHands(s: Sys, w: WorkerId, k: RowId)
    requires w in s.workers && k in BatchKeys(s.workers[w])
    ensures k in InHand(s)
  {
  }

  lemma AdvanceNearer(s: Sys, w: WorkerId)
    requires w in s.workers && s.cutoff in s.cutoffs && LateOk(s, s.cutoff, s.cutoffs)
    requires !IsLate(s, s.workers[w]) && !(s.workers[w].Querying? && s.workers[w].n == 5)
    ensures var after := AdvanceWorker(s, w); LateOk(after, after.cutoff, after.cutoffs)
  {
    var worker, after := s.workers[w], AdvanceWorker(s, w);
    AdvancedHands(s, w);
    if worker.Querying? && worker.n < 5 { SelectsNoOrder(s, w); }
    if worker.Deleting? {
      DeleteKeys(s.store.hot, worker.batch);
      forall k | k in Keys(worker.batch) ensures k in InHand(s) { InTheirHands(s, w, k); }
    }
    NothingNearer(s, after);
  }

  lemma AdvanceKeepsLate(s: Sys, w: WorkerId)
    requires SysOk(s) && FamilyOk(s) && w in s.workers
    ensures var after := AdvanceWorker(s, w); LateOk(after, after.cutoff, after.cutoffs)
  {
    var worker := s.workers[w];
    assert WalkOk(s, worker);
    if IsLate(s, worker) {
      LateSelects(s, w);
    } else if s.size == 0 {
      NoBatches(s, AdvanceWorker(s, w));
    } else if worker.Querying? && worker.n == 5 {
      PunctualParts(s, AdvanceWorker(s, w), worker.deadline);
    } else {
      AdvanceNearer(s, w);
    }
  }

  lemma AdvanceKeepsFamily(s: Sys, w: WorkerId)
    requires SysOk(s) && FamilyOk(s) && w in s.workers
    ensures FamilyOk(AdvanceWorker(s, w))
  {
    var worker, after := s.workers[w], AdvanceWorker(s, w);
    assert WalkOk(s, worker) && BatchOk(s, worker) && WorkerOk(s, worker);
    if worker.Deleting? { DeleteKeys(s.store.hot, worker.batch); }
    assert HotAges(s, after);
    if worker.Copying? { CopyKeepsParents(s, worker.batch); } else { ParentsStay(s, after); }
    AdvanceKeepsLate(s, w);
    NextWalk(s, w);
    forall v | v in after.workers ensures WalkOk(after, after.workers[v]) && BatchOk(after, after.workers[v]) {
      if v != w {
        assert WalkOk(s, s.workers[v]) && BatchOk(s, s.workers[v]) && WorkerOk(s, s.workers[v]);
        WalkStays(s, after, s.workers[v]);
        BatchStays(s, after, s.workers[v]);
      } else {
        SameFamily(s.(store := NextStore(s, worker)), after, after.workers[w]);
      }
    }
  }

  lemma SameFamily(s: Sys, after: Sys, w: Worker)
    requires WalkOk(s, w) && BatchOk(s, w)
    requires after.store == s.store && after.now == s.now && after.cutoff == s.cutoff && after.cutoffs == s.cutoffs
             && after.size == s.size
    ensures WalkOk(after, w) && BatchOk(after, w)
  {
    forall k ensures Passed(after, w, k) <==> Passed(s, w, k) {}
    forall o ensures PriorOrder(after, after.cutoff, o) <==> PriorOrder(s, s.cutoff, o) {}
  }

  lemma TurnKeepsFamily(s: Sys, cutoff: Time)
    requires SysOk(s) && FamilyOk(s) && cutoff >= s.cutoff && TurnOk(s, cutoff)
    ensures FamilyOk(Step(s, NewYear(cutoff)))
  {
    var after := Step(s, NewYear(cutoff));
    forall a, b | Parted(s.cutoffs, a, b) ensures Parted(after.cutoffs, a, b) {}
    TurnKeepsLate(s, cutoff);
    forall w | w in after.workers ensures WalkOk(after, after.workers[w]) && BatchOk(after, after.workers[w]) {
      assert BatchOk(s, s.workers[w]);
      forall k ensures Passed(after, s.workers[w], k) <==> Passed(s, s.workers[w], k) {}
      forall o ensures PriorOrder(after, cutoff, o) <==> PriorOrder(s, cutoff, o) {}
    }
  }

  lemma SameReach(s: Sys, after: Sys, cutoff: Time, o: RowId)
    requires after.store == s.store && after.now == s.now && after.workers == s.workers && after.size == s.size
    ensures InReach(after, cutoff, o) <==> InReach(s, cutoff, o)
  {
    assert LateWorkers(after) == LateWorkers(s) && InHand(after) == InHand(s);
    assert Ahead(after, cutoff, o) == Ahead(s, cutoff, o);
  }

  lemma TurnKeepsLate(s: Sys, cutoff: Time)
    requires cutoff >= s.cutoff && LateOk(s, cutoff, s.cutoffs + {cutoff})
    ensures LateOk(Step(s, NewYear(cutoff)), cutoff, s.cutoffs + {cutoff})
  {
    var after := Step(s, NewYear(cutoff));
    forall o ensures InReach(after, cutoff, o) <==> InReach(s, cutoff, o) { SameReach(s, after, cutoff, o); }
    forall o ensures PriorOrder(after, cutoff, o) <==> PriorOrder(s, cutoff, o) {}
  }

  /** Steps of the application, and of workers that come and go. */
  lemma OtherKeepsLate(s: Sys, a: Action)
    requires SysOk(s) && FamilyOk(s) && Careful(s, a) && !a.Advance? && !a.NewYear? && !a.Tick?
    ensures var after := Step(s, a); LateOk(after, after.cutoff, after.cutoffs)
  {
    var after := Step(s, a);
    HandsOnlyDrop(s, a);
    NothingNearer(s, after);
  }

  lemma HandsOnlyDrop(s: Sys, a: Action)
    requires !a.Advance? && !a.NewYear? && !a.Tick?
    ensures InHand(Step(s, a)) <= InHand(s) && LateWorkers(Step(s, a)) <= LateWorkers(s)
  {
  }

  /** When time makes a worker late that was about to select orders, nothing was left to part. */
  lemma TickKeepsLate(s: Sys, elapsed: nat)
    requires SysOk(s) && FamilyOk(s)
    ensures var after := Step(s, Tick(elapsed)); LateOk(after, after.cutoff, after.cutoffs)
  {
    var after := Step(s, Tick(elapsed));
    assert HotAges(s, after);
    if s.size == 0 {
      NoBatches(s, after);
    } else if LateWorkers(after) <= LateWorkers(s) {
      assert InHand(after) == InHand(s);
      NothingNearer(s, after);
    } else {
      var v :| v in LateWorkers(after) && v !in LateWorkers(s);
      assert WalkOk(s, s.workers[v]);
      PunctualParts(s, after, s.workers[v].deadline);
    }
  }

  lemma StepKeepsFamily(s: Sys, a: Action)
    requires SysOk(s) && FamilyOk(s) && Careful(s, a)
    ensures FamilyOk(Step(s, a))
  {
    var after := Step(s, a);
    if a.Advance? && a.worker in s.workers {
      AdvanceKeepsFamily(s, a.worker);
    } else if a.NewYear? && a.cutoff >= s.cutoff {
      TurnKeepsFamily(s, a.cutoff);
    } else if !a.Advance? && !a.NewYear? {
      assert HotAges(s, after);
      ParentsStay(s, after);
      if a.Tick? { TickKeepsLate(s, a.elapsed); } else { OtherKeepsLate(s, a); }
      forall v | v in after.workers ensures WalkOk(after, after.workers[v]) && BatchOk(after, after.workers[v]) {
        if v in s.workers {
          assert WalkOk(s, s.workers[v]) && BatchOk(s, s.workers[v]) && WorkerOk(s, s.workers[v]);
          WalkStays(s, after, s.workers[v]);
          BatchStays(s, after, s.workers[v]);
        }
      }
    }
  }

  lemma {:induction false} CarefulKeepsFamily(s0: Sys, actions: seq<Action>)
    requires SysOk(s0) && FamilyOk(s0) && CarefulRun(s0, actions)
    ensures SysOk(Exec(s0, actions)) && FamilyOk(Exec(s0, actions))
  {
    if actions != [] {
      var prior := actions[..|actions| - 1];
      CarefulKeepsFamily(s0, prior);
      StepKeepsOk(Exec(s0, prior), actions[|actions| - 1]);
      StepKeepsFamily(Exec(s0, prior), actions[|actions| - 1]);
    }
  }

  /* ---- the theorem ---- */

  /**
   Once an order is archived, every row of the five earlier tables that no past cutoff parts from it, which is
   everything of its year, has left hot and is archived, whichever workers did it and wherever others died.
   */
  lemma ChildrenBeforeParents(now: Time, cutoff: Time, size: nat, actions: seq<Action>, x: Stored, k: RowId)
    requires CarefulRun(Start(now, cutoff, size), actions)
    requires var s := Exec(Start(now, cutoff, size), actions);
             && x in s.store.archive && x.key.table == Orders
             && k in s.history && k.table != Orders && !Parted(s.cutoffs, x.row.ts, s.history[k].ts)
    ensures var s := Exec(Start(now, cutoff, size), actions);
            k !in s.store.hot && Stored(k, s.history[k]) in s.store.archive
  {
    var s := Exec(Start(now, cutoff, size), actions);
    CarefulKeepsFamily(Start(now, cutoff, size), actions);
    assert Kept(s.history, s.store, k);
  }

  lemma {:induction false} OneCutoff(s0: Sys, actions: seq<Action>)
    requires forall i | 0 <= i < |actions| :: !actions[i].NewYear?
    ensures Exec(s0, actions).cutoff == s0.cutoff && Exec(s0, actions).cutoffs == s0.cutoffs
  {
    if actions != [] { OneCutoff(s0, actions[..|actions| - 1]); }
  }

  /**
   With a fixed cutoff: whenever an order is archived, every row of the five earlier tables before the cutoff
   is archived and out of hot.
   */
  lemma ChildrenBeforeCutoff(now: Time, cutoff: Time, size: nat, actions: seq<Action>, x: Stored, k: RowId)
    requires CarefulRun(Start(now, cutoff, size), actions) && forall i | 0 <= i < |actions| :: !actions[i].NewYear?
    requires var s := Exec(Start(now, cutoff, size), actions);
             && x in s.store.archive && x.key.table == Orders && k in s.history && k.table != Orders
                && s.history[k].ts < cutoff
    ensures var s := Exec(Start(now, cutoff, size), actions);
            k !in s.store.hot && Stored(k, s.history[k]) in s.store.archive
  {
    OneCutoff(Start(now, cutoff, size), actions);
    ChildrenBeforeParents(now, cutoff, size, actions, x, k);
  }

  /** Stopped, still at the first table, or past its deadline between batches. */
  predicate Idle(s: Sys, w: Worker) {
    w.Stopped? || (w.n == 0 && !w.Copying? && !w.Deleting?) || (!w.Querying? && s.now >= w.deadline)
  }

  /** A turn is harmless while every worker is idle. */
  lemma IdleTurn(s: Sys, cutoff: Time)
    requires forall w | w in s.workers :: Idle(s, s.workers[w])
    ensures TurnOk(s, cutoff)
  {
  }
}
