/** Stock reserved at placement: when it is given back, and how often. */
module Stock {
  import opened Types
  import opened OrderStatus
  import opened ShardState
  import opened OrderRuns

  function ReleaseCount(db: Db, o: OrderId): nat {
    if o in db.releases then db.releases[o] else 0
  }

  /** The step calls release-stock under the order's key. */
  predicate ReleasesNow(db: Db, op: Op, o: OrderId) {
    match op
    case OpPlace(p, d, commitOk) => p == o && o !in db.reserved && o !in db.orders && !commitOk
    case OpInitPayment(p, outcome) =>
      p == o && o in db.awaitingInit && o in db.orders && FindActive(db.sessions, o).None? && !outcome.SessionCreated?
    case OpUpdateStatus(p, c, target, hasReason) =>
      p == o && o in db.orders && StatusCheck(db, o, c, target, hasReason).Allowed?
      && (target == Cancelled || target == Rejected) && ReleaseEligible(db.orders[o].status)
    case _ => false
  }

  lemma ReleaseCountStep(db: Db, op: Op, o: OrderId)
    ensures ReleaseCount(Apply(db, op), o) == ReleaseCount(db, o) + if ReleasesNow(db, op, o) then 1 else 0
    ensures o in Apply(db, op).reserved <==> o in db.reserved || (op.OpPlace? && op.order == o && o !in db.orders)
  {
    match op
    case OpPlace(p, d, commitOk) => PlaceReleases(db, p, d, commitOk, o);
    case OpInitPayment(p, outcome) => InitReleases(db, p, outcome, o);
    case OpUpdateStatus(p, c, target, hasReason) => StatusReleases(db, p, c, target, hasReason, o);
    case _ => StockUntouched(db, op);
  }

  lemma PlaceReleases(db: Db, p: OrderId, d: Draft, commitOk: bool, o: OrderId)
    ensures var after := PlaceOrder(db, p, d, commitOk);
            && ReleaseCount(after, o) == ReleaseCount(db, o)
               + (if ReleasesNow(db, OpPlace(p, d, commitOk), o) then 1 else 0)
            && (o in after.reserved <==> o in db.reserved || (p == o && o !in db.orders))
  {
    PlaceBumps(db, p, d, commitOk);
    BumpCounts(db, PlaceOrder(db, p, d, commitOk), p, o);
  }

  lemma PlaceBumps(db: Db, p: OrderId, d: Draft, commitOk: bool)
    ensures PlaceOrder(db, p, d, commitOk).releases
            == if ReleasesNow(db, OpPlace(p, d, commitOk), p) then Bump(db.releases, p) else db.releases
  {
  }

  lemma InitReleases(db: Db, p: OrderId, outcome: InitOutcome, o: OrderId)
    ensures var after := InitPayment(db, p, outcome);
            && ReleaseCount(after, o) == ReleaseCount(db, o)
               + (if ReleasesNow(db, OpInitPayment(p, outcome), o) then 1 else 0)
            && after.reserved == db.reserved
  {
    InitBumps(db, p, outcome);
    BumpCounts(db, InitPayment(db, p, outcome), p, o);
  }

  lemma InitBumps(db: Db, p: OrderId, outcome: InitOutcome)
    ensures InitPayment(db, p, outcome).reserved == db.reserved
    ensures InitPayment(db, p, outcome).releases
            == if ReleasesNow(db, OpInitPayment(p, outcome), p) then Bump(db.releases, p) else db.releases
  {
  }

  lemma StatusReleases(db: Db, p: OrderId, c: Caller, target: Status, hasReason: bool, o: OrderId)
    ensures var after := UpdateStatus(db, p, c, target, hasReason);
            && ReleaseCount(after, o) == ReleaseCount(db, o)
               + (if ReleasesNow(db, OpUpdateStatus(p, c, target, hasReason), o) then 1 else 0)
            && after.reserved == db.reserved
  {
    StatusBumps(db, p, c, target, hasReason);
    BumpCounts(db, UpdateStatus(db, p, c, target, hasReason), p, o);
  }

  lemma StatusBumps(db: Db, p: OrderId, c: Caller, target: Status, hasReason: bool)
    ensures var after := UpdateStatus(db, p, c, target, hasReason);
            && after.releases == (if ReleasesNow(db, OpUpdateStatus(p, c, target, hasReason), p)
               then Bump(db.releases, p) else db.releases)
            && after.reserved == db.reserved
  {
  }

  lemma BumpCounts(db: Db, after: Db, p: OrderId, o: OrderId)
    ensures after.releases == Bump(db.releases, p) ==>
              ReleaseCount(after, o) == ReleaseCount(db, o) + if o == p then 1 else 0
    ensures after.releases == db.releases ==> ReleaseCount(after, o) == ReleaseCount(db, o)
  {
  }

  lemma StockUntouched(db: Db, op: Op)
    requires !op.OpPlace? && !op.OpInitPayment? && !op.OpUpdateStatus?
    ensures Apply(db, op).releases == db.releases && Apply(db, op).reserved == db.reserved
  {
  }

  /** The kitchen never started on this order. */
  predicate BeforeKitchen(st: Status) {
    st == PendingPayment || st == Placed || st == Accepted || st == Rejected
  }

  predicate PastKitchen(st: Status) {
    st == Preparing || st == Ready || st == Assigned || st == Picked || st == Delivered
  }

  /** Except for a cancelled order, the status tells whether preparing was ever reached. */
  lemma {:induction false} KitchenHistory(t0: Time, ops: seq<Op>, o: OrderId)
    ensures o !in Run(t0, ops).orders ==> !Ever(t0, ops, o, Preparing)
    ensures o in Run(t0, ops).orders && BeforeKitchen(Run(t0, ops).orders[o].status) ==> !Ever(t0, ops, o, Preparing)
    ensures o in Run(t0, ops).orders && PastKitchen(Run(t0, ops).orders[o].status) ==> Ever(t0, ops, o, Preparing)
  {
    if ops != [] {
      var prior, op := ops[..|ops| - 1], ops[|ops| - 1];
      KitchenHistory(t0, prior, o);
      RunKeepsInitWindow(t0, prior);
      KitchenStep(Run(t0, prior), op, o);
    }
  }

  lemma KitchenStep(db: Db, op: Op, o: OrderId)
    requires InitWindow(db)
    ensures o in db.orders ==> o in Apply(db, op).orders
    ensures o in db.orders && BeforeKitchen(Apply(db, op).orders[o].status) ==> BeforeKitchen(db.orders[o].status)
    ensures o in db.orders && PastKitchen(Apply(db, op).orders[o].status) && !HasStatus(Apply(db, op), o, Preparing)
            ==> PastKitchen(db.orders[o].status)
    ensures o !in db.orders && o in Apply(db, op).orders ==> BeforeKitchen(Apply(db, op).orders[o].status)
  {
    if o in db.orders {
      StepRow(db, op, o);
      KitchenRow(db.orders[o], Apply(db, op).orders[o], op, db.now);
    } else if o in Apply(db, op).orders {
      StepNewRow(db, op, o);
    }
  }

  lemma KitchenRow(before: Order, after: Order, op: Op, now: Time)
    requires RowStep(before, after, op, now)
    ensures BeforeKitchen(after.status) ==> BeforeKitchen(before.status)
    ensures PastKitchen(after.status) && after.status != Preparing ==> PastKitchen(before.status)
  {
  }

  predicate Ended(db: Db, o: OrderId) {
    HasStatus(db, o, Cancelled) || HasStatus(db, o, Rejected)
  }

  ghost predicate HasSession(db: Db, o: OrderId) {
    exists i | 0 <= i < |db.sessions| :: db.sessions[i].order == o
  }

  /** Left pending by a void that failed: it awaits no session, has none, and its stock is given back all the same. */
  ghost predicate Stranded(db: Db, o: OrderId) {
    HasStatus(db, o, PendingPayment) && o !in db.awaitingInit && !HasSession(db, o)
  }

  /**
   Reserved stock is held unless placement was rolled back, the order ended before the kitchen started on it,
   or it is stranded.
   */
  ghost predicate StockAccounted(db: Db, o: OrderId, everPreparing: bool) {
    && (o in db.orders ==> o in db.reserved)
    && (o !in db.reserved ==> ReleaseCount(db, o) == 0)
    && (o in db.reserved && o !in db.orders ==> ReleaseCount(db, o) == 1)
    && (o in db.orders ==> (ReleaseCount(db, o) >= 1 <==> (Ended(db, o) && !everPreparing) || Stranded(db, o)))
    && (o in db.awaitingInit || Stranded(db, o) ==> ReleaseCount(db, o) <= 1 && !everPreparing)
    && ReleaseCount(db, o) <= 2
  }

  /** How a release meets the row it is for: the order ends, or its void fails and it is stranded. */
  ghost predicate ReleasingStep(db: Db, after: Db, op: Op, o: OrderId)
    requires o in db.orders && o in after.orders
  {
    var b, a := db.orders[o].status, after.orders[o].status;
    if op.OpInitPayment? then
      && op.order == o && o in db.awaitingInit && o !in after.awaitingInit && b in {PendingPayment, Cancelled}
      && (a == Cancelled || (a == b && Stranded(after, o)))
    else
      op.OpUpdateStatus? && op.target == a && a in {Cancelled, Rejected} && b in {PendingPayment, Placed, Accepted}
  }

  /** Without a release an order ends only from the kitchen on, and does not become or cease to be stranded. */
  ghost predicate QuietStep(db: Db, after: Db, o: OrderId)
    requires o in db.orders && o in after.orders
  {
    var b, a := db.orders[o].status, after.orders[o].status;
    && (a != b ==> b !in {Cancelled, Rejected} && (a in {Cancelled, Rejected} ==> PastKitchen(b)))
    && (Stranded(after, o) <==> Stranded(db, o))
  }

  ghost predicate StockStep(db: Db, after: Db, op: Op, o: OrderId)
    requires o in db.orders && o in after.orders
  {
    && (o in after.awaitingInit ==> o in db.awaitingInit)
    && if ReleasesNow(db, op, o) then ReleasingStep(db, after, op, o) else QuietStep(db, after, o)
  }

  lemma StatusStock(db: Db, p: OrderId, c: Caller, target: Status, hasReason: bool, o: OrderId)
    requires InitWindow(db) && o in db.orders
    ensures var op, after := OpUpdateStatus(p, c, target, hasReason), UpdateStatus(db, p, c, target, hasReason);
            && o in after.orders && after.sessions == db.sessions
            && (ReleasesNow(db, op, o) ==> ReleasingStep(db, after, op, o))
            && (!ReleasesNow(db, op, o) ==> QuietStep(db, after, o))
            && after.awaitingInit == db.awaitingInit
  {
    SessionsUntouched(db, OpUpdateStatus(p, c, target, hasReason));
    WindowUntouched(db, OpUpdateStatus(p, c, target, hasReason));
    if p in db.orders {
      UpdateStatusRow(db, p, c, target, hasReason);
      TableIsAcyclic(db.orders[p].status, target);
      if StatusCheck(db, p, c, target, hasReason).Allowed? { AllowedGivesStamp(db, p, c, target, hasReason); }
    }
  }

  /** A failed initialisation releases the awaited order's stock, and cancels it or leaves it stranded. */
  lemma InitReleasing(db: Db, p: OrderId, outcome: InitOutcome)
    requires InitWindow(db) && p in db.orders && ReleasesNow(db, OpInitPayment(p, outcome), p)
    ensures var after := InitPayment(db, p, outcome);
            p in after.orders && ReleasingStep(db, after, OpInitPayment(p, outcome), p)
  {
    assert AwaitingRow(db, p);
    NoSessionWhileAwaited(db, p);
    InitSession(db, p, outcome, p);
  }

  lemma InitQuiet(db: Db, p: OrderId, outcome: InitOutcome, o: OrderId)
    requires InitWindow(db) && o in db.orders && !ReleasesNow(db, OpInitPayment(p, outcome), o)
    ensures var after := InitPayment(db, p, outcome); o in after.orders && QuietStep(db, after, o)
  {
    NoSessionWhileAwaited(db, p);
    InitSession(db, p, outcome, o);
    InitSame(db, p, outcome, o);
  }

  lemma InitSame(db: Db, p: OrderId, outcome: InitOutcome, o: OrderId)
    requires InitWindow(db) && o in db.orders && !ReleasesNow(db, OpInitPayment(p, outcome), o)
    ensures var after := InitPayment(db, p, outcome);
            && o in after.orders && after.orders[o] == db.orders[o]
            && (o in after.awaitingInit <==> o in db.awaitingInit && !(o == p && Opens(db, p, outcome)))
  {
    InitPaymentRow(db, p, outcome);
    InitAwaits(db, p, outcome);
    NoSessionWhileAwaited(db, p);
  }

  lemma InitAwaits(db: Db, p: OrderId, outcome: InitOutcome)
    ensures InitPayment(db, p, outcome).awaitingInit
            == if p in db.awaitingInit && p in db.orders then db.awaitingInit - {p} else db.awaitingInit
  {
  }

  predicate Opens(db: Db, p: OrderId, outcome: InitOutcome) {
    p in db.awaitingInit && p in db.orders && outcome.SessionCreated?
  }

  lemma OpenedSessions(db: Db, p: OrderId, outcome: InitOutcome)
    requires InitWindow(db)
    ensures InitPayment(db, p, outcome).sessions
            == if Opens(db, p, outcome) then db.sessions + [NewSession(p, db.orders[p])] else db.sessions
  {
    NoSessionWhileAwaited(db, p);
  }

  /** Initialisation gives a session to the order it is for, if it succeeds, and to no other. */
  lemma InitSession(db: Db, p: OrderId, outcome: InitOutcome, o: OrderId)
    requires InitWindow(db)
    ensures HasSession(InitPayment(db, p, outcome), o) <==> HasSession(db, o) || (p == o && Opens(db, p, outcome))
  {
    OpenedSessions(db, p, outcome);
    var after := InitPayment(db, p, outcome);
    if i :| 0 <= i < |db.sessions| && db.sessions[i].order == o { assert after.sessions[i].order == o; }
    if Opens(db, p, outcome) { assert after.sessions[|db.sessions|].order == p; }
  }

  lemma ReconcileStock(db: Db, txn: TxnId, commitOk: bool, o: OrderId)
    requires InitWindow(db) && o in db.orders
    ensures o in Reconcile(db, txn, commitOk).orders && QuietStep(db, Reconcile(db, txn, commitOk), o)
  {
    var after := Reconcile(db, txn, commitOk);
    ReconcileRow(db, txn, commitOk);
    WindowUntouched(db, OpReconcile(txn, commitOk));
    forall i | 0 <= i < |db.sessions| ensures after.sessions[i].order == db.sessions[i].order {
      ReconcileSessions(db, txn, commitOk, i);
    }
    ReconcileSessions(db, txn, commitOk, 0);
    assert HasSession(after, o) <==> HasSession(db, o);
    if after.orders != db.orders && db.reconciling[txn].order == o {
      assert db.sessions[FindActive(db.sessions, o).value].order == o;
    }
  }

  /** The transactions that neither release stock nor touch sessions or the window. */
  lemma OtherStock(db: Db, op: Op, o: OrderId)
    requires InitWindow(db) && o in db.orders && !op.OpUpdateStatus? && !op.OpInitPayment? && !op.OpReconcile?
             && !op.OpPlace?
    ensures o in Apply(db, op).orders && QuietStep(db, Apply(db, op), o)
            && Apply(db, op).awaitingInit == db.awaitingInit
  {
    SessionsUntouched(db, op);
    WindowUntouched(db, op);
    match op
    case OpSettle(p, a, bps, share) => if p in db.orders { SettleRow(db, p, a, bps, share); }
    case OpClaim(p, a) => ClaimRow(db, p, a);
    case OpRelease(a) => ReleaseRow(db, a, o);
    case OpPickUp(p, a) => if p in db.orders { PickUpRow(db, p, a); }
    case _ => OrdersUntouched(db, op);
  }

  lemma PlaceStock(db: Db, p: OrderId, d: Draft, commitOk: bool, o: OrderId)
    requires o in db.orders
    ensures var after := PlaceOrder(db, p, d, commitOk);
            && o in after.orders && after.orders[o] == db.orders[o] && after.sessions == db.sessions
            && (o in after.awaitingInit <==> o in db.awaitingInit)
  {
  }

  /** What a step can do to a known order and its stock at once. */
  lemma KnownStep(db: Db, op: Op, o: OrderId)
    requires InitWindow(db) && o in db.orders
    ensures o in Apply(db, op).orders && StockStep(db, Apply(db, op), op, o)
  {
    match op
    case OpUpdateStatus(p, c, target, hasReason) =>
      StatusStock(db, p, c, target, hasReason, o);
    case OpInitPayment(p, outcome) =>
      if ReleasesNow(db, op, o) { InitReleasing(db, p, outcome); } else { InitQuiet(db, p, outcome, o); }
    case OpReconcile(txn, commitOk) =>
      ReconcileStock(db, txn, commitOk, o);
      WindowUntouched(db, op);
    case OpPlace(p, d, commitOk) => PlaceStock(db, p, d, commitOk, o);
    case _ => OtherStock(db, op, o);
  }

  lemma NewStep(db: Db, op: Op, o: OrderId)
    requires InitWindow(db) && o !in db.orders
    ensures var after := Apply(db, op);
            && (o in after.orders ==>
                  !ReleasesNow(db, op, o) && o !in db.reserved && !Stranded(after, o) && !Ended(after, o))
            && (ReleasesNow(db, op, o) ==> o !in db.reserved && o !in after.orders)
            && (o in after.reserved && o !in db.reserved ==> ReleasesNow(db, op, o) || o in after.orders)
            && (o in after.awaitingInit ==> o in after.orders)
  {
    if o in Apply(db, op).orders {
      StepNewRow(db, op, o);
      assert Apply(db, op).orders[o].payment.Online? ==> o in Apply(db, op).awaitingInit;
    }
    InitWindowStep(db, op);
    if o in Apply(db, op).awaitingInit { assert AwaitingRow(Apply(db, op), o); }
    ReleaseCountStep(db, op, o);
  }

  lemma NoSessionWhileAwaited(db: Db, o: OrderId)
    requires InitWindow(db)
    ensures o in db.awaitingInit ==> FindActive(db.sessions, o).None? && !HasSession(db, o)
  {
  }

  lemma AwaitedStaysOutOfKitchen(db: Db, op: Op, o: OrderId)
    requires InitWindow(db) && o in Apply(db, op).awaitingInit
    ensures !HasStatus(Apply(db, op), o, Preparing) && o in Apply(db, op).orders
  {
    InitWindowStep(db, op);
    assert AwaitingRow(Apply(db, op), o);
  }

  lemma StockAccountedStep(db: Db, op: Op, o: OrderId, everPreparing: bool)
    requires InitWindow(db) && StockAccounted(db, o, everPreparing)
    requires o !in db.orders ==> !everPreparing
    requires o in db.orders && BeforeKitchen(db.orders[o].status) ==> !everPreparing
    requires o in db.orders && PastKitchen(db.orders[o].status) ==> everPreparing
    ensures StockAccounted(Apply(db, op), o, everPreparing || HasStatus(Apply(db, op), o, Preparing))
  {
    var after := Apply(db, op);
    ReleaseCountStep(db, op, o);
    if o in after.awaitingInit { AwaitedStaysOutOfKitchen(db, op, o); }
    if o in db.orders {
      KnownStep(db, op, o);
      FromKnown(db, after, op, o, everPreparing);
    } else {
      NewStep(db, op, o);
      NewAccounted(db, after, op, o);
    }
  }

  lemma FromKnown(db: Db, after: Db, op: Op, o: OrderId, everPreparing: bool)
    requires o in db.orders && o in after.orders && StockAccounted(db, o, everPreparing) && StockStep(db, after, op, o)
    requires BeforeKitchen(db.orders[o].status) ==> !everPreparing
    requires PastKitchen(db.orders[o].status) ==> everPreparing
    requires ReleaseCount(after, o) == ReleaseCount(db, o) + if ReleasesNow(db, op, o) then 1 else 0
    requires o in after.reserved <==> o in db.reserved
    requires o in after.awaitingInit ==> !HasStatus(after, o, Preparing)
    ensures StockAccounted(after, o, everPreparing || HasStatus(after, o, Preparing))
  {
  }

  lemma NewAccounted(db: Db, after: Db, op: Op, o: OrderId)
    requires o !in db.orders && StockAccounted(db, o, false)
    requires ReleaseCount(after, o) == ReleaseCount(db, o) + if ReleasesNow(db, op, o) then 1 else 0
    requires o in db.reserved ==> o in after.reserved
    requires o in after.orders || ReleasesNow(db, op, o) ==> o in after.reserved
    requires o in after.orders ==>
               !ReleasesNow(db, op, o) && o !in db.reserved && !Stranded(after, o) && !Ended(after, o)
    requires o in after.orders ==> !HasStatus(after, o, Preparing)
    requires ReleasesNow(db, op, o) ==> o !in db.reserved && o !in after.orders
    requires o in after.reserved && o !in db.reserved ==> ReleasesNow(db, op, o) || o in after.orders
    requires o in after.awaitingInit ==> o in after.orders
    ensures StockAccounted(after, o, HasStatus(after, o, Preparing))
  {
  }

  /** The same accounts hold of every order in every run, whichever calls fail on the way. */
  lemma {:induction false} StockConserved(t0: Time, ops: seq<Op>, o: OrderId)
    ensures StockAccounted(Run(t0, ops), o, Ever(t0, ops, o, Preparing))
  {
    if ops != [] {
      var prior := ops[..|ops| - 1];
      StockConserved(t0, prior, o);
      RunKeepsInitWindow(t0, prior);
      KitchenHistory(t0, prior, o);
      StockAccountedStep(Run(t0, prior), ops[|ops| - 1], o, Ever(t0, prior, o, Preparing));
    }
  }

  /** A known order's stock is held exactly unless it ended before preparing was ever reached, or is stranded. */
  lemma StockHeldIff(t0: Time, ops: seq<Op>, o: OrderId)
    requires o in Run(t0, ops).orders
    ensures var db := Run(t0, ops);
            && o in db.reserved
            && (ReleaseCount(db, o) == 0 <==> !(Ended(db, o) && !Ever(t0, ops, o, Preparing)) && !Stranded(db, o))
  {
    StockConserved(t0, ops, o);
  }

  /* ---- processes that die before their release call ---- */

  /** The release calls made when the processes of some steps, `died`, died between their commit and the call. */
  function Made(t0: Time, ops: seq<Op>, died: set<nat>, o: OrderId): nat {
    if ops == [] then 0
    else
      var prior, op := ops[..|ops| - 1], ops[|ops| - 1];
      Made(t0, prior, died, o) + if ReleasesNow(Run(t0, prior), op, o) && |prior| !in died then 1 else 0
  }

  /** No process that was to release the stock lived to do so. */
  ghost predicate AllDied(t0: Time, ops: seq<Op>, died: set<nat>, o: OrderId) {
    ops != [] ==>
      var prior, op := ops[..|ops| - 1], ops[|ops| - 1];
      AllDied(t0, prior, died, o) && (ReleasesNow(Run(t0, prior), op, o) ==> |prior| in died)
  }

  lemma {:induction false} MadeIffAlive(t0: Time, ops: seq<Op>, died: set<nat>, o: OrderId)
    ensures Made(t0, ops, died, o) == 0 <==> AllDied(t0, ops, died, o)
    ensures Made(t0, ops, died, o) <= ReleaseCount(Run(t0, ops), o)
  {
    if ops != [] {
      var prior, op := ops[..|ops| - 1], ops[|ops| - 1];
      MadeIffAlive(t0, prior, died, o);
      ReleaseCountStep(Run(t0, prior), op, o);
    }
  }

  /** Placement was rolled back, or the order ended before the kitchen started on it, or it is stranded. */
  ghost predicate DueBack(t0: Time, ops: seq<Op>, o: OrderId) {
    var db := Run(t0, ops);
    o !in db.orders || (Ended(db, o) && !Ever(t0, ops, o, Preparing)) || Stranded(db, o)
  }

  /** Wherever processes die, reserved stock is held iff it is not due back or all that were to release it died. */
  lemma HeldDespiteDeaths(t0: Time, ops: seq<Op>, died: set<nat>, o: OrderId)
    requires o in Run(t0, ops).reserved
    ensures Made(t0, ops, died, o) == 0 <==> !DueBack(t0, ops, o) || AllDied(t0, ops, died, o)
    ensures Made(t0, ops, died, o) <= 2
  {
    StockConserved(t0, ops, o);
    MadeIffAlive(t0, ops, died, o);
  }

  /** No stock is released once the kitchen has started. */
  lemma NoReleaseAfterKitchen(t0: Time, ops: seq<Op>, op: Op, o: OrderId)
    requires Ever(t0, ops, o, Preparing)
    ensures ReleaseCount(Run(t0, ops), o) == 0 && !ReleasesNow(Run(t0, ops), op, o)
  {
    StockConserved(t0, ops + [op], o);
    StockConserved(t0, ops, o);
    KitchenHistory(t0, ops, o);
    RunExtend(t0, ops, op);
    RunKeepsInitWindow(t0, ops);
    KnownStep(Run(t0, ops), op, o);
  }

  /** The steps that release a known order's stock when it has been released before. */
  predicate ReleasesAgain(db: Db, op: Op, o: OrderId)
    requires o in db.orders
  {
    || (op.OpInitPayment? && op.order == o && o in db.awaitingInit && !op.outcome.SessionCreated?)
    || (op.OpUpdateStatus? && op.order == o && op.target == Cancelled && db.orders[o].status == PendingPayment
        && StatusCheck(db, o, op.caller, Cancelled, op.hasReason).Allowed?)
  }

  /**
   Released stock is released again exactly when payment initialisation fails for an order cancelled while
   it was awaited, or when an order stranded by a failed void is cancelled.
   */
  lemma SecondReleaseIff(t0: Time, ops: seq<Op>, op: Op, o: OrderId)
    requires o in Run(t0, ops).orders && ReleaseCount(Run(t0, ops), o) >= 1
    ensures var db := Run(t0, ops); ReleaseCount(Apply(db, op), o) > ReleaseCount(db, o) <==> ReleasesAgain(db, op, o)
  {
    var db := Run(t0, ops);
    StockConserved(t0, ops, o);
    RunKeepsInitWindow(t0, ops);
    ReleaseCountStep(db, op, o);
    KnownStep(db, op, o);
    NoSessionWhileAwaited(db, o);
    if op.OpUpdateStatus? && op.order == o && ReleasesNow(db, op, o) && db.orders[o].status == PendingPayment {
      AwaitingEdge(db, o, op.caller, op.target, op.hasReason);
    }
  }

  lemma StrandedCancel(db: Db, o: OrderId, c: Caller)
    requires Stranded(db, o) && c.role == OtherRole && c.userId == db.orders[o].customer
    ensures ReleasesNow(db, OpUpdateStatus(o, c, Cancelled, false), o)
  {
  }

  /** Such a run: the void fails, the order stays pending with its stock given back, and its customer cancels it. */
  lemma StrandedThenCancelled(t0: Time, d: Draft, c: Caller)
    requires d.payment == Online && c.role == OtherRole && c.userId == d.customer
    ensures var ops := [OpPlace(1, d, true), OpInitPayment(1, InitAndVoidFailed)];
            && Stranded(Run(t0, ops), 1)
            && ReleaseCount(Run(t0, ops + [OpUpdateStatus(1, c, Cancelled, false)]), 1) == 2
  {
    var place, init := OpPlace(1, d, true), OpInitPayment(1, InitAndVoidFailed);
    var cancel := OpUpdateStatus(1, c, Cancelled, false);
    RunExtend(t0, [], place);
    RunExtend(t0, [place], init);
    RunExtend(t0, [place, init], cancel);
    assert [] + [place] == [place] && [place] + [init] == [place, init];
    var s1 := Apply(EmptyShard(t0), place);
    var s2 := Apply(s1, init);
    assert s2.orders[1] == NewOrder(d, t0) && s2.sessions == [] && 1 !in s2.awaitingInit && ReleaseCount(s2, 1) == 1;
    StrandedCancel(s2, 1, c);
    ReleaseCountStep(s2, cancel, 1);
  }
}
