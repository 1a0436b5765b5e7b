/** What every run keeps true of an order row: the transition table, its stamps and its history. */
module OrderRuns {
  import opened Types
  import opened OrderStatus
  import opened ShardState

  /* ---- the writes an order row can receive ---- */

  /** A write along an edge of the table, with that edge's stamp; only settlement changes the commission. */
  predicate TableWrite(before: Order, after: Order, now: Time) {
    && IsEdge(before.status, after.status)
    && after.status != Assigned
    && (after.commission == before.commission || after.status == Delivered)
    && after == WithStatus(before.(commission := after.commission), after.status,
                           TransitionRule(before.status, after.status).value.stamp, now)
  }

  predicate ClaimWrite(before: Order, after: Order, now: Time) {
    && Claimable(before)
    && after.agent.Some?
    && after == before.(status := Assigned, agent := after.agent, stamps := before.stamps[AssignedAt := now])
  }

  predicate ReleaseWrite(before: Order, after: Order, op: Op) {
    op.OpRelease? && HeldBy(before, op.agent) && after == Released(before)
  }

  /** Voiding an order the customer has already cancelled only moves its stamp. */
  predicate VoidAgain(before: Order, after: Order, now: Time) {
    before.status == Cancelled && after == WithStatus(before, Cancelled, Some(CancelledAt), now)
  }

  predicate RowStep(before: Order, after: Order, op: Op, now: Time) {
    || after == before
    || TableWrite(before, after, now)
    || (op.OpClaim? && ClaimWrite(before, after, now) && after.agent == Some(op.agent))
    || ReleaseWrite(before, after, op)
    || (op.OpInitPayment? && VoidAgain(before, after, now))
  }

  /* ---- who can still be waiting for a payment session ---- */

  predicate AwaitingRow(db: Db, o: OrderId) {
    && o in db.orders
    && db.orders[o].payment.Online?
    && (db.orders[o].status == PendingPayment || db.orders[o].status == Cancelled)
  }

  ghost predicate InitWindow(db: Db) {
    && (forall o | o in db.awaitingInit :: AwaitingRow(db, o))
    && (forall i | 0 <= i < |db.sessions| ::
       db.sessions[i].order in db.orders && db.sessions[i].order !in db.awaitingInit)
  }

  /** Only placements and payment initialisation move the window, and only the latter and reconciles touch sessions. */
  lemma SessionsUntouched(db: Db, op: Op)
    requires !op.OpInitPayment? && !op.OpReconcile?
    ensures Apply(db, op).sessions == db.sessions
  {
  }

  lemma WindowUntouched(db: Db, op: Op)
    requires !op.OpInitPayment? && !op.OpPlace?
    ensures Apply(db, op).awaitingInit == db.awaitingInit
  {
  }

  lemma OrdersUntouched(db: Db, op: Op)
    requires op.OpRecordWebhook? || op.OpCrashReconcile? || op.OpPayout? || op.OpTick?
    ensures Apply(db, op).orders == db.orders
  {
  }

  lemma ClaimRow(db: Db, p: OrderId, a: AgentId)
    ensures var after := ClaimReady(db, p, a);
            after == db || (p in db.orders && db.orders[p].status == Ready
                            && after.orders == db.orders[p := after.orders[p]] && after.orders[p].status == Assigned)
  {
  }

  lemma ReleaseRow(db: Db, a: AgentId, o: OrderId)
    requires o in db.orders
    ensures var after := ReleaseAssigned(db, a);
            o in after.orders && (after.orders[o] == db.orders[o]
              || (db.orders[o].status == Assigned && after.orders[o].status == Ready))
  {
  }

  /** An accepted status change writes the target with the stamp of its edge; a refused one writes nothing. */
  lemma UpdateStatusRow(db: Db, o: OrderId, c: Caller, target: Status, hasReason: bool)
    requires o in db.orders
    ensures var after := UpdateStatus(db, o, c, target, hasReason);
            if StatusCheck(db, o, c, target, hasReason).Allowed? then
              && after.orders == db.orders[o := after.orders[o]]
              && after.orders[o].status == target
              && after.orders[o].commission == db.orders[o].commission
              && TableWrite(db.orders[o], after.orders[o], db.now)
            else after == db
  {
    if StatusCheck(db, o, c, target, hasReason).Allowed? {
      AllowedGivesStamp(db, o, c, target, hasReason);
    }
  }

  lemma AllowedGivesStamp(db: Db, o: OrderId, c: Caller, target: Status, hasReason: bool)
    requires o in db.orders && StatusCheck(db, o, c, target, hasReason).Allowed?
    ensures IsEdge(db.orders[o].status, target) && target != Assigned && target != Placed
    ensures StatusCheck(db, o, c, target, hasReason).stamp == TransitionRule(db.orders[o].status, target).value.stamp
  {
    var actor := ResolveStatusActor(c, db.orders[o]).value;
    assert actor != System;
    assert actor in TransitionRule(db.orders[o].status, target).value.actors;
  }

  /** What a reconcile does to the order table: nothing, or one pending order becomes placed. */
  lemma ReconcileRow(db: Db, txn: TxnId, commitOk: bool)
    ensures var after := Reconcile(db, txn, commitOk);
            || after.orders == db.orders
            || (&& txn in db.reconciling
                && db.reconciling[txn].order in db.orders
                && var o := db.reconciling[txn].order;
                && FindActive(db.sessions, o).Some?
                && db.orders[o].status == PendingPayment
                && after.orders == db.orders[o := WithStatus(db.orders[o], Placed, None, db.now)])
  {
  }

  lemma InitPaymentRow(db: Db, p: OrderId, outcome: InitOutcome)
    requires InitWindow(db)
    ensures var after := InitPayment(db, p, outcome);
            || after.orders == db.orders
            || (p in db.orders && db.orders[p].status in {PendingPayment, Cancelled}
                && after.orders == db.orders[p := WithStatus(db.orders[p], Cancelled, Some(CancelledAt), db.now)])
  {
    if p in db.awaitingInit {
      assert AwaitingRow(db, p);
    }
  }

  lemma PickUpRow(db: Db, o: OrderId, a: AgentId)
    requires o in db.orders
    ensures var after := PickUp(db, o, a);
            after == db || (after.orders == db.orders[o := after.orders[o]]
              && TableWrite(db.orders[o], after.orders[o], db.now))
  {
  }

  lemma SettleRow(db: Db, o: OrderId, a: AgentId, bps: int, share: int)
    requires o in db.orders
    ensures var after := SettleDelivered(db, o, a, bps, share);
            after == db || (after.orders == db.orders[o := after.orders[o]]
              && TableWrite(db.orders[o], after.orders[o], db.now))
  {
  }

  /** An existing row survives and receives one of the five writes. */
  predicate RowSteps(db: Db, after: Db, op: Op, o: OrderId) {
    o in db.orders && o in after.orders && RowStep(db.orders[o], after.orders[o], op, db.now)
  }

  lemma InitPaymentStep(db: Db, p: OrderId, outcome: InitOutcome, o: OrderId)
    requires InitWindow(db) && o in db.orders
    ensures RowSteps(db, InitPayment(db, p, outcome), OpInitPayment(p, outcome), o)
  {
    InitPaymentRow(db, p, outcome);
  }

  lemma ReconcileStep(db: Db, txn: TxnId, commitOk: bool, o: OrderId)
    requires o in db.orders
    ensures RowSteps(db, Reconcile(db, txn, commitOk), OpReconcile(txn, commitOk), o)
  {
    ReconcileRow(db, txn, commitOk);
  }

  lemma UpdateStatusStep(db: Db, p: OrderId, c: Caller, target: Status, hasReason: bool, o: OrderId)
    requires o in db.orders
    ensures RowSteps(db, UpdateStatus(db, p, c, target, hasReason), OpUpdateStatus(p, c, target, hasReason), o)
  {
    if p in db.orders { UpdateStatusRow(db, p, c, target, hasReason); }
  }

  lemma ClaimStep(db: Db, p: OrderId, a: AgentId, o: OrderId)
    requires o in db.orders
    ensures RowSteps(db, ClaimReady(db, p, a), OpClaim(p, a), o)
  {
  }

  lemma ReleaseStep(db: Db, a: AgentId, o: OrderId)
    requires o in db.orders
    ensures RowSteps(db, ReleaseAssigned(db, a), OpRelease(a), o)
  {
  }

  lemma PickUpStep(db: Db, p: OrderId, a: AgentId, o: OrderId)
    requires o in db.orders
    ensures RowSteps(db, PickUp(db, p, a), OpPickUp(p, a), o)
  {
    if p in db.orders { PickUpRow(db, p, a); }
  }

  lemma SettleStep(db: Db, p: OrderId, a: AgentId, bps: int, share: int, o: OrderId)
    requires o in db.orders
    ensures RowSteps(db, SettleDelivered(db, p, a, bps, share), OpSettle(p, a, bps, share), o)
  {
    if p in db.orders { SettleRow(db, p, a, bps, share); }
  }

  /** A placement moves no existing row. */
  lemma PlaceStep(db: Db, p: OrderId, d: Draft, commitOk: bool, o: OrderId)
    requires o in db.orders
    ensures RowSteps(db, PlaceOrder(db, p, d, commitOk), OpPlace(p, d, commitOk), o)
  {
  }

  /** Every existing row survives a step and receives one of the five writes. */
  lemma StepRow(db: Db, op: Op, o: OrderId)
    requires InitWindow(db) && o in db.orders
    ensures o in Apply(db, op).orders
    ensures RowStep(db.orders[o], Apply(db, op).orders[o], op, db.now)
  {
    assert RowSteps(db, Apply(db, op), op, o) by {
      match op
      case OpPlace(p, d, commitOk) => PlaceStep(db, p, d, commitOk, o);
      case OpInitPayment(p, outcome) => InitPaymentStep(db, p, outcome, o);
      case OpReconcile(txn, commitOk) => ReconcileStep(db, txn, commitOk, o);
      case OpUpdateStatus(p, c, target, hasReason) => UpdateStatusStep(db, p, c, target, hasReason, o);
      case OpClaim(p, a) => ClaimStep(db, p, a, o);
      case OpRelease(a) => ReleaseStep(db, a, o);
      case OpPickUp(p, a) => PickUpStep(db, p, a, o);
      case OpSettle(p, a, bps, share) => SettleStep(db, p, a, bps, share, o);
      case _ => OrdersUntouched(db, op);
    }
  }

  /** A row that appears in a step is a fresh placement. */
  lemma StepNewRow(db: Db, op: Op, o: OrderId)
    requires InitWindow(db) && o !in db.orders && o in Apply(db, op).orders
    ensures op.OpPlace? && op.order == o && Apply(db, op).orders[o] == NewOrder(op.draft, db.now)
    ensures Apply(db, op).now == db.now
  {
    match op
    case OpInitPayment(p, outcome) => InitPaymentRow(db, p, outcome);
    case OpReconcile(txn, commitOk) => ReconcileRow(db, txn, commitOk);
    case OpUpdateStatus(p, c, target, hasReason) => if p in db.orders { UpdateStatusRow(db, p, c, target, hasReason); }
    case _ =>
  }

  lemma InitWindowStep(db: Db, op: Op)
    requires InitWindow(db)
    ensures InitWindow(Apply(db, op))
  {
    var after := Apply(db, op);
    forall o | o in after.awaitingInit ensures AwaitingRow(after, o) {
      if o in db.awaitingInit {
        assert AwaitingRow(db, o);
        AwaitingStep(db, op, o);
      }
    }
    forall i | 0 <= i < |after.sessions|
      ensures after.sessions[i].order in after.orders && after.sessions[i].order !in after.awaitingInit
    {
      SessionStep(db, op, i);
      if after.sessions[i].order in db.orders { StepRow(db, op, after.sessions[i].order); }
    }
  }

  /** While its payment session is awaited, an order can at most be cancelled. */
  lemma AwaitingStep(db: Db, op: Op, o: OrderId)
    requires InitWindow(db) && o in db.awaitingInit && o in Apply(db, op).awaitingInit
    ensures AwaitingRow(Apply(db, op), o)
  {
    assert AwaitingRow(db, o);
    StepRow(db, op, o);
    match op
    case OpUpdateStatus(p, c, target, hasReason) =>
      if p in db.orders {
        UpdateStatusRow(db, p, c, target, hasReason);
        if p == o && StatusCheck(db, o, c, target, hasReason).Allowed? { AwaitingEdge(db, o, c, target, hasReason); }
      }
    case OpReconcile(txn, commitOk) => AwaitingReconcile(db, txn, commitOk, o);
    case OpInitPayment(p, outcome) => InitPaymentRow(db, p, outcome);
    case OpPlace(p, d, commitOk) =>
    case OpClaim(p, a) => ClaimRow(db, p, a);
    case OpRelease(a) => ReleaseRow(db, a, o);
    case OpPickUp(p, a) => if p in db.orders { PickUpRow(db, p, a); }
    case OpSettle(p, a, bps, share) => if p in db.orders { SettleRow(db, p, a, bps, share); }
    case _ => OrdersUntouched(db, op);
  }

  /** No session exists for an awaited order yet, so no reconcile reaches it. */
  lemma AwaitingReconcile(db: Db, txn: TxnId, commitOk: bool, o: OrderId)
    requires InitWindow(db) && o in db.awaitingInit && o in db.orders
    ensures o in Reconcile(db, txn, commitOk).orders && Reconcile(db, txn, commitOk).orders[o] == db.orders[o]
  {
    ReconcileRow(db, txn, commitOk);
  }

  lemma AwaitingEdge(db: Db, o: OrderId, c: Caller, target: Status, hasReason: bool)
    requires o in db.orders && db.orders[o].status in {PendingPayment, Cancelled}
    requires StatusCheck(db, o, c, target, hasReason).Allowed?
    ensures target == Cancelled
  {
    AllowedGivesStamp(db, o, c, target, hasReason);
  }

  /** Session rows are only added for an awaited order, and never change the order they belong to. */
  lemma SessionStep(db: Db, op: Op, i: nat)
    requires InitWindow(db) && i < |Apply(db, op).sessions|
    ensures var after := Apply(db, op);
            && (i < |db.sessions| ==> after.sessions[i].order == db.sessions[i].order)
            && (i >= |db.sessions| ==>
                  op.OpInitPayment? && after.sessions[i].order == op.order && op.order in db.orders)
            && after.sessions[i].order !in after.awaitingInit
  {
    match op
    case OpInitPayment(p, outcome) => InitSessions(db, p, outcome, i);
    case OpReconcile(txn, commitOk) =>
      WindowUntouched(db, op);
      ReconcileSessions(db, txn, commitOk, i);
    case OpPlace(p, d, commitOk) => PlaceWindow(db, p, d, commitOk, i);
    case _ =>
      SessionsUntouched(db, op);
      WindowUntouched(db, op);
  }

  lemma InitSessions(db: Db, p: OrderId, outcome: InitOutcome, i: nat)
    requires InitWindow(db) && i < |InitPayment(db, p, outcome).sessions|
    ensures var after := InitPayment(db, p, outcome);
            && (i < |db.sessions| ==> after.sessions[i].order == db.sessions[i].order)
            && (i >= |db.sessions| ==> after.sessions[i].order == p && p in db.orders)
            && after.sessions[i].order !in after.awaitingInit
  {
  }

  lemma ReconcileSessions(db: Db, txn: TxnId, commitOk: bool, i: nat)
    ensures |Reconcile(db, txn, commitOk).sessions| == |db.sessions|
    ensures i < |db.sessions| ==> Reconcile(db, txn, commitOk).sessions[i].order == db.sessions[i].order
  {
  }

  lemma PlaceWindow(db: Db, p: OrderId, d: Draft, commitOk: bool, i: nat)
    requires InitWindow(db) && i < |db.sessions|
    ensures var after := PlaceOrder(db, p, d, commitOk);
            after.sessions == db.sessions && after.sessions[i].order !in after.awaitingInit
  {
  }

  lemma {:induction false} RunKeepsInitWindow(t0: Time, ops: seq<Op>)
    ensures InitWindow(Run(t0, ops))
  {
    if ops != [] {
      RunKeepsInitWindow(t0, ops[..|ops| - 1]);
      InitWindowStep(Run(t0, ops[..|ops| - 1]), ops[|ops| - 1]);
    }
  }

  /* ---- every writer follows the table ---- */

  /** A write of the run: no change of status, an edge of the table, or a release by goOffline. */
  predicate FollowsTable(before: Order, after: Order, op: Op) {
    || before.status == after.status
    || IsEdge(before.status, after.status)
    || (op.OpRelease? && before.status == Assigned && after.status == Ready && before.agent == Some(op.agent))
  }

  /** In any run, each step writes each order along the table and leaves no terminal status. */
  lemma StepFollowsTable(t0: Time, ops: seq<Op>, op: Op, o: OrderId)
    requires o in Run(t0, ops).orders
    ensures var before, after := Run(t0, ops), Run(t0, ops + [op]);
            && o in after.orders
            && FollowsTable(before.orders[o], after.orders[o], op)
            && (Terminal(before.orders[o].status) ==> after.orders[o].status == before.orders[o].status)
  {
    RunKeepsInitWindow(t0, ops);
    RunExtend(t0, ops, op);
    StepRow(Run(t0, ops), op, o);
    TableIsAcyclic(Run(t0, ops).orders[o].status, Apply(Run(t0, ops), op).orders[o].status);
  }

  lemma RunExtend(t0: Time, ops: seq<Op>, op: Op)
    ensures Run(t0, ops + [op]) == Apply(Run(t0, ops), op)
  {
    assert (ops + [op])[..|ops|] == ops;
  }

  /** An agent is never overwritten: a claim of a ready order sets it, and only that agent's release clears it. */
  lemma AgentNeverOverwritten(t0: Time, ops: seq<Op>, op: Op, o: OrderId)
    requires o in Run(t0, ops).orders
    ensures o in Run(t0, ops + [op]).orders
    ensures var before, after := Run(t0, ops).orders[o], Run(t0, ops + [op]).orders[o];
            || after.agent == before.agent
            || (before.agent == None && before.status == Ready && op.OpClaim? && after.agent == Some(op.agent))
            || (before.status == Assigned && op.OpRelease? && before.agent == Some(op.agent) && after.agent == None)
  {
    RunKeepsInitWindow(t0, ops);
    RunExtend(t0, ops, op);
    StepRow(Run(t0, ops), op, o);
  }

  /* ---- the reachable rows ---- */

  predicate Undispatched(st: Status) {
    st == PendingPayment || st == Placed || st == Accepted || st == Rejected || st == Preparing || st == Ready
  }

  predicate Dispatched(st: Status) {
    st == Assigned || st == Picked || st == Delivered
  }

  /** Which stamps a row carries, by its status; a cancelled row keeps those of the stages it went through. */
  predicate StampsMatchStatus(ord: Order) {
    var s, st := ord.stamps, ord.status;
    && (Undispatched(st) ==> ord.agent == None)
    && (Dispatched(st) ==> ord.agent.Some?)
    && (AssignedAt in s <==> ord.agent.Some?)
    && (AssignedAt in s ==> ReadyAt in s)
    && (ReadyAt in s ==> AcceptedAt in s)
    && (st == Accepted || st == Preparing ==> AcceptedAt in s && ReadyAt !in s)
    && (st == Ready || Dispatched(st) ==> ReadyAt in s)
    && (st == PendingPayment || st == Placed || st == Rejected ==> AcceptedAt !in s)
    && (RejectedAt in s <==> st == Rejected)
    && (PickedAt in s <==> st == Picked || st == Delivered)
    && (DeliveredAt in s <==> st == Delivered)
    && (CancelledAt in s <==> st == Cancelled)
  }

  /** Stage times in the order the history lists them. */
  predicate StampsOrdered(ord: Order, now: Time) {
    var s := ord.stamps;
    && ord.createdAt <= now
    && (forall x | x in s :: ord.createdAt <= s[x] <= now)
    && (ReadyAt in s && AcceptedAt in s ==> s[AcceptedAt] <= s[ReadyAt])
    && (AssignedAt in s && ReadyAt in s ==> s[ReadyAt] <= s[AssignedAt])
    && (PickedAt in s && AssignedAt in s ==> s[AssignedAt] <= s[PickedAt])
    && (DeliveredAt in s && PickedAt in s ==> s[PickedAt] <= s[DeliveredAt])
    && (CancelledAt in s ==> forall x | x in s :: s[x] <= s[CancelledAt])
  }

  predicate RowOk(ord: Order, now: Time) {
    && ord.total == ord.subtotal + ord.deliveryFee + ord.serviceFee
    && ord.serviceFee == SERVICE_FEE_MINOR
    && (ord.status == PendingPayment ==> ord.payment.Online?)
    && (ord.status != Delivered ==> ord.commission == 0)
    && StampsMatchStatus(ord)
    && StampsOrdered(ord, now)
  }

  ghost predicate OrdersOk(db: Db) {
    InitWindow(db) && forall o | o in db.orders :: RowOk(db.orders[o], db.now)
  }

  lemma TableWriteOk(before: Order, after: Order, now: Time)
    requires RowOk(before, now) && TableWrite(before, after, now)
    ensures RowOk(after, now)
  {
  }

  lemma RowOkKept(before: Order, after: Order, op: Op, now: Time)
    requires RowOk(before, now) && RowStep(before, after, op, now)
    ensures RowOk(after, now)
  {
    if TableWrite(before, after, now) { TableWriteOk(before, after, now); }
  }

  lemma ClockMonotone(db: Db, op: Op)
    ensures db.now <= Apply(db, op).now
    ensures !op.OpTick? ==> db.now == Apply(db, op).now
  {
  }

  lemma OrdersOkStep(db: Db, op: Op)
    requires OrdersOk(db)
    ensures OrdersOk(Apply(db, op))
  {
    InitWindowStep(db, op);
    ClockMonotone(db, op);
    forall o | o in Apply(db, op).orders ensures RowOk(Apply(db, op).orders[o], Apply(db, op).now) {
      if o in db.orders {
        assert RowOk(db.orders[o], db.now);
        StepRow(db, op, o);
        RowOkKept(db.orders[o], Apply(db, op).orders[o], op, db.now);
      } else {
        StepNewRow(db, op, o);
      }
    }
  }

  /** Every order row of every reachable state carries the money, agent and stamps its status calls for. */
  lemma {:induction false} RunKeepsOrders(t0: Time, ops: seq<Op>)
    ensures OrdersOk(Run(t0, ops))
  {
    if ops != [] {
      RunKeepsOrders(t0, ops[..|ops| - 1]);
      OrdersOkStep(Run(t0, ops[..|ops| - 1]), ops[|ops| - 1]);
    }
  }

  /* ---- whole runs ---- */

  predicate Changed(before: Db, after: Db, o: OrderId) {
    o in before.orders && o in after.orders && before.orders[o].status != after.orders[o].status
  }

  /** Number of status changes of an order after its creation. */
  ghost function Changes(t0: Time, ops: seq<Op>, o: OrderId): nat {
    if ops == [] then 0
    else
      var prior := ops[..|ops| - 1];
      Changes(t0, prior, o) + if Changed(Run(t0, prior), Run(t0, ops), o) then 1 else 0
  }

  /** Number of those changes that goOffline made. */
  ghost function Releases(t0: Time, ops: seq<Op>, o: OrderId): nat {
    if ops == [] then 0
    else
      var prior := ops[..|ops| - 1];
      Releases(t0, prior, o) + if ops[|ops| - 1].OpRelease? && Changed(Run(t0, prior), Run(t0, ops), o) then 1 else 0
  }

  lemma RankStep(before: Order, after: Order, op: Op, now: Time)
    requires RowStep(before, after, op, now)
    ensures before.status != after.status ==>
              if op.OpRelease? && before.status == Assigned && after.status == Ready
              then Rank(after.status) == Rank(before.status) - 1
              else Rank(before.status) < Rank(after.status)
  {
    TableIsAcyclic(before.status, after.status);
  }

  /** No order changes status more often than the length of the table allows, plus two for each release. */
  lemma {:induction false} ChangesBounded(t0: Time, ops: seq<Op>, o: OrderId)
    ensures o !in Run(t0, ops).orders ==> Changes(t0, ops, o) == 0
    ensures o in Run(t0, ops).orders ==>
              Changes(t0, ops, o) <= Rank(Run(t0, ops).orders[o].status) + 2 * Releases(t0, ops, o)
    ensures Changes(t0, ops, o) <= 7 + 2 * Releases(t0, ops, o)
  {
    if ops != [] {
      var prior, op := ops[..|ops| - 1], ops[|ops| - 1];
      ChangesBounded(t0, prior, o);
      RunKeepsInitWindow(t0, prior);
      if o in Run(t0, prior).orders {
        StepRow(Run(t0, prior), op, o);
        RankStep(Run(t0, prior).orders[o], Run(t0, ops).orders[o], op, Run(t0, prior).now);
      }
    }
  }

  /** A delivered, rejected or cancelled order keeps that status for the rest of any run. */
  lemma {:induction false} TerminalForever(t0: Time, ops: seq<Op>, more: seq<Op>, o: OrderId)
    requires o in Run(t0, ops).orders && Terminal(Run(t0, ops).orders[o].status)
    ensures HasStatus(Run(t0, ops + more), o, Run(t0, ops).orders[o].status)
    decreases |more|
  {
    if more == [] {
      assert ops + more == ops;
    } else {
      var rest := ops + more[..|more| - 1];
      assert ops + more == rest + [more[|more| - 1]];
      TerminalForever(t0, ops, more[..|more| - 1], o);
      StepFollowsTable(t0, rest, more[|more| - 1], o);
    }
  }

  /** The stage whose writer sets a stamp; `assigned_at` is the one stamp a release takes back. */
  function StageOf(s: Stamp): Status {
    match s
    case AcceptedAt => Accepted
    case RejectedAt => Rejected
    case ReadyAt => Ready
    case AssignedAt => Assigned
    case PickedAt => Picked
    case DeliveredAt => Delivered
    case CancelledAt => Cancelled
  }

  /** An edge stamps the stage it enters; the two edges without a stamp enter stages that have no column. */
  lemma EdgeStamp(from: Status, to: Status, s: Stamp)
    requires IsEdge(from, to)
    ensures TransitionRule(from, to).value.stamp == Some(s) <==> StageOf(s) == to
  {
  }

  /** A write sets a stamp exactly when it enters that stage. */
  lemma StampStep(before: Order, after: Order, op: Op, now: Time, s: Stamp)
    requires RowOk(before, now) && RowStep(before, after, op, now) && s != AssignedAt
    ensures s in after.stamps <==> s in before.stamps || after.status == StageOf(s)
  {
    RowOkKept(before, after, op, now);
    if TableWrite(before, after, now) { EdgeStamp(before.status, after.status, s); }
  }

  /** Every stamp but assigned_at is set iff the order has been in that stage at some point of the run. */
  lemma {:induction false} StampIffStageReached(t0: Time, ops: seq<Op>, o: OrderId, s: Stamp)
    requires s != AssignedAt
    ensures o in Run(t0, ops).orders && s in Run(t0, ops).orders[o].stamps <==> Ever(t0, ops, o, StageOf(s))
  {
    if ops != [] {
      var prior, op := ops[..|ops| - 1], ops[|ops| - 1];
      var before := Run(t0, prior);
      StampIffStageReached(t0, prior, o, s);
      RunKeepsOrders(t0, prior);
      if o in before.orders {
        StepRow(before, op, o);
        StampStep(before.orders[o], Apply(before, op).orders[o], op, before.now, s);
      } else if o in Apply(before, op).orders {
        StepNewRow(before, op, o);
      }
    }
  }

  predicate Unstamped(db: Db, o: OrderId, s: Stamp) {
    o in db.orders ==> s !in db.orders[o].stamps
  }

  lemma CancelledStamps(db: Db, o: OrderId)
    requires OrdersOk(db) && HasStatus(db, o, Cancelled)
    ensures Unstamped(db, o, PickedAt) && Unstamped(db, o, DeliveredAt)
  {
    assert RowOk(db.orders[o], db.now);
  }

  lemma CancelledUnstamped(t0: Time, ops: seq<Op>, o: OrderId)
    requires HasStatus(Run(t0, ops), o, Cancelled)
    ensures Unstamped(Run(t0, ops), o, PickedAt) && Unstamped(Run(t0, ops), o, DeliveredAt)
  {
    RunKeepsOrders(t0, ops);
    CancelledStamps(Run(t0, ops), o);
  }

  lemma UnstampedNever(t0: Time, ops: seq<Op>, o: OrderId, s: Stamp, st: Status)
    requires s != AssignedAt && st == StageOf(s) && Unstamped(Run(t0, ops), o, s)
    ensures !Ever(t0, ops, o, st)
  {
    StampIffStageReached(t0, ops, o, s);
  }

  /** An order that was ever picked up is never cancelled. */
  lemma CancelledNeverPicked(t0: Time, ops: seq<Op>, o: OrderId)
    requires HasStatus(Run(t0, ops), o, Cancelled)
    ensures !Ever(t0, ops, o, Picked) && !Ever(t0, ops, o, Delivered)
  {
    CancelledUnstamped(t0, ops, o);
    UnstampedNever(t0, ops, o, PickedAt, Picked);
    UnstampedNever(t0, ops, o, DeliveredAt, Delivered);
  }

  /* ---- the status history shown to the customer ---- */

  datatype Entry = Entry(status: Status, ts: Time)

  function EntryFor(ord: Order, s: Stamp): seq<Entry> {
    if s in ord.stamps then [Entry(StageOf(s), ord.stamps[s])] else []
  }

  predicate SortedByTime(h: seq<Entry>) {
    forall i, j | 0 <= i < j < |h| :: h[i].ts <= h[j].ts
  }

  predicate EntryOf(ord: Order, e: Entry) {
    || e == Entry(Placed, ord.createdAt)
    || (ord.payment.Online? && e == Entry(PendingPayment, ord.createdAt))
    || exists s :: s in ord.stamps && e == Entry(StageOf(s), ord.stamps[s])
  }

  /** Columns in the order buildHistory pushes them. */
  const HISTORY_COLUMNS: seq<Stamp> := [AcceptedAt, RejectedAt, ReadyAt, AssignedAt, PickedAt, DeliveredAt, CancelledAt]

  /** Position of a stage among the pushes of buildHistory. */
  function HistoryRank(st: Status): nat {
    match st
    case PendingPayment => 0
    case Placed => 1
    case Accepted => 2
    case Rejected => 3
    case Ready => 4
    case Assigned => 5
    case Picked => 6
    case Delivered => 7
    case Cancelled => 8
    case Preparing => 9
  }

  predicate InHistoryOrder(h: seq<Entry>) {
    forall i, j | 0 <= i < j < |h| :: HistoryRank(h[i].status) < HistoryRank(h[j].status)
  }

  /** The placement and the stages of the first `n` columns, in order. */
  predicate HistoryUpTo(ord: Order, h: seq<Entry>, n: nat)
    requires n <= |HISTORY_COLUMNS|
  {
    && (forall e | e in h :: EntryOf(ord, e) && HistoryRank(e.status) < n + 2)
    && Entry(Placed, ord.createdAt) in h
    && (ord.payment.Online? ==> Entry(PendingPayment, ord.createdAt) in h)
    && (forall k | 0 <= k < n && HISTORY_COLUMNS[k] in ord.stamps ::
          Entry(StageOf(HISTORY_COLUMNS[k]), ord.stamps[HISTORY_COLUMNS[k]]) in h)
    && InHistoryOrder(h)
  }

  /** They are in time order, and no later column has an earlier time. */
  predicate TimesUpTo(ord: Order, h: seq<Entry>, n: nat)
    requires n <= |HISTORY_COLUMNS|
  {
    && SortedByTime(h)
    && forall k | n <= k < |HISTORY_COLUMNS| && HISTORY_COLUMNS[k] in ord.stamps ::
         forall e | e in h :: e.ts <= ord.stamps[HISTORY_COLUMNS[k]]
  }

  lemma HistoryBegins(ord: Order, now: Time, h: seq<Entry>)
    requires h == (if ord.payment.Online? then [Entry(PendingPayment, ord.createdAt)] else [])
                  + [Entry(Placed, ord.createdAt)]
    ensures HistoryUpTo(ord, h, 0) && (RowOk(ord, now) ==> TimesUpTo(ord, h, 0))
  {
  }

  lemma HistoryGrows(ord: Order, now: Time, h: seq<Entry>, n: nat)
    requires n < |HISTORY_COLUMNS| && HistoryUpTo(ord, h, n)
    ensures HistoryUpTo(ord, h + EntryFor(ord, HISTORY_COLUMNS[n]), n + 1)
    ensures RowOk(ord, now) && TimesUpTo(ord, h, n) ==> TimesUpTo(ord, h + EntryFor(ord, HISTORY_COLUMNS[n]), n + 1)
  {
    ColumnRank(n);
    EntriesAdded(ord, h, n);
    if RowOk(ord, now) && TimesUpTo(ord, h, n) { TimesAdded(ord, now, h, n); }
  }

  lemma EntriesAdded(ord: Order, h: seq<Entry>, n: nat)
    requires n < |HISTORY_COLUMNS| && HistoryUpTo(ord, h, n)
    ensures HistoryUpTo(ord, h + EntryFor(ord, HISTORY_COLUMNS[n]), n + 1)
  {
    ColumnRank(n);
  }

  lemma TimesAdded(ord: Order, now: Time, h: seq<Entry>, n: nat)
    requires n < |HISTORY_COLUMNS| && RowOk(ord, now) && TimesUpTo(ord, h, n)
    ensures TimesUpTo(ord, h + EntryFor(ord, HISTORY_COLUMNS[n]), n + 1)
  {
  }

  /** buildHistory: exactly one entry per stage with a time, in stage order, which for a reachable row is time order. */
  method BuildHistory(ord: Order, ghost now: Time) returns (out: seq<Entry>)
    ensures forall e | e in out :: EntryOf(ord, e)
    ensures Entry(Placed, ord.createdAt) in out
    ensures ord.payment.Online? ==> Entry(PendingPayment, ord.createdAt) in out
    ensures forall s: Stamp | s in ord.stamps :: Entry(StageOf(s), ord.stamps[s]) in out
    ensures InHistoryOrder(out)
    ensures RowOk(ord, now) ==> SortedByTime(out)
  {
    out := if ord.payment.Online? then [Entry(PendingPayment, ord.createdAt)] else [];
    out := out + [Entry(Placed, ord.createdAt)];
    HistoryBegins(ord, now, out);
    for i := 0 to |HISTORY_COLUMNS|
      invariant HistoryUpTo(ord, out, i) && (RowOk(ord, now) ==> TimesUpTo(ord, out, i))
    {
      HistoryGrows(ord, now, out, i);
      out := out + EntryFor(ord, HISTORY_COLUMNS[i]);
    }
    forall s | s in ord.stamps ensures Entry(StageOf(s), ord.stamps[s]) in out {
      ColumnListed(s);
    }
  }

  lemma ColumnRank(i: nat)
    requires i < |HISTORY_COLUMNS|
    ensures HistoryRank(StageOf(HISTORY_COLUMNS[i])) == i + 2
  {
  }

  lemma ColumnListed(s: Stamp)
    ensures exists k :: 0 <= k < |HISTORY_COLUMNS| && HISTORY_COLUMNS[k] == s
  {
    match s
    case AcceptedAt => assert HISTORY_COLUMNS[0] == s;
    case RejectedAt => assert HISTORY_COLUMNS[1] == s;
    case ReadyAt => assert HISTORY_COLUMNS[2] == s;
    case AssignedAt => assert HISTORY_COLUMNS[3] == s;
    case PickedAt => assert HISTORY_COLUMNS[4] == s;
    case DeliveredAt => assert HISTORY_COLUMNS[5] == s;
    case CancelledAt => assert HISTORY_COLUMNS[6] == s;
  }
}
