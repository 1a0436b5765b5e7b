/** Sessions, captures, provider events and the order.placed event, over every run. */
module Payments {
  import opened Types
  import opened OrderStatus
  import opened ShardState
  import opened OrderRuns

  /* ---- one session per order, and a closed session stays closed ---- */

  ghost predicate SessionsOk(db: Db) {
    && OrdersOk(db)
    && (forall i, j | 0 <= i < j < |db.sessions| :: db.sessions[i].order != db.sessions[j].order)
    && (forall i | 0 <= i < |db.sessions| :: SessionRowOk(db, i))
  }

  predicate SessionRowOk(db: Db, i: nat)
    requires i < |db.sessions|
  {
    var s := db.sessions[i];
    && s.order in db.orders
    && db.orders[s.order].payment.Online?
    && s.amount == db.orders[s.order].total
    && s.status in {Initialized, Captured, SessionFailed}
  }

  ghost predicate IsCaptured(sessions: seq<Session>, o: OrderId) {
    exists i | 0 <= i < |sessions| :: sessions[i].order == o && sessions[i].status == Captured
  }

  /** The columns fixed at placement. */
  predicate SameOrder(a: Order, b: Order) {
    && a.restaurant == b.restaurant && a.payment == b.payment && a.currency == b.currency && a.owner == b.owner
    && a.subtotal == b.subtotal && a.deliveryFee == b.deliveryFee && a.serviceFee == b.serviceFee && a.total == b.total
  }

  lemma RowStepSameOrder(before: Order, after: Order, op: Op, now: Time)
    requires RowStep(before, after, op, now)
    ensures SameOrder(before, after)
  {
  }

  /** A session row changes at most once, from active to captured or failed, when its order is reconciled. */
  lemma SessionChange(db: Db, op: Op, i: nat)
    requires InitWindow(db) && i < |db.sessions|
    ensures i < |Apply(db, op).sessions|
    ensures var before, after := db.sessions[i], Apply(db, op).sessions[i];
            || after == before
            || (Active(before) && op.OpReconcile?
               && (after == ClosedSession(before, true) || after == ClosedSession(before, false)))
  {
    match op
    case OpInitPayment(p, outcome) => InitKeepsRows(db, p, outcome, i);
    case OpReconcile(txn, commitOk) => ReconcileKeepsRows(db, txn, commitOk, i);
    case _ => SessionsUntouched(db, op);
  }

  lemma InitKeepsRows(db: Db, p: OrderId, outcome: InitOutcome, i: nat)
    requires i < |db.sessions|
    ensures var after := InitPayment(db, p, outcome).sessions; i < |after| && after[i] == db.sessions[i]
  {
  }

  lemma ReconcileKeepsRows(db: Db, txn: TxnId, commitOk: bool, i: nat)
    requires i < |db.sessions|
    ensures var after, before := Reconcile(db, txn, commitOk).sessions, db.sessions[i];
            && i < |after|
            && (after[i] == before || (Active(before)
               && (after[i] == ClosedSession(before, true) || after[i] == ClosedSession(before, false))))
  {
  }

  lemma NewSessionRow(db: Db, op: Op)
    requires InitWindow(db) && |Apply(db, op).sessions| > |db.sessions|
    ensures op.OpInitPayment? && op.order in db.awaitingInit && op.order in db.orders
    ensures Apply(db, op).sessions == db.sessions + [NewSession(op.order, db.orders[op.order])]
    ensures Apply(db, op).orders == db.orders
  {
    match op
    case OpInitPayment(p, outcome) =>
    case OpReconcile(txn, commitOk) => ReconcileSessions(db, txn, commitOk, 0);
    case _ => SessionsUntouched(db, op);
  }

  lemma SessionsOkStep(db: Db, op: Op)
    requires SessionsOk(db)
    ensures SessionsOk(Apply(db, op))
  {
    var after := Apply(db, op);
    OrdersOkStep(db, op);
    if |after.sessions| > |db.sessions| {
      NewSessionRow(db, op);
      forall i | 0 <= i < |after.sessions| ensures SessionRowOk(after, i) {
        if i < |db.sessions| { assert SessionRowOk(db, i); } else { assert AwaitingRow(db, op.order); }
      }
    } else {
      forall i | 0 <= i < |after.sessions|
        ensures SessionRowOk(after, i) && after.sessions[i].order == db.sessions[i].order
      {
        assert SessionRowOk(db, i);
        SessionChange(db, op, i);
        StepRow(db, op, db.sessions[i].order);
        RowStepSameOrder(db.orders[db.sessions[i].order], after.orders[db.sessions[i].order], op, db.now);
      }
    }
  }

  lemma {:induction false} RunKeepsSessions(t0: Time, ops: seq<Op>)
    ensures SessionsOk(Run(t0, ops))
  {
    if ops != [] {
      RunKeepsSessions(t0, ops[..|ops| - 1]);
      SessionsOkStep(Run(t0, ops[..|ops| - 1]), ops[|ops| - 1]);
    }
  }

  /** Once captured or failed, a session is never active again, whatever deliveries follow. */
  lemma {:induction false} ClosedForever(t0: Time, ops: seq<Op>, more: seq<Op>, i: nat)
    requires i < |Run(t0, ops).sessions| && !Active(Run(t0, ops).sessions[i])
    ensures i < |Run(t0, ops + more).sessions| && Run(t0, ops + more).sessions[i] == Run(t0, ops).sessions[i]
    decreases |more|
  {
    if more == [] {
      assert ops + more == ops;
    } else {
      var rest := ops + more[..|more| - 1];
      assert ops + more == rest + [more[|more| - 1]];
      ClosedForever(t0, ops, more[..|more| - 1], i);
      RunKeepsInitWindow(t0, rest);
      RunExtend(t0, rest, more[|more| - 1]);
      SessionChange(Run(t0, rest), more[|more| - 1], i);
    }
  }

  /* ---- captures ---- */

  predicate IsCharge(tx: Tx, o: OrderId) {
    tx.kind == Charge && tx.status == Succeeded && tx.order == Some(o)
  }

  /** The step captures the active session of order `o`. */
  predicate CapturesNow(db: Db, op: Op, o: OrderId) {
    && op.OpReconcile? && op.txn in db.reconciling
    && db.reconciling[op.txn].order == o && db.reconciling[op.txn].success
    && ReconcileVerdict(db, db.reconciling[op.txn], op.txn, op.commitOk).Booked?
  }

  lemma SettledLedgerKeeps(ledger: map<LedgerKey, Tx>, o: OrderId, ord: Order, commission: int, k: LedgerKey)
    ensures var after := SettledLedger(ledger, o, ord, commission); k in ledger ==> k in after && after[k] == ledger[k]
    ensures k !in ledger && k in SettledLedger(ledger, o, ord, commission) ==>
              && k in {CodCollectKey(o), CommissionKey(o), ServiceFeeKey(o), DeliveryFeeKey(o)}
              && SettledLedger(ledger, o, ord, commission)[k].kind
                 in {CodCollection, Commission, ServiceFee, DeliveryFee}
  {
  }

  lemma LedgerUntouched(db: Db, op: Op)
    requires !op.OpReconcile? && !op.OpSettle? && !op.OpPayout?
    ensures Apply(db, op).ledger == db.ledger
  {
  }

  /** Ledger rows are never changed or removed, and a charge appears only with the capture of its session. */
  lemma LedgerAppendOnly(db: Db, op: Op, k: LedgerKey)
    ensures k in db.ledger ==> k in Apply(db, op).ledger && Apply(db, op).ledger[k] == db.ledger[k]
    ensures k !in db.ledger && k in Apply(db, op).ledger && Apply(db, op).ledger[k].kind == Charge ==>
              && op.OpReconcile? && op.txn in db.reconciling && k == KashierKey(op.txn)
              && var d := db.reconciling[op.txn];
                 var v := ReconcileVerdict(db, d, op.txn, op.commitOk);
                 v.Booked? && Apply(db, op).ledger[k]
                   == ChargeRow(d.order, db.orders[d.order], db.sessions[v.session], d.success)
  {
    match op
    case OpSettle(o, a, bps, share) =>
      if Settleable(db, o, a) {
        SettledLedgerKeeps(db.ledger, o, db.orders[o], CommissionFor(db.orders[o].subtotal, bps), k);
      }
    case OpReconcile(txn, commitOk) => ReconcileLedger(db, txn, commitOk);
    case OpPayout(account, amount, key, owner) => PayoutAppends(db, account, amount, key, owner, k);
    case _ => LedgerUntouched(db, op);
  }

  lemma PayoutAppends(db: Db, account: Account, amount: nat, key: LedgerKey, owner: Option<UserId>, k: LedgerKey)
    ensures var after := RecordPayout(db, account, amount, key, owner).ledger;
            && (k in db.ledger ==> k in after && after[k] == db.ledger[k])
            && (k !in db.ledger && k in after ==> after[k].kind == PayoutTx)
  {
  }

  /** What a reconcile writes to the ledger: the charge row of the session it closed, under the event's key. */
  lemma ReconcileLedger(db: Db, txn: TxnId, commitOk: bool)
    ensures var after := Reconcile(db, txn, commitOk).ledger;
            || after == db.ledger
            || (&& txn in db.reconciling && KashierKey(txn) !in db.ledger
                && var d := db.reconciling[txn];
                   var v := ReconcileVerdict(db, d, txn, commitOk);
                   v.Booked? && after == db.ledger[KashierKey(txn) :=
                     ChargeRow(d.order, db.orders[d.order], db.sessions[v.session], d.success)])
  {
  }

  lemma CapturedStep(db: Db, op: Op, o: OrderId)
    requires InitWindow(db)
    ensures IsCaptured(Apply(db, op).sessions, o) <==> IsCaptured(db.sessions, o) || CapturesNow(db, op, o)
  {
    if IsCaptured(db.sessions, o) { StaysCaptured(db, op, o); }
    if CapturesNow(db, op, o) {
      var v := ReconcileVerdict(db, db.reconciling[op.txn], op.txn, op.commitOk);
      assert Apply(db, op).sessions[v.session] == ClosedSession(db.sessions[v.session], true);
    }
    if IsCaptured(Apply(db, op).sessions, o) { CapturedBecause(db, op, o); }
  }

  lemma StaysCaptured(db: Db, op: Op, o: OrderId)
    requires InitWindow(db) && IsCaptured(db.sessions, o)
    ensures IsCaptured(Apply(db, op).sessions, o)
  {
    var i :| 0 <= i < |db.sessions| && db.sessions[i].order == o && db.sessions[i].status == Captured;
    SessionChange(db, op, i);
  }

  lemma CapturedBecause(db: Db, op: Op, o: OrderId)
    requires InitWindow(db) && IsCaptured(Apply(db, op).sessions, o)
    ensures IsCaptured(db.sessions, o) || CapturesNow(db, op, o)
  {
    var after := Apply(db, op).sessions;
    var i :| 0 <= i < |after| && after[i].order == o && after[i].status == Captured;
    if i < |db.sessions| {
      SessionChange(db, op, i);
      if db.sessions[i].status != Captured { NewlyCaptured(db, op, i); }
    } else {
      NewSessionRow(db, op);
    }
  }

  lemma NewlyCaptured(db: Db, op: Op, i: nat)
    requires op.OpReconcile? && i < |db.sessions| && db.sessions[i].status != Captured
    requires Apply(db, op).sessions[i].status == Captured
    ensures CapturesNow(db, op, db.sessions[i].order)
  {
  }

  /** Succeeded charges are exactly the captured sessions, one row each, for the order's total. */
  ghost predicate ChargeFits(db: Db, k: LedgerKey, o: OrderId)
    requires k in db.ledger
  {
    IsCaptured(db.sessions, o) && o in db.orders && db.ledger[k].amount == db.orders[o].total
  }

  ghost predicate ChargesMatch(db: Db) {
    && (forall k, o | k in db.ledger && IsCharge(db.ledger[k], o) :: ChargeFits(db, k, o))
    && (forall k, j, o | k in db.ledger && j in db.ledger && IsCharge(db.ledger[k], o) && IsCharge(db.ledger[j], o) ::
          k == j)
    && (forall o | IsCaptured(db.sessions, o) :: exists k :: k in db.ledger && IsCharge(db.ledger[k], o))
  }

  /** The active session the step captures is the order's only one, so nothing was captured for it before. */
  lemma FirstCapture(db: Db, op: Op, o: OrderId)
    requires SessionsOk(db) && CapturesNow(db, op, o)
    ensures !IsCaptured(db.sessions, o)
    ensures o in db.orders && KashierKey(op.txn) !in db.ledger
    ensures KashierKey(op.txn) in Apply(db, op).ledger && IsCharge(Apply(db, op).ledger[KashierKey(op.txn)], o)
    ensures Apply(db, op).ledger == db.ledger[KashierKey(op.txn) := Apply(db, op).ledger[KashierKey(op.txn)]]
    ensures Apply(db, op).ledger[KashierKey(op.txn)].amount == db.orders[o].total
  {
    var v := ReconcileVerdict(db, db.reconciling[op.txn], op.txn, op.commitOk);
    assert SessionRowOk(db, v.session);
    forall i | 0 <= i < |db.sessions| && db.sessions[i].order == o ensures db.sessions[i].status != Captured {
      assert i == v.session;
    }
  }

  lemma ChargeStep(db: Db, op: Op, k: LedgerKey, o: OrderId)
    requires SessionsOk(db)
    ensures k in Apply(db, op).ledger && IsCharge(Apply(db, op).ledger[k], o) <==>
              (k in db.ledger && IsCharge(db.ledger[k], o)) || (CapturesNow(db, op, o) && k == KashierKey(op.txn))
  {
    LedgerAppendOnly(db, op, k);
    if CapturesNow(db, op, o) { FirstCapture(db, op, o); }
  }

  lemma ChargeBacked(db: Db, op: Op, k: LedgerKey, o: OrderId)
    requires SessionsOk(db) && ChargesMatch(db)
    requires k in Apply(db, op).ledger && IsCharge(Apply(db, op).ledger[k], o)
    ensures ChargeFits(Apply(db, op), k, o)
  {
    ChargeStep(db, op, k, o);
    CapturedStep(db, op, o);
    LedgerAppendOnly(db, op, k);
    if CapturesNow(db, op, o) { FirstCapture(db, op, o); }
    StepRow(db, op, o);
    RowStepSameOrder(db.orders[o], Apply(db, op).orders[o], op, db.now);
  }

  lemma CaptureCharged(db: Db, op: Op, o: OrderId)
    requires SessionsOk(db) && ChargesMatch(db) && IsCaptured(Apply(db, op).sessions, o)
    ensures exists k :: k in Apply(db, op).ledger && IsCharge(Apply(db, op).ledger[k], o)
  {
    CapturedStep(db, op, o);
    if CapturesNow(db, op, o) {
      FirstCapture(db, op, o);
    } else {
      var k :| k in db.ledger && IsCharge(db.ledger[k], o);
      ChargeStep(db, op, k, o);
    }
  }

  lemma OneCharge(db: Db, op: Op, k: LedgerKey, j: LedgerKey, o: OrderId)
    requires SessionsOk(db) && ChargesMatch(db)
    requires k in Apply(db, op).ledger && IsCharge(Apply(db, op).ledger[k], o)
    requires j in Apply(db, op).ledger && IsCharge(Apply(db, op).ledger[j], o)
    ensures k == j
  {
    ChargeStep(db, op, k, o);
    ChargeStep(db, op, j, o);
    if CapturesNow(db, op, o) { FirstCapture(db, op, o); }
  }

  lemma ChargesBackedStep(db: Db, op: Op)
    requires SessionsOk(db) && ChargesMatch(db)
    ensures var after := Apply(db, op);
            forall k, o | k in after.ledger && IsCharge(after.ledger[k], o) :: ChargeFits(after, k, o)
  {
    var after := Apply(db, op);
    forall k, o | k in after.ledger && IsCharge(after.ledger[k], o) ensures ChargeFits(after, k, o) {
      ChargeBacked(db, op, k, o);
    }
  }

  lemma OneChargeStep(db: Db, op: Op)
    requires SessionsOk(db) && ChargesMatch(db)
    ensures var l := Apply(db, op).ledger;
            forall k, j, o | k in l && j in l && IsCharge(l[k], o) && IsCharge(l[j], o) :: k == j
  {
    var l := Apply(db, op).ledger;
    forall k, j, o | k in l && j in l && IsCharge(l[k], o) && IsCharge(l[j], o) ensures k == j {
      OneCharge(db, op, k, j, o);
    }
  }

  lemma CapturesChargedStep(db: Db, op: Op)
    requires SessionsOk(db) && ChargesMatch(db)
    ensures var after := Apply(db, op);
            forall o | IsCaptured(after.sessions, o) :: exists k :: k in after.ledger && IsCharge(after.ledger[k], o)
  {
    var after := Apply(db, op);
    forall o | IsCaptured(after.sessions, o) ensures exists k :: k in after.ledger && IsCharge(after.ledger[k], o) {
      CaptureCharged(db, op, o);
    }
  }

  lemma ChargesMatchStep(db: Db, op: Op)
    requires SessionsOk(db) && ChargesMatch(db)
    ensures ChargesMatch(Apply(db, op))
  {
    ChargesBackedStep(db, op);
    OneChargeStep(db, op);
    CapturesChargedStep(db, op);
  }

  /** An online order is past pending_payment and not cancelled only once its session is captured, and not before. */
  ghost predicate CaptureGates(db: Db) {
    forall o | o in db.orders && db.orders[o].payment.Online? :: GateOk(db, o)
  }

  ghost predicate GateOk(db: Db, o: OrderId)
    requires o in db.orders
  {
    && (db.orders[o].status == PendingPayment ==> !IsCaptured(db.sessions, o))
    && (db.orders[o].status != PendingPayment && db.orders[o].status != Cancelled ==> IsCaptured(db.sessions, o))
  }

  lemma LeavesPendingByCapture(db: Db, op: Op, o: OrderId)
    requires OrdersOk(db) && o in db.orders && db.orders[o].status == PendingPayment
    ensures o in Apply(db, op).orders
    ensures var after := Apply(db, op).orders[o].status;
            && (CapturesNow(db, op, o) <==> after == Placed)
            && (after == Placed || after == Cancelled || after == PendingPayment)
  {
    StepRow(db, op, o);
    assert RowOk(db.orders[o], db.now);
    if op.OpReconcile? {
      ReconcileRow(db, op.txn, op.commitOk);
      PlacedByReconcile(db, op.txn, op.commitOk, o);
    } else {
      PlacedOnlyByReconcile(db, op, o);
    }
  }

  lemma PlacedByReconcile(db: Db, txn: TxnId, commitOk: bool, o: OrderId)
    requires o in db.orders && db.orders[o].status == PendingPayment
    ensures HasStatus(Reconcile(db, txn, commitOk), o, Placed) <==> CapturesNow(db, OpReconcile(txn, commitOk), o)
  {
  }

  lemma PlacedOnlyByReconcile(db: Db, op: Op, o: OrderId)
    requires InitWindow(db) && o in db.orders && db.orders[o].status == PendingPayment && !op.OpReconcile?
    ensures !HasStatus(Apply(db, op), o, Placed)
  {
    match op
    case OpUpdateStatus(p, c, target, hasReason) => StatusNeverPlaces(db, p, c, target, hasReason, o);
    case OpInitPayment(p, outcome) => InitPaymentRow(db, p, outcome);
    case OpPlace(p, d, commitOk) =>
    case OpClaim(p, a) => ClaimRow(db, p, a);
    case OpRelease(a) => ReleaseRow(db, a, o);
    case OpPickUp(p, a) => if p in db.orders { PickUpRow(db, p, a); }
    case OpSettle(p, a, bps, share) => if p in db.orders { SettleRow(db, p, a, bps, share); }
    case _ => OrdersUntouched(db, op);
  }

  lemma GateStep(db: Db, op: Op, o: OrderId)
    requires SessionsOk(db) && o in db.orders && GateOk(db, o)
    ensures o in Apply(db, op).orders && Apply(db, op).orders[o].payment == db.orders[o].payment
    ensures GateOk(Apply(db, op), o)
  {
    var after := Apply(db, op);
    CapturedStep(db, op, o);
    StepRow(db, op, o);
    RowStepSameOrder(db.orders[o], after.orders[o], op, db.now);
    if db.orders[o].status == PendingPayment {
      LeavesPendingByCapture(db, op, o);
    } else {
      NeverPendingAgain(db.orders[o], after.orders[o], op, db.now);
    }
  }

  lemma NeverPendingAgain(before: Order, after: Order, op: Op, now: Time)
    requires RowStep(before, after, op, now) && before.status != PendingPayment
    ensures after.status != PendingPayment && (before.status == Cancelled ==> after.status == Cancelled)
  {
    TableIsAcyclic(before.status, after.status);
  }

  lemma NewGate(db: Db, op: Op, o: OrderId)
    requires SessionsOk(db) && o !in db.orders && o in Apply(db, op).orders && Apply(db, op).orders[o].payment.Online?
    ensures GateOk(Apply(db, op), o)
  {
    CapturedStep(db, op, o);
    StepNewRow(db, op, o);
  }

  lemma CaptureGatesStep(db: Db, op: Op)
    requires SessionsOk(db) && CaptureGates(db)
    ensures CaptureGates(Apply(db, op))
  {
    var after := Apply(db, op);
    forall o | o in after.orders && after.orders[o].payment.Online? ensures GateOk(after, o) {
      if o in db.orders {
        StepRow(db, op, o);
        RowStepSameOrder(db.orders[o], after.orders[o], op, db.now);
        GateStep(db, op, o);
      } else {
        NewGate(db, op, o);
      }
    }
  }

  ghost predicate PaymentsOk(db: Db) {
    SessionsOk(db) && ChargesMatch(db) && CaptureGates(db)
  }

  lemma {:induction false} RunKeepsPayments(t0: Time, ops: seq<Op>)
    ensures PaymentsOk(Run(t0, ops))
  {
    if ops != [] {
      var prior := ops[..|ops| - 1];
      RunKeepsPayments(t0, prior);
      SessionsOkStep(Run(t0, prior), ops[|ops| - 1]);
      ChargesMatchStep(Run(t0, prior), ops[|ops| - 1]);
      CaptureGatesStep(Run(t0, prior), ops[|ops| - 1]);
    }
  }

  lemma ChargeFacts(db: Db, o: OrderId, k: LedgerKey, j: LedgerKey)
    requires PaymentsOk(db)
    requires k in db.ledger && j in db.ledger && IsCharge(db.ledger[k], o) && IsCharge(db.ledger[j], o)
    ensures k == j
    ensures o in db.orders && db.ledger[k].amount == db.orders[o].total && db.orders[o].payment.Online?
  {
    assert IsCaptured(db.sessions, o);
    var i :| 0 <= i < |db.sessions| && db.sessions[i].order == o && db.sessions[i].status == Captured;
    assert SessionRowOk(db, i);
  }

  /** In every run an order has at most one succeeded charge; it is for the order's total. */
  lemma AtMostOneCapture(t0: Time, ops: seq<Op>, o: OrderId, k: LedgerKey, j: LedgerKey)
    requires var l := Run(t0, ops).ledger; k in l && j in l && IsCharge(l[k], o) && IsCharge(l[j], o)
    ensures k == j
    ensures o in Run(t0, ops).orders && Run(t0, ops).ledger[k].amount == Run(t0, ops).orders[o].total
    ensures Run(t0, ops).orders[o].payment.Online?
  {
    RunKeepsPayments(t0, ops);
    ChargeFacts(Run(t0, ops), o, k, j);
  }

  ghost predicate OnlyCharge(db: Db, o: OrderId, k: LedgerKey)
    requires o in db.orders
  {
    && k in db.ledger && IsCharge(db.ledger[k], o) && db.ledger[k].amount == db.orders[o].total
    && forall j | j in db.ledger && IsCharge(db.ledger[j], o) :: j == k
  }

  /** An online order that was ever placed has exactly one succeeded charge, of its total. */
  lemma PlacedIsCharged(t0: Time, ops: seq<Op>, o: OrderId)
    requires o in Run(t0, ops).orders && Run(t0, ops).orders[o].payment.Online? && Ever(t0, ops, o, Placed)
    ensures exists k :: OnlyCharge(Run(t0, ops), o, k)
  {
    var db := Run(t0, ops);
    RunKeepsPayments(t0, ops);
    EverPlacedCaptured(t0, ops, o);
    var k :| k in db.ledger && IsCharge(db.ledger[k], o);
    assert OnlyCharge(db, o, k);
  }

  lemma {:induction false} EverPlacedCaptured(t0: Time, ops: seq<Op>, o: OrderId)
    requires o in Run(t0, ops).orders && Run(t0, ops).orders[o].payment.Online? && Ever(t0, ops, o, Placed)
    ensures IsCaptured(Run(t0, ops).sessions, o)
  {
    RunKeepsPayments(t0, ops);
    if ops != [] {
      var prior, op := ops[..|ops| - 1], ops[|ops| - 1];
      if Ever(t0, prior, o, Placed) {
        RunKeepsPayments(t0, prior);
        EverExists(t0, prior, o, Placed);
        StepRow(Run(t0, prior), op, o);
        RowStepSameOrder(Run(t0, prior).orders[o], Run(t0, ops).orders[o], op, Run(t0, prior).now);
        EverPlacedCaptured(t0, prior, o);
        CapturedStep(Run(t0, prior), op, o);
      }
    }
  }

  /** Orders are never deleted from the hot shard by these services. */
  lemma {:induction false} EverExists(t0: Time, ops: seq<Op>, o: OrderId, st: Status)
    requires Ever(t0, ops, o, st)
    ensures o in Run(t0, ops).orders
  {
    if ops != [] {
      if Ever(t0, ops[..|ops| - 1], o, st) {
        EverExists(t0, ops[..|ops| - 1], o, st);
        RunKeepsInitWindow(t0, ops[..|ops| - 1]);
        StepRow(Run(t0, ops[..|ops| - 1]), ops[|ops| - 1], o);
      }
    }
  }

  /* ---- exactly one order.placed ---- */

  function CountPlaced(outbox: seq<Event>, o: OrderId): nat {
    if outbox == [] then 0
    else CountPlaced(outbox[..|outbox| - 1], o) + if outbox[|outbox| - 1] == OrderPlaced(o) then 1 else 0
  }

  lemma {:induction false} CountAppend(a: seq<Event>, b: seq<Event>, o: OrderId)
    ensures CountPlaced(a + b, o) == CountPlaced(a, o) + CountPlaced(b, o)
    decreases |b|
  {
    if b == [] {
      assert a + b == a;
    } else {
      assert (a + b)[..|a + b| - 1] == a + b[..|b| - 1];
      CountAppend(a, b[..|b| - 1], o);
    }
  }

  /** The order becomes placed in this step. */
  predicate BecomesPlaced(db: Db, op: Op, o: OrderId) {
    HasStatus(Apply(db, op), o, Placed) && !HasStatus(db, o, Placed)
  }

  /** The events one step appends to the outbox. */
  function NewEvents(db: Db, op: Op): seq<Event> {
    if |db.outbox| <= |Apply(db, op).outbox| then Apply(db, op).outbox[|db.outbox|..] else []
  }

  lemma OutboxGrows(db: Db, op: Op)
    ensures Apply(db, op).outbox == db.outbox + NewEvents(db, op)
  {
    match op
    case OpUpdateStatus(p, c, target, hasReason) =>
    case _ =>
  }

  lemma OtherEvents(db: Db, op: Op, o: OrderId)
    requires OrdersOk(db) && !op.OpPlace? && !op.OpReconcile? && !op.OpUpdateStatus?
    ensures CountPlaced(NewEvents(db, op), o) == 0
  {
    if op.OpSettle? && Settleable(db, op.order, op.agent) {
      assert NewEvents(db, op) == [OrderDelivered(op.order,
        CommissionFor(db.orders[op.order].subtotal, op.commissionBps))];
    } else {
      assert NewEvents(db, op) == [];
    }
  }

  lemma OtherStatus(db: Db, op: Op, o: OrderId)
    requires OrdersOk(db) && !op.OpPlace? && !op.OpReconcile? && !op.OpUpdateStatus?
    ensures !BecomesPlaced(db, op, o)
  {
    match op
    case OpInitPayment(p, outcome) => InitPaymentRow(db, p, outcome);
    case OpClaim(p, a) => ClaimRow(db, p, a);
    case OpRelease(a) => ReleasePlaces(db, a, o);
    case OpPickUp(p, a) => PickUpPlaces(db, p, a, o);
    case OpSettle(p, a, bps, share) => SettlePlaces(db, p, a, bps, share, o);
    case _ => OrdersUntouched(db, op);
  }

  lemma PickUpPlaces(db: Db, p: OrderId, a: AgentId, o: OrderId)
    ensures HasStatus(PickUp(db, p, a), o, Placed) ==> HasStatus(db, o, Placed)
  {
  }

  lemma SettlePlaces(db: Db, p: OrderId, a: AgentId, bps: int, share: int, o: OrderId)
    ensures HasStatus(SettleDelivered(db, p, a, bps, share), o, Placed) ==> HasStatus(db, o, Placed)
  {
  }

  lemma ReleasePlaces(db: Db, a: AgentId, o: OrderId)
    ensures HasStatus(ReleaseAssigned(db, a), o, Placed) ==> HasStatus(db, o, Placed)
  {
  }

  /** order.placed goes into the outbox in the transaction that makes the order placed, and in no other. */
  lemma PlacedEventStep(db: Db, op: Op, o: OrderId)
    requires OrdersOk(db)
    ensures CountPlaced(NewEvents(db, op), o) == if BecomesPlaced(db, op, o) then 1 else 0
  {
    match op
    case OpPlace(p, d, commitOk) =>
      PlaceEvents(db, p, d, commitOk);
      PlacePlaces(db, p, d, commitOk, o);
    case OpReconcile(txn, commitOk) => ReconcileEventCount(db, txn, commitOk, o);
    case OpUpdateStatus(p, c, target, hasReason) => StatusEventCount(db, p, c, target, hasReason, o);
    case _ =>
      OtherEvents(db, op, o);
      OtherStatus(db, op, o);
  }

  lemma PlaceEvents(db: Db, p: OrderId, d: Draft, commitOk: bool)
    ensures NewEvents(db, OpPlace(p, d, commitOk)) ==
              if HasStatus(PlaceOrder(db, p, d, commitOk), p, Placed) && p !in db.orders then [OrderPlaced(p)] else []
  {
    PlaceAppends(db, p, d, commitOk);
    PlacedAtOnce(db, p, d, commitOk);
    AppendedEvents(db, OpPlace(p, d, commitOk), if CashPlaced(db, p, d, commitOk) then [OrderPlaced(p)] else []);
  }

  predicate CashPlaced(db: Db, p: OrderId, d: Draft, commitOk: bool) {
    p !in db.reserved && p !in db.orders && commitOk && d.payment.Cod?
  }

  lemma PlaceAppends(db: Db, p: OrderId, d: Draft, commitOk: bool)
    ensures PlaceOrder(db, p, d, commitOk).outbox
            == db.outbox + if CashPlaced(db, p, d, commitOk) then [OrderPlaced(p)] else []
  {
  }

  lemma PlacedAtOnce(db: Db, p: OrderId, d: Draft, commitOk: bool)
    ensures HasStatus(PlaceOrder(db, p, d, commitOk), p, Placed) && p !in db.orders
            <==> CashPlaced(db, p, d, commitOk)
  {
  }

  lemma AppendedEvents(db: Db, op: Op, events: seq<Event>)
    requires Apply(db, op).outbox == db.outbox + events
    ensures NewEvents(db, op) == events
  {
  }

  lemma PlacePlaces(db: Db, p: OrderId, d: Draft, commitOk: bool, o: OrderId)
    ensures BecomesPlaced(db, OpPlace(p, d, commitOk), o)
            <==> o == p && p !in db.orders && HasStatus(PlaceOrder(db, p, d, commitOk), p, Placed)
  {
  }

  lemma StatusNews(db: Db, p: OrderId, c: Caller, target: Status, hasReason: bool)
    ensures var news := NewEvents(db, OpUpdateStatus(p, c, target, hasReason));
            news == StatusEvent(p, target) || news == []
  {
    var after := UpdateStatus(db, p, c, target, hasReason);
    assert after.outbox == db.outbox || after.outbox == db.outbox + StatusEvent(p, target);
  }

  lemma StatusEventCount(db: Db, p: OrderId, c: Caller, target: Status, hasReason: bool, o: OrderId)
    ensures CountPlaced(NewEvents(db, OpUpdateStatus(p, c, target, hasReason)), o) == 0
    ensures !BecomesPlaced(db, OpUpdateStatus(p, c, target, hasReason), o)
  {
    StatusNews(db, p, c, target, hasReason);
    StatusNeverPlaces(db, p, c, target, hasReason, o);
  }

  lemma StatusNeverPlaces(db: Db, p: OrderId, c: Caller, target: Status, hasReason: bool, o: OrderId)
    ensures HasStatus(UpdateStatus(db, p, c, target, hasReason), o, Placed) ==> HasStatus(db, o, Placed)
  {
    if p in db.orders {
      UpdateStatusRow(db, p, c, target, hasReason);
      if StatusCheck(db, p, c, target, hasReason).Allowed? { AllowedGivesStamp(db, p, c, target, hasReason); }
    }
  }

  lemma ReconcileEventCount(db: Db, txn: TxnId, commitOk: bool, o: OrderId)
    ensures CountPlaced(NewEvents(db, OpReconcile(txn, commitOk)), o)
            == if BecomesPlaced(db, OpReconcile(txn, commitOk), o) then 1 else 0
  {
    var news := NewEvents(db, OpReconcile(txn, commitOk));
    if txn in db.reconciling {
      var d := db.reconciling[txn];
      var v := ReconcileVerdict(db, d, txn, commitOk);
      var places := v.Booked? && d.success && db.orders[d.order].status == PendingPayment;
      assert news == if v.Booked? then ReconcileEvents(d.order, txn, d.success, places) else [];
      if places {
        CountAppend([PaymentCompleted(d.order, txn)], [OrderPlaced(d.order)], o);
        assert news == [PaymentCompleted(d.order, txn)] + [OrderPlaced(d.order)];
      }
    }
  }

  /** An order that was ever placed can never be pending again, so it is placed only once. */
  lemma {:induction false} PlacedOnce(t0: Time, ops: seq<Op>, op: Op, o: OrderId)
    requires Ever(t0, ops, o, Placed)
    ensures !BecomesPlaced(Run(t0, ops), op, o)
  {
    RunKeepsOrders(t0, ops);
    EverExists(t0, ops, o, Placed);
    RankAfterPlaced(t0, ops, o);
    StepRow(Run(t0, ops), op, o);
    TableIsAcyclic(Run(t0, ops).orders[o].status, Placed);
  }

  lemma {:induction false} RankAfterPlaced(t0: Time, ops: seq<Op>, o: OrderId)
    requires Ever(t0, ops, o, Placed)
    ensures o in Run(t0, ops).orders && Rank(Run(t0, ops).orders[o].status) >= 1
  {
    EverExists(t0, ops, o, Placed);
    if ops != [] {
      var prior, op := ops[..|ops| - 1], ops[|ops| - 1];
      if Ever(t0, prior, o, Placed) {
        RankAfterPlaced(t0, prior, o);
        RunKeepsInitWindow(t0, prior);
        StepRow(Run(t0, prior), op, o);
        RankStep(Run(t0, prior).orders[o], Run(t0, ops).orders[o], op, Run(t0, prior).now);
      }
    }
  }

  /** The outbox holds exactly one order.placed for an order that was ever placed, and none for any other. */
  lemma {:induction false} OnePlacedEvent(t0: Time, ops: seq<Op>, o: OrderId)
    ensures CountPlaced(Run(t0, ops).outbox, o) == if Ever(t0, ops, o, Placed) then 1 else 0
  {
    if ops != [] {
      var prior, op := ops[..|ops| - 1], ops[|ops| - 1];
      var before := Run(t0, prior);
      OnePlacedEvent(t0, prior, o);
      RunKeepsOrders(t0, prior);
      OutboxGrows(before, op);
      CountAppend(before.outbox, NewEvents(before, op), o);
      PlacedEventStep(before, op, o);
      if Ever(t0, prior, o, Placed) { PlacedOnce(t0, prior, op, o); }
    }
  }

  /* ---- provider events ---- */

  /** Deliveries in progress are recorded, and each was recorded in this run. */
  ghost predicate DeliveriesRecorded(db: Db) {
    forall txn | txn in db.reconciling :: txn in db.webhookEvents
  }

  lemma DeliveryStep(db: Db, op: Op, txn: TxnId)
    ensures txn in db.webhookEvents ==> txn in Apply(db, op).webhookEvents
    ensures txn in Apply(db, op).reconciling ==>
              txn in db.reconciling || (op.OpRecordWebhook? && op.txn == txn && txn !in db.webhookEvents
                && txn in Apply(db, op).webhookEvents)
  {
    match op
    case OpRecordWebhook(t, d) => RecordDelivery(db, t, d, txn);
    case OpReconcile(t, commitOk) => ReconcileDelivery(db, t, commitOk, txn);
    case OpCrashReconcile(t) =>
    case _ => DeliveriesUntouched(db, op);
  }

  lemma RecordDelivery(db: Db, t: TxnId, d: Delivery, txn: TxnId)
    ensures var after := RecordWebhook(db, t, d);
            && (txn in after.webhookEvents <==> txn in db.webhookEvents || t == txn)
            && (txn in after.reconciling <==> txn in db.reconciling || (t == txn && txn !in db.webhookEvents))
  {
  }

  lemma ReconcileDelivery(db: Db, t: TxnId, commitOk: bool, txn: TxnId)
    ensures var after := Reconcile(db, t, commitOk);
            && (txn in db.webhookEvents ==> txn in after.webhookEvents)
            && (txn in after.reconciling ==> txn in db.reconciling)
  {
  }

  lemma DeliveriesUntouched(db: Db, op: Op)
    requires !op.OpRecordWebhook? && !op.OpReconcile? && !op.OpCrashReconcile?
    ensures Apply(db, op).webhookEvents == db.webhookEvents && Apply(db, op).reconciling == db.reconciling
  {
  }

  lemma {:induction false} RunRecordsDeliveries(t0: Time, ops: seq<Op>)
    ensures DeliveriesRecorded(Run(t0, ops))
  {
    if ops != [] {
      RunRecordsDeliveries(t0, ops[..|ops| - 1]);
      forall txn | txn in Run(t0, ops).reconciling ensures txn in Run(t0, ops).webhookEvents {
        DeliveryStep(Run(t0, ops[..|ops| - 1]), ops[|ops| - 1], txn);
      }
    }
  }

  /** The op is a delivery of provider event `txn`, or its reconcile. */
  predicate Concerns(op: Op, txn: TxnId) {
    (op.OpRecordWebhook? || op.OpReconcile? || op.OpCrashReconcile?) && op.txn == txn
  }

  /** An event that has been recorded and is not being reconciled: finished, refused, or lost in a crash. */
  predicate Spent(db: Db, txn: TxnId) {
    txn in db.webhookEvents && txn !in db.reconciling
  }

  /**
   A spent event has no further effect: every redelivery the provider makes of it, for the rest of any
   run, leaves the whole shard as it is. It holds also when the one reconcile was rolled back.
   */
  lemma {:induction false} SpentForever(t0: Time, ops: seq<Op>, more: seq<Op>, op: Op, txn: TxnId)
    requires Spent(Run(t0, ops), txn) && Concerns(op, txn)
    ensures Spent(Run(t0, ops + more), txn)
    ensures Apply(Run(t0, ops + more), op) == Run(t0, ops + more)
    decreases |more|
  {
    if more == [] {
      assert ops + more == ops;
    } else {
      var rest := ops + more[..|more| - 1];
      assert ops + more == rest + [more[|more| - 1]];
      SpentForever(t0, ops, more[..|more| - 1], op, txn);
      RunExtend(t0, rest, more[|more| - 1]);
      DeliveryStep(Run(t0, rest), more[|more| - 1], txn);
    }
    SpentStep(Run(t0, ops + more), op, txn);
  }

  lemma SpentStep(db: Db, op: Op, txn: TxnId)
    requires Spent(db, txn) && Concerns(op, txn)
    ensures Apply(db, op) == db
  {
    if op.OpCrashReconcile? { assert db.reconciling - {txn} == db.reconciling; }
  }

  /** Number of steps of a run in which a delivery of `txn` booked something. */
  ghost function Bookings(t0: Time, ops: seq<Op>, txn: TxnId): nat {
    if ops == [] then 0
    else
      var prior := ops[..|ops| - 1];
      Bookings(t0, prior, txn) +
        if Concerns(ops[|ops| - 1], txn) && Run(t0, ops).ledger != Run(t0, prior).ledger then 1 else 0
  }

  /** However often and however interleaved an event is delivered, it books at most once. */
  lemma {:induction false} BooksAtMostOnce(t0: Time, ops: seq<Op>, txn: TxnId)
    ensures Bookings(t0, ops, txn) <= 1
    ensures !Spent(Run(t0, ops), txn) ==> Bookings(t0, ops, txn) == 0
  {
    if ops != [] {
      var prior, op := ops[..|ops| - 1], ops[|ops| - 1];
      BooksAtMostOnce(t0, prior, txn);
      RunRecordsDeliveries(t0, prior);
      BookingStep(Run(t0, prior), op, txn);
    }
  }

  lemma BookingStep(db: Db, op: Op, txn: TxnId)
    requires DeliveriesRecorded(db)
    ensures Spent(db, txn) ==> Spent(Apply(db, op), txn) && (Concerns(op, txn) ==> Apply(db, op) == db)
    ensures Concerns(op, txn) && Apply(db, op).ledger != db.ledger ==> !Spent(db, txn) && Spent(Apply(db, op), txn)
  {
    DeliveryStep(db, op, txn);
    if Spent(db, txn) && Concerns(op, txn) { SpentStep(db, op, txn); }
  }
}
