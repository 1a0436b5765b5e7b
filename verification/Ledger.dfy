/** The transactions ledger: what its rows say about each order, and when they account for the balances. */
module Ledger {
  import opened Types
  import opened OrderStatus
  import opened ShardState
  import opened OrderRuns
  import opened Payments
  import opened Money
  import opened Sums

  /** Direction of a succeeded row from the restaurant's side. */
  function Signed(tx: Tx): int {
    if tx.status != Succeeded then 0
    else
      match tx.kind
      case Charge => tx.amount
      case CodCollection => tx.amount
      case Commission => -tx.amount
      case ServiceFee => -tx.amount
      case DeliveryFee => -tx.amount
      case _ => 0
  }

  function RowsOf(o: OrderId): (LedgerKey, Tx) -> int {
    (k: LedgerKey, tx: Tx) => if tx.order == Some(o) then Signed(tx) else 0
  }

  /** Charge or cod_collection of an order, minus its commission and fee rows. */
  ghost function LedgerNet(db: Db, o: OrderId): int {
    SumMap(db.ledger, RowsOf(o))
  }

  /** What the provider paid in for an order. */
  ghost function PaidIn(db: Db, o: OrderId): int
    requires o in db.orders
  {
    if IsCaptured(db.sessions, o) then db.orders[o].total else 0
  }

  /** Keys the settlement of an order derives from its id. */
  predicate Derived(k: LedgerKey, o: OrderId) {
    k in {CodCollectKey(o), CommissionKey(o), ServiceFeeKey(o), DeliveryFeeKey(o)}
  }

  /** A payout sits under the key, so that the row meant for it was never written. */
  predicate HeldByPayout(ledger: map<LedgerKey, Tx>, k: LedgerKey) {
    k in ledger && ledger[k].kind == PayoutTx
  }

  /** The amount counts unless a payout holds its key; a row for a zero amount is not written at all. */
  function Counted(ledger: map<LedgerKey, Tx>, k: LedgerKey, amount: int): int {
    if amount > 0 && !HeldByPayout(ledger, k) then amount else 0
  }

  function Collected(ord: Order): int {
    if ord.payment.Cod? then ord.total else 0
  }

  /** What a settlement's own rows come to: each drops out exactly when a payout holds its key. */
  function SettledRows(ledger: map<LedgerKey, Tx>, o: OrderId, ord: Order): int {
    Counted(ledger, CodCollectKey(o), Collected(ord)) - Counted(ledger, CommissionKey(o), ord.commission)
    - Counted(ledger, ServiceFeeKey(o), ord.serviceFee) - Counted(ledger, DeliveryFeeKey(o), ord.deliveryFee)
  }

  /** The rows of an order are its capture, and once settled its settlement rows. */
  ghost predicate NetOk(db: Db, o: OrderId)
    requires o in db.orders
  {
    LedgerNet(db, o) == PaidIn(db, o) + if o in db.earnings then SettledRows(db.ledger, o, db.orders[o]) else 0
  }

  ghost predicate KeysOk(db: Db) {
    && (forall k, o | k in db.ledger && Derived(k, o) :: o in db.earnings || HeldByPayout(db.ledger, k))
    && (forall o, k | o in db.earnings && o in db.orders && Needs(db.orders[o], o, db.orders[o].commission, k) ::
       k in db.ledger)
    && (forall k | k in db.ledger && db.ledger[k].order.Some? :: db.ledger[k].order.value in db.orders)
  }

  ghost predicate LedgerOk(db: Db) {
    PaymentsOk(db) && EarningsOk(db) && KeysOk(db) && forall o | o in db.orders :: NetOk(db, o)
  }

  /* ---- the settlement inserts ---- */

  lemma InsertSum(ledger: map<LedgerKey, Tx>, k: LedgerKey, tx: Tx, f: (LedgerKey, Tx) -> int)
    ensures SumMap(InsertIdempotent(ledger, k, tx), f) == SumMap(ledger, f) + if k in ledger then 0 else f(k, tx)
  {
    if k !in ledger { SumUpdate(ledger, k, tx, f); }
  }

  /** What one settlement adds to a total over the ledger: each of its rows counts only if its key was free. */
  function Added(ledger: map<LedgerKey, Tx>, wanted: bool, k: LedgerKey, amount: int): int {
    if wanted && k !in ledger then amount else 0
  }

  lemma SettledSum(ledger: map<LedgerKey, Tx>, o: OrderId, ord: Order, commission: int, f: (LedgerKey, Tx) -> int)
    ensures SumMap(SettledLedger(ledger, o, ord, commission), f) == SumMap(ledger, f)
              + Added(ledger, ord.payment.Cod?, CodCollectKey(o), f(CodCollectKey(o), CollectionRow(o, ord)))
              + Added(ledger, commission > 0, CommissionKey(o),
                f(CommissionKey(o), PlatformRow(Commission, o, ord, commission)))
              + Added(ledger, ord.serviceFee > 0, ServiceFeeKey(o),
                f(ServiceFeeKey(o), PlatformRow(ServiceFee, o, ord, ord.serviceFee)))
              + Added(ledger, ord.deliveryFee > 0, DeliveryFeeKey(o),
                f(DeliveryFeeKey(o), PlatformRow(DeliveryFee, o, ord, ord.deliveryFee)))
  {
    var l0 := if ord.payment.Cod? then InsertIdempotent(ledger, CodCollectKey(o), CollectionRow(o, ord)) else ledger;
    var l1 := if commission > 0
              then InsertIdempotent(l0, CommissionKey(o), PlatformRow(Commission, o, ord, commission)) else l0;
    var l2 := if ord.serviceFee > 0
              then InsertIdempotent(l1, ServiceFeeKey(o), PlatformRow(ServiceFee, o, ord, ord.serviceFee)) else l1;
    InsertSum(ledger, CodCollectKey(o), CollectionRow(o, ord), f);
    InsertSum(l0, CommissionKey(o), PlatformRow(Commission, o, ord, commission), f);
    InsertSum(l1, ServiceFeeKey(o), PlatformRow(ServiceFee, o, ord, ord.serviceFee), f);
    InsertSum(l2, DeliveryFeeKey(o), PlatformRow(DeliveryFee, o, ord, ord.deliveryFee), f);
  }

  /** The derived keys a settlement needs; rows for a zero amount are skipped. */
  predicate Needs(ord: Order, o: OrderId, commission: int, k: LedgerKey) {
    || (ord.payment.Cod? && k == CodCollectKey(o))
    || (commission > 0 && k == CommissionKey(o))
    || (ord.serviceFee > 0 && k == ServiceFeeKey(o))
    || (ord.deliveryFee > 0 && k == DeliveryFeeKey(o))
  }

  /** The ledger net of an order after its settlement, row by row; an idempotent insert under a taken key is skipped. */
  lemma SettledFormula(db: Db, o: OrderId, agent: AgentId, bps: int, share: int)
    requires Settleable(db, o, agent)
    ensures var ord, commission := db.orders[o], CommissionFor(db.orders[o].subtotal, bps);
            LedgerNet(SettleDelivered(db, o, agent, bps, share), o) == LedgerNet(db, o)
              + Added(db.ledger, ord.payment.Cod?, CodCollectKey(o), ord.total)
              + Added(db.ledger, commission > 0, CommissionKey(o), -commission)
              + Added(db.ledger, ord.serviceFee > 0, ServiceFeeKey(o), 0 - ord.serviceFee)
              + Added(db.ledger, ord.deliveryFee > 0, DeliveryFeeKey(o), 0 - ord.deliveryFee)
  {
    SettledSum(db.ledger, o, db.orders[o], CommissionFor(db.orders[o].subtotal, bps), RowsOf(o));
  }

  /* ---- whole runs ---- */

  lemma SettlementRows(ledger: map<LedgerKey, Tx>, o: OrderId, ord: Order, commission: int, k: LedgerKey)
    ensures k !in ledger && k in SettledLedger(ledger, o, ord, commission) ==>
              Derived(k, o) && SettledLedger(ledger, o, ord, commission)[k].order == Some(o)
    ensures Needs(ord, o, commission, k) ==> k in SettledLedger(ledger, o, ord, commission)
    ensures HeldByPayout(SettledLedger(ledger, o, ord, commission), k) <==> HeldByPayout(ledger, k)
  {
  }

  /** A new row is of a known order, and under a derived key it is a payout's or of a settled order. */
  ghost predicate Originates(db: Db, after: Db, k: LedgerKey) {
    k in after.ledger && k !in db.ledger ==>
      && (after.ledger[k].order.Some? ==> after.ledger[k].order.value in db.orders)
      && (forall o | Derived(k, o) :: HeldByPayout(after.ledger, k) || o in after.earnings)
  }

  lemma SettleOrigin(db: Db, p: OrderId, a: AgentId, bps: int, share: int, k: LedgerKey)
    ensures Originates(db, SettleDelivered(db, p, a, bps, share), k)
  {
    if Settleable(db, p, a) {
      SettlementRows(db.ledger, p, db.orders[p], CommissionFor(db.orders[p].subtotal, bps), k);
    }
  }

  lemma ReconcileOrigin(db: Db, txn: TxnId, commitOk: bool, k: LedgerKey)
    requires InitWindow(db)
    ensures Originates(db, Reconcile(db, txn, commitOk), k)
  {
    ReconcileLedger(db, txn, commitOk);
  }

  lemma PayoutOrigin(db: Db, account: Account, amount: nat, key: LedgerKey, owner: Option<UserId>, k: LedgerKey)
    ensures Originates(db, RecordPayout(db, account, amount, key, owner), k)
  {
  }

  /** Where a ledger row comes from: a reconcile, a payout, or the settlement of its order. */
  lemma RowOrigin(db: Db, op: Op, k: LedgerKey)
    requires InitWindow(db) && EarningsOk(db) && k !in db.ledger && k in Apply(db, op).ledger
    ensures Apply(db, op).ledger[k].order.Some? ==> Apply(db, op).ledger[k].order.value in db.orders
    ensures forall o | Derived(k, o) :: HeldByPayout(Apply(db, op).ledger, k) || o in Apply(db, op).earnings
  {
    assert Originates(db, Apply(db, op), k) by {
      match op
      case OpSettle(p, a, bps, share) => SettleOrigin(db, p, a, bps, share, k);
      case OpReconcile(txn, commitOk) => ReconcileOrigin(db, txn, commitOk, k);
      case OpPayout(account, amount, key, owner) => PayoutOrigin(db, account, amount, key, owner, k);
      case _ => LedgerUntouched(db, op);
    }
  }

  lemma HeldStays(db: Db, op: Op, k: LedgerKey)
    requires k in db.ledger
    ensures HeldByPayout(Apply(db, op).ledger, k) <==> HeldByPayout(db.ledger, k)
  {
    LedgerAppendOnly(db, op, k);
  }

  lemma DerivedKeyStep(db: Db, op: Op, k: LedgerKey, o: OrderId)
    requires InitWindow(db) && EarningsOk(db) && KeysOk(db) && k in Apply(db, op).ledger && Derived(k, o)
    ensures o in Apply(db, op).earnings || HeldByPayout(Apply(db, op).ledger, k)
  {
    if k in db.ledger {
      HeldStays(db, op, k);
      EarningsGrow(db, op, o);
    } else {
      RowOrigin(db, op, k);
    }
  }

  lemma RowOrderStep(db: Db, op: Op, k: LedgerKey)
    requires InitWindow(db) && EarningsOk(db) && KeysOk(db) && k in Apply(db, op).ledger
             && Apply(db, op).ledger[k].order.Some?
    ensures Apply(db, op).ledger[k].order.value in Apply(db, op).orders
  {
    LedgerAppendOnly(db, op, k);
    if k !in db.ledger { RowOrigin(db, op, k); }
    StepRow(db, op, Apply(db, op).ledger[k].order.value);
  }

  /** A row of an order that was settled before is not settled again. */
  lemma SettledBefore(db: Db, op: Op, o: OrderId)
    requires InitWindow(db) && EarningsOk(db) && o in db.orders
    ensures o in Apply(db, op).orders
    ensures o in db.earnings ==>
              o in Apply(db, op).earnings && Apply(db, op).orders[o].commission == db.orders[o].commission
              && SameOrder(db.orders[o], Apply(db, op).orders[o])
    ensures o !in db.earnings && o in Apply(db, op).earnings
            ==> op.OpSettle? && op.order == o && Settleable(db, o, op.agent)
  {
    StepRow(db, op, o);
    EarningsGrow(db, op, o);
    if op.OpSettle? {
      if op.order == o { SettleOnce(db, o, op.agent, op.commissionBps, op.shareBps); }
      else { SettleOther(db, op.order, op.agent, op.commissionBps, op.shareBps, o); }
    } else if op.OpPayout? {
      assert Apply(db, op).earnings == db.earnings;
    } else {
      BooksUntouched(db, op);
    }
    if o in db.earnings && !(op.OpSettle? && op.order == o) { CommissionStays(db, op, o); }
  }

  lemma SettleOnce(db: Db, o: OrderId, agent: AgentId, bps: int, share: int)
    requires EarningsOk(db) && o in db.orders
    ensures o in db.earnings ==> SettleDelivered(db, o, agent, bps, share) == db
    ensures o !in db.earnings && o in SettleDelivered(db, o, agent, bps, share).earnings ==> Settleable(db, o, agent)
  {
  }

  lemma NeededKeyStep(db: Db, op: Op, o: OrderId, k: LedgerKey)
    requires InitWindow(db) && EarningsOk(db) && KeysOk(db) && o in Apply(db, op).earnings && o in Apply(db, op).orders
    requires Needs(Apply(db, op).orders[o], o, Apply(db, op).orders[o].commission, k)
    ensures k in Apply(db, op).ledger
  {
    EarningsStep(db, op);
    if o in db.orders {
      SettledBefore(db, op, o);
      if o in db.earnings {
        LedgerAppendOnly(db, op, k);
      } else {
        SettledNeeds(db, o, op.agent, op.commissionBps, op.shareBps, k);
      }
    } else {
      StepNewRow(db, op, o);
    }
  }

  lemma SettledNeeds(db: Db, o: OrderId, agent: AgentId, bps: int, share: int, k: LedgerKey)
    requires Settleable(db, o, agent)
    requires var ord := SettleDelivered(db, o, agent, bps, share).orders[o]; Needs(ord, o, ord.commission, k)
    ensures k in SettleDelivered(db, o, agent, bps, share).ledger
  {
    SettlementRows(db.ledger, o, db.orders[o], CommissionFor(db.orders[o].subtotal, bps), k);
  }

  lemma KeysStep(db: Db, op: Op)
    requires InitWindow(db) && EarningsOk(db) && KeysOk(db)
    ensures KeysOk(Apply(db, op))
  {
    var after := Apply(db, op);
    forall k, o | k in after.ledger && Derived(k, o) ensures o in after.earnings || HeldByPayout(after.ledger, k) {
      DerivedKeyStep(db, op, k, o);
    }
    forall o, k | o in after.earnings && o in after.orders && Needs(after.orders[o], o, after.orders[o].commission, k)
      ensures k in after.ledger
    {
      NeededKeyStep(db, op, o, k);
    }
    forall k | k in after.ledger && after.ledger[k].order.Some? ensures after.ledger[k].order.value in after.orders {
      RowOrderStep(db, op, k);
    }
  }

  /** An order that no row mentions yet. */
  lemma NewOrderNet(db: Db, op: Op, o: OrderId)
    requires LedgerOk(db) && o !in db.orders && o in Apply(db, op).orders
    ensures NetOk(Apply(db, op), o)
  {
    StepNewRow(db, op, o);
    LedgerUntouched(db, op);
    BooksUntouched(db, op);
    SumZero(db.ledger, RowsOf(o));
    CapturedStep(db, op, o);
    NotCaptured(db, o);
  }

  lemma NotCaptured(db: Db, o: OrderId)
    requires SessionsOk(db) && o !in db.orders
    ensures !IsCaptured(db.sessions, o)
  {
    forall i | 0 <= i < |db.sessions| ensures db.sessions[i].order != o { assert SessionRowOk(db, i); }
  }

  lemma CapturesOnline(db: Db, o: OrderId)
    requires SessionsOk(db) && IsCaptured(db.sessions, o)
    ensures o in db.orders && db.orders[o].payment.Online?
  {
    var i :| 0 <= i < |db.sessions| && db.sessions[i].order == o && db.sessions[i].status == Captured;
    assert SessionRowOk(db, i);
  }

  /** A capture adds its charge to the rows of its order, and no other transaction but its settlement adds one. */
  lemma CaptureNet(db: Db, op: Op, o: OrderId)
    requires PaymentsOk(db) && o in db.orders && !(op.OpSettle? && op.order == o)
    ensures o in Apply(db, op).orders
    ensures LedgerNet(Apply(db, op), o) - LedgerNet(db, o) == PaidIn(Apply(db, op), o) - PaidIn(db, o)
    ensures o in db.earnings ==> PaidIn(Apply(db, op), o) == PaidIn(db, o) || CapturesNow(db, op, o)
  {
    CapturedStep(db, op, o);
    CommissionStays(db, op, o);
    if op.OpReconcile? {
      ReconcileNet(db, op, o);
      if CapturesNow(db, op, o) { FirstCapture(db, op, o); }
    } else {
      OtherNet(db, op, o);
    }
  }

  /** What a reconcile books for an order. */
  lemma ReconcileNet(db: Db, op: Op, o: OrderId)
    requires SessionsOk(db) && op.OpReconcile?
    ensures LedgerNet(Apply(db, op), o) == LedgerNet(db, o) + if CapturesNow(db, op, o) then db.orders[o].total else 0
  {
    if CapturesNow(db, op, o) {
      FirstCapture(db, op, o);
      SumUpdate(db.ledger, KashierKey(op.txn), Apply(db, op).ledger[KashierKey(op.txn)], RowsOf(o));
    } else {
      NoCaptureNet(db, op, o);
    }
  }

  lemma NoCaptureNet(db: Db, op: Op, o: OrderId)
    requires op.OpReconcile? && !CapturesNow(db, op, o)
    ensures LedgerNet(Apply(db, op), o) == LedgerNet(db, o)
  {
    if op.txn in db.reconciling {
      var d := db.reconciling[op.txn];
      var v := ReconcileVerdict(db, d, op.txn, op.commitOk);
      if v.Booked? {
        SumUpdate(db.ledger, KashierKey(op.txn),
          ChargeRow(d.order, db.orders[d.order], db.sessions[v.session], d.success), RowsOf(o));
      }
    }
  }

  lemma OtherNet(db: Db, op: Op, o: OrderId)
    requires !op.OpReconcile? && !(op.OpSettle? && op.order == o)
    ensures LedgerNet(Apply(db, op), o) == LedgerNet(db, o)
  {
    match op
    case OpSettle(p, a, bps, share) =>
      if Settleable(db, p, a) {
        SettledSum(db.ledger, p, db.orders[p], CommissionFor(db.orders[p].subtotal, bps), RowsOf(o));
      }
    case OpPayout(account, amount, key, owner) =>
      if owner.Some? && PayoutAccepted(db, account, amount, key) {
        SumUpdate(db.ledger, key, PayoutRow(account, amount, owner.value), RowsOf(o));
      }
    case _ => LedgerUntouched(db, op);
  }

  /** Before its settlement a derived key of an order can only be held by a payout. */
  lemma FreeOrHeld(db: Db, o: OrderId, k: LedgerKey)
    requires KeysOk(db) && o !in db.earnings && Derived(k, o)
    ensures k in db.ledger <==> HeldByPayout(db.ledger, k)
  {
  }

  lemma CountedAdded(db: Db, o: OrderId, k: LedgerKey, amount: int, after: map<LedgerKey, Tx>)
    requires KeysOk(db) && o !in db.earnings && Derived(k, o)
             && (HeldByPayout(after, k) <==> HeldByPayout(db.ledger, k))
    ensures Counted(after, k, amount) == Added(db.ledger, amount > 0, k, amount)
  {
    FreeOrHeld(db, o, k);
  }

  lemma RowsAdded(db: Db, o: OrderId, commission: int)
    requires KeysOk(db) && o in db.orders && o !in db.earnings
    ensures var ord, after := db.orders[o], SettledLedger(db.ledger, o, db.orders[o], commission);
            SettledRows(after, o, ord.(commission := commission))
            == Added(db.ledger, Collected(ord) > 0, CodCollectKey(o), Collected(ord))
               - Added(db.ledger, commission > 0, CommissionKey(o), commission)
               - Added(db.ledger, ord.serviceFee > 0, ServiceFeeKey(o), ord.serviceFee)
               - Added(db.ledger, ord.deliveryFee > 0, DeliveryFeeKey(o), ord.deliveryFee)
  {
    var ord, after := db.orders[o], SettledLedger(db.ledger, o, db.orders[o], commission);
    forall k ensures HeldByPayout(after, k) <==> HeldByPayout(db.ledger, k) {
      SettlementRows(db.ledger, o, ord, commission, k);
    }
    CountedAdded(db, o, CodCollectKey(o), Collected(ord), after);
    CountedAdded(db, o, CommissionKey(o), commission, after);
    CountedAdded(db, o, ServiceFeeKey(o), ord.serviceFee, after);
    CountedAdded(db, o, DeliveryFeeKey(o), ord.deliveryFee, after);
  }

  lemma SettledNetOk(db: Db, o: OrderId, agent: AgentId, bps: int, share: int)
    requires LedgerOk(db) && Settleable(db, o, agent)
    ensures NetOk(SettleDelivered(db, o, agent, bps, share), o)
  {
    var ord, after, commission := db.orders[o], SettleDelivered(db, o, agent, bps, share),
      CommissionFor(db.orders[o].subtotal, bps);
    assert o !in db.earnings && NetOk(db, o);
    SettledAdds(db, o, agent, bps, share);
    assert PaidIn(after, o) == PaidIn(db, o);
    SameRows(after.ledger, o, ord.(commission := commission), after.orders[o]);
  }

  /** A settlement adds its own rows to the ledger net of its order. */
  lemma SettledAdds(db: Db, o: OrderId, agent: AgentId, bps: int, share: int)
    requires LedgerOk(db) && Settleable(db, o, agent) && o !in db.earnings
    ensures var ord, after := db.orders[o], SettleDelivered(db, o, agent, bps, share);
            LedgerNet(after, o) == LedgerNet(db, o)
              + SettledRows(after.ledger, o, ord.(commission := CommissionFor(ord.subtotal, bps)))
  {
    assert db.orders[o].total > 0 by { assert RowOk(db.orders[o], db.now); }
    SettledFormula(db, o, agent, bps, share);
    RowsAdded(db, o, CommissionFor(db.orders[o].subtotal, bps));
  }

  lemma SameRows(ledger: map<LedgerKey, Tx>, o: OrderId, ord: Order, other: Order)
    requires SameOrder(ord, other) && ord.commission == other.commission
    ensures SettledRows(ledger, o, ord) == SettledRows(ledger, o, other)
  {
  }

  /** Rows that are there and stay as they are come to the same. */
  lemma RowsStay(ledger: map<LedgerKey, Tx>, after: map<LedgerKey, Tx>, o: OrderId, ord: Order, later: Order)
    requires forall k | k in ledger :: HeldByPayout(after, k) <==> HeldByPayout(ledger, k)
    requires SameOrder(ord, later) && later.commission == ord.commission
    requires Collected(ord) > 0 ==> CodCollectKey(o) in ledger
    requires ord.commission > 0 ==> CommissionKey(o) in ledger
    requires ord.serviceFee > 0 ==> ServiceFeeKey(o) in ledger
    requires ord.deliveryFee > 0 ==> DeliveryFeeKey(o) in ledger
    ensures SettledRows(after, o, later) == SettledRows(ledger, o, ord)
  {
  }

  /** The rows of a settled order keep what they come to. */
  lemma SettledRowsStay(db: Db, op: Op, o: OrderId)
    requires LedgerOk(db) && o in db.earnings && o in db.orders
    ensures o in Apply(db, op).orders
    ensures SettledRows(Apply(db, op).ledger, o, Apply(db, op).orders[o]) == SettledRows(db.ledger, o, db.orders[o])
  {
    SettledBefore(db, op, o);
    CollectedNeeded(db, o);
    forall k | k in db.ledger ensures HeldByPayout(Apply(db, op).ledger, k) <==> HeldByPayout(db.ledger, k) {
      HeldStays(db, op, k);
    }
    RowsStay(db.ledger, Apply(db, op).ledger, o, db.orders[o], Apply(db, op).orders[o]);
  }

  lemma CollectedNeeded(db: Db, o: OrderId)
    requires KeysOk(db) && o in db.earnings && o in db.orders
    ensures Collected(db.orders[o]) > 0 ==> CodCollectKey(o) in db.ledger
    ensures db.orders[o].commission > 0 ==> CommissionKey(o) in db.ledger
    ensures db.orders[o].serviceFee > 0 ==> ServiceFeeKey(o) in db.ledger
    ensures db.orders[o].deliveryFee > 0 ==> DeliveryFeeKey(o) in db.ledger
  {
  }

  lemma NetStep(db: Db, op: Op, o: OrderId)
    requires LedgerOk(db) && o in Apply(db, op).orders
    ensures NetOk(Apply(db, op), o)
  {
    if o !in db.orders {
      NewOrderNet(db, op, o);
    } else if op.OpSettle? && op.order == o {
      SettleKeepsNet(db, o, op.agent, op.commissionBps, op.shareBps);
    } else {
      OtherKeepsNet(db, op, o);
    }
  }

  lemma SettleKeepsNet(db: Db, o: OrderId, agent: AgentId, bps: int, share: int)
    requires LedgerOk(db) && o in db.orders
    ensures o in SettleDelivered(db, o, agent, bps, share).orders && NetOk(SettleDelivered(db, o, agent, bps, share), o)
  {
    assert NetOk(db, o);
    if Settleable(db, o, agent) { SettledNetOk(db, o, agent, bps, share); }
  }

  lemma OtherKeepsNet(db: Db, op: Op, o: OrderId)
    requires LedgerOk(db) && o in db.orders && o in Apply(db, op).orders && !(op.OpSettle? && op.order == o)
    ensures NetOk(Apply(db, op), o)
  {
    assert NetOk(db, o);
    SettledBefore(db, op, o);
    CaptureNet(db, op, o);
    if o in db.earnings { SettledRowsStay(db, op, o); }
  }

  /** In every run, whatever keys payouts carry, each order's ledger rows come to exactly this. */
  lemma {:induction false} RunKeepsLedger(t0: Time, ops: seq<Op>)
    ensures LedgerOk(Run(t0, ops))
  {
    RunKeepsPayments(t0, ops);
    RunKeepsEarnings(t0, ops);
    if ops != [] {
      var prior, op := ops[..|ops| - 1], ops[|ops| - 1];
      RunKeepsLedger(t0, prior);
      KeysStep(Run(t0, prior), op);
      forall o | o in Run(t0, ops).orders ensures NetOk(Run(t0, ops), o) { NetStep(Run(t0, prior), op, o); }
    }
  }

  /* ---- when the ledger accounts for an order ---- */

  function Dropped(ledger: map<LedgerKey, Tx>, k: LedgerKey, amount: int): int {
    if amount > 0 && HeldByPayout(ledger, k) then amount else 0
  }

  /**
   By how much the rows of a settled order exceed its subtotal minus its commission: the fees whose keys
   payouts hold, less a cash collection whose key one holds, and a negative commission, which has no row.
   */
  function Excess(ledger: map<LedgerKey, Tx>, o: OrderId, ord: Order): int {
    Dropped(ledger, CommissionKey(o), ord.commission) + Dropped(ledger, ServiceFeeKey(o), ord.serviceFee)
    + Dropped(ledger, DeliveryFeeKey(o), ord.deliveryFee) - Dropped(ledger, CodCollectKey(o), Collected(ord))
    + if ord.commission < 0 then ord.commission else 0
  }

  /** An order on its way is paid for, by a capture or by the cash to be collected. */
  lemma OnTheWayIsPaid(db: Db, o: OrderId)
    requires PaymentsOk(db) && o in db.orders && db.orders[o].status in {Picked, Delivered}
    ensures PaidIn(db, o) + Collected(db.orders[o]) == db.orders[o].total
  {
    if db.orders[o].payment.Online? {
      assert GateOk(db, o);
    } else if IsCaptured(db.sessions, o) {
      CapturesOnline(db, o);
    }
  }

  lemma ReconcilesAt(db: Db, o: OrderId)
    requires LedgerOk(db) && o in db.earnings
    ensures && o in db.orders
            && LedgerNet(db, o) == db.orders[o].subtotal - db.orders[o].commission + Excess(db.ledger, o, db.orders[o])
  {
    OnTheWayIsPaid(db, o);
    assert NetOk(db, o) && RowOk(db.orders[o], db.now);
    ExcessCloses(db.ledger, o, db.orders[o]);
  }

  /** Whatever rows are missing, the settlement rows, the excess and the money paid in add up. */
  lemma ExcessCloses(ledger: map<LedgerKey, Tx>, o: OrderId, ord: Order)
    requires ord.total == ord.subtotal + ord.deliveryFee + ord.serviceFee
    ensures SettledRows(ledger, o, ord) + ord.total - Collected(ord)
            == ord.subtotal - ord.commission + Excess(ledger, o, ord)
  {
  }

  /** In every run the rows of a settled order are its subtotal minus its commission, off by exactly its excess. */
  lemma SettledReconciles(t0: Time, ops: seq<Op>, o: OrderId)
    requires o in Run(t0, ops).earnings
    ensures var db := Run(t0, ops);
            && o in db.orders
            && LedgerNet(db, o) == db.orders[o].subtotal - db.orders[o].commission + Excess(db.ledger, o, db.orders[o])
  {
    RunKeepsLedger(t0, ops);
    ReconcilesAt(Run(t0, ops), o);
  }

  /** Every key the order's settlement needed is held by a payout. */
  ghost predicate AllHeld(ledger: map<LedgerKey, Tx>, o: OrderId, ord: Order) {
    forall k | Needs(ord, o, ord.commission, k) :: HeldByPayout(ledger, k)
  }

  ghost predicate NoneHeld(ledger: map<LedgerKey, Tx>, o: OrderId, ord: Order) {
    forall k | Needs(ord, o, ord.commission, k) :: !HeldByPayout(ledger, k)
  }

  lemma HeldKeys(ledger: map<LedgerKey, Tx>, o: OrderId, ord: Order)
    ensures NoneHeld(ledger, o, ord) <==>
              && (ord.payment.Cod? ==> !HeldByPayout(ledger, CodCollectKey(o)))
              && (ord.commission > 0 ==> !HeldByPayout(ledger, CommissionKey(o)))
              && (ord.serviceFee > 0 ==> !HeldByPayout(ledger, ServiceFeeKey(o)))
              && (ord.deliveryFee > 0 ==> !HeldByPayout(ledger, DeliveryFeeKey(o)))
    ensures AllHeld(ledger, o, ord) <==>
              && (ord.payment.Cod? ==> HeldByPayout(ledger, CodCollectKey(o)))
              && (ord.commission > 0 ==> HeldByPayout(ledger, CommissionKey(o)))
              && (ord.serviceFee > 0 ==> HeldByPayout(ledger, ServiceFeeKey(o)))
              && (ord.deliveryFee > 0 ==> HeldByPayout(ledger, DeliveryFeeKey(o)))
  {
    var c := ord.commission;
    assert Needs(ord, o, c, CodCollectKey(o)) <==> ord.payment.Cod?;
    assert Needs(ord, o, c, CommissionKey(o)) <==> c > 0;
    assert Needs(ord, o, c, ServiceFeeKey(o)) <==> ord.serviceFee > 0;
    assert Needs(ord, o, c, DeliveryFeeKey(o)) <==> ord.deliveryFee > 0;
  }

  ghost predicate Reconciles(db: Db, o: OrderId)
    requires o in db.orders
  {
    LedgerNet(db, o) == db.orders[o].subtotal - db.orders[o].commission
  }

  lemma ReconcilesAtIff(db: Db, o: OrderId)
    requires LedgerOk(db) && o in db.earnings && o in db.orders && 0 <= db.orders[o].commission <= db.orders[o].subtotal
    ensures var ord := db.orders[o];
            Reconciles(db, o) <==> NoneHeld(db.ledger, o, ord)
                                   || (ord.payment.Cod? && ord.commission == ord.subtotal && AllHeld(db.ledger, o, ord))
  {
    ReconcilesAt(db, o);
    assert RowOk(db.orders[o], db.now);
    HeldKeys(db.ledger, o, db.orders[o]);
  }

  /**
   For commissions between nothing and the whole subtotal, a settled order reconciles in the ledger exactly
   when payouts hold none of the keys it needed, or it paid cash, left the restaurant nothing, and they hold all.
   */
  lemma ReconcilesIff(t0: Time, ops: seq<Op>, o: OrderId)
    requires var db := Run(t0, ops);
             o in db.earnings && o in db.orders && 0 <= db.orders[o].commission <= db.orders[o].subtotal
    ensures var db := Run(t0, ops);
            var ord := db.orders[o];
            Reconciles(db, o) <==> NoneHeld(db.ledger, o, ord)
                                   || (ord.payment.Cod? && ord.commission == ord.subtotal && AllHeld(db.ledger, o, ord))
  {
    RunKeepsLedger(t0, ops);
    ReconcilesAtIff(Run(t0, ops), o);
  }

  ghost predicate NoneTaken(ledger: map<LedgerKey, Tx>, o: OrderId, ord: Order, commission: int) {
    forall k | Needs(ord, o, commission, k) :: k !in ledger
  }

  ghost predicate AllTaken(ledger: map<LedgerKey, Tx>, o: OrderId, ord: Order, commission: int) {
    forall k | Needs(ord, o, commission, k) :: k in ledger
  }

  /** Read before the call: none of the keys it is about to need is taken, or they all are and nothing is left over. */
  ghost predicate WillReconcile(db: Db, o: OrderId, commission: int)
    requires o in db.orders
  {
    var ord := db.orders[o];
    || NoneTaken(db.ledger, o, ord, commission)
    || (ord.payment.Cod? && commission == ord.subtotal && AllTaken(db.ledger, o, ord, commission))
  }

  /** A settlement reconciles exactly when the ledger it finds lets it write its rows. */
  lemma SettlementReconciles(t0: Time, ops: seq<Op>, o: OrderId, agent: AgentId, bps: int, share: int)
    requires var db := Run(t0, ops);
             Settleable(db, o, agent) && 0 <= CommissionFor(db.orders[o].subtotal, bps) <= db.orders[o].subtotal
    ensures AsForetold(Run(t0, ops), Run(t0, ops + [OpSettle(o, agent, bps, share)]), o, bps)
  {
    LedgerAround(t0, ops, OpSettle(o, agent, bps, share));
    ReconcilesAfter(Run(t0, ops), Run(t0, ops + [OpSettle(o, agent, bps, share)]), o, agent, bps, share);
  }

  ghost predicate AsForetold(db: Db, after: Db, o: OrderId, bps: int) {
    && o in db.orders && o in after.orders
    && (Reconciles(after, o) <==> WillReconcile(db, o, CommissionFor(db.orders[o].subtotal, bps)))
  }

  lemma LedgerAround(t0: Time, ops: seq<Op>, op: Op)
    ensures LedgerOk(Run(t0, ops)) && LedgerOk(Run(t0, ops + [op]))
    ensures op.OpSettle? ==>
              Run(t0, ops + [op]) == SettleDelivered(Run(t0, ops), op.order, op.agent, op.commissionBps, op.shareBps)
  {
    RunExtend(t0, ops, op);
    RunKeepsLedger(t0, ops);
    RunKeepsLedger(t0, ops + [op]);
  }

  lemma ReconcilesAfter(db: Db, after: Db, o: OrderId, agent: AgentId, bps: int, share: int)
    requires LedgerOk(db) && LedgerOk(after) && after == SettleDelivered(db, o, agent, bps, share)
    requires Settleable(db, o, agent) && 0 <= CommissionFor(db.orders[o].subtotal, bps) <= db.orders[o].subtotal
    ensures AsForetold(db, after, o, bps)
  {
    var ord, commission := db.orders[o], CommissionFor(db.orders[o].subtotal, bps);
    assert after.orders[o] == DeliveredOrder(ord, commission, db.now)
      && after.ledger == SettledLedger(db.ledger, o, ord, commission);
    ReconcilesAtIff(after, o);
    TakenIsHeld(db, after.ledger, o, commission, after.orders[o]);
  }

  /** What was taken before is what payouts hold afterwards. */
  lemma TakenIsHeld(db: Db, after: map<LedgerKey, Tx>, o: OrderId, commission: int, settled: Order)
    requires KeysOk(db) && o in db.orders && o !in db.earnings
             && after == SettledLedger(db.ledger, o, db.orders[o], commission)
    requires settled == DeliveredOrder(db.orders[o], commission, db.now)
    ensures NoneHeld(after, o, settled) <==> NoneTaken(db.ledger, o, db.orders[o], commission)
    ensures AllHeld(after, o, settled) <==> AllTaken(db.ledger, o, db.orders[o], commission)
  {
    forall k ensures Needs(settled, o, settled.commission, k) <==> Needs(db.orders[o], o, commission, k) {}
    forall k | Needs(db.orders[o], o, commission, k) ensures HeldByPayout(after, k) <==> k in db.ledger {
      FreeOrHeld(db, o, k);
      SettlementRows(db.ledger, o, db.orders[o], commission, k);
    }
  }

  /**
   The ledger form does fail: a payout sent under a commission key is accepted and keeps that order's
   commission row out.
   */
  lemma TakenKeyBreaksReconciliation(
      t0: Time, ops: seq<Op>, o: OrderId, agent: AgentId, bps: int, share: int, account: Account, amount: nat,
      owner: UserId)
    requires var db := Run(t0, ops);
             && Settleable(db, o, agent) && PayoutAccepted(db, account, amount, CommissionKey(o))
             && 0 < CommissionFor(db.orders[o].subtotal, bps) < db.orders[o].subtotal
    ensures var squat := OpPayout(account, amount, CommissionKey(o), Some(owner));
            var after := Run(t0, ops + [squat, OpSettle(o, agent, bps, share)]);
            o in after.orders && !Reconciles(after, o)
  {
    var pay, settle := OpPayout(account, amount, CommissionKey(o), Some(owner)), OpSettle(o, agent, bps, share);
    RunExtend(t0, ops, pay);
    assert ops + [pay] + [settle] == ops + [pay, settle];
    KeyIsHeld(Run(t0, ops), account, amount, o, owner, agent);
    HeldKeyBreaks(t0, ops + [pay], o, agent, bps, share);
  }

  lemma KeyIsHeld(db: Db, account: Account, amount: nat, o: OrderId, owner: UserId, agent: AgentId)
    requires Settleable(db, o, agent) && PayoutAccepted(db, account, amount, CommissionKey(o))
    ensures var paid := Apply(db, OpPayout(account, amount, CommissionKey(o), Some(owner)));
            && Settleable(paid, o, agent) && paid.orders == db.orders && HeldByPayout(paid.ledger, CommissionKey(o))
  {
  }

  lemma HeldKeyBreaks(t0: Time, ops: seq<Op>, o: OrderId, agent: AgentId, bps: int, share: int)
    requires var db := Run(t0, ops);
             && Settleable(db, o, agent) && HeldByPayout(db.ledger, CommissionKey(o))
             && 0 < CommissionFor(db.orders[o].subtotal, bps) < db.orders[o].subtotal
    ensures var after := Run(t0, ops + [OpSettle(o, agent, bps, share)]); o in after.orders && !Reconciles(after, o)
  {
    var db := Run(t0, ops);
    SettlementReconciles(t0, ops, o, agent, bps, share);
    assert Needs(db.orders[o], o, CommissionFor(db.orders[o].subtotal, bps), CommissionKey(o));
  }

  /* ---- when the ledger accounts for a balance ---- */

  /** Ledger net of an order if it is settled on this account. */
  ghost function SettledLedgerNet(db: Db, a: Account): (OrderId, Order) -> int {
    (o: OrderId, ord: Order) => if o in db.earnings && AccountOf(ord) == a then LedgerNet(db, o) else 0
  }

  ghost function ExcessOf(db: Db, a: Account): (OrderId, Order) -> int {
    (o: OrderId, ord: Order) => if o in db.earnings && AccountOf(ord) == a then Excess(db.ledger, o, ord) else 0
  }

  /**
   Conservation read off the ledger, in every run: a balance is the charge or cash collected for each settled
   order, minus its commission, service fee and delivery fee rows, minus the payouts, off by the excesses alone.
   */
  lemma LedgerAccountsForBalances(t0: Time, ops: seq<Op>, a: Account)
    ensures var db := Run(t0, ops);
            BalanceOf(db.balances, a) == SumMap(db.orders, SettledLedgerNet(db, a))
              - SumMap(db.orders, ExcessOf(db, a)) - PaidOut(db.payouts, a)
  {
    var db := Run(t0, ops);
    BooksAlwaysKept(t0, ops, a);
    forall o | o in db.orders
      ensures SettledLedgerNet(db, a)(o, db.orders[o])
              == SettledFor(db.earnings.Keys, OfAccount(a))(o, db.orders[o]) + ExcessOf(db, a)(o, db.orders[o])
    {
      if o in db.earnings { SettledReconciles(t0, ops, o); }
    }
    SumAdd(db.orders, SettledFor(db.earnings.Keys, OfAccount(a)), ExcessOf(db, a), SettledLedgerNet(db, a));
  }

  /** A run in which clients keep to their own keys and rates are not negative. */
  predicate Disciplined(op: Op) {
    (op.OpPayout? ==> op.key.ClientKey?) && (op.OpSettle? ==> op.commissionBps >= 0)
  }

  lemma {:induction false} DisciplinedKeys(t0: Time, ops: seq<Op>, o: OrderId)
    requires forall i | 0 <= i < |ops| :: Disciplined(ops[i])
    ensures forall k | HeldByPayout(Run(t0, ops).ledger, k) :: k.ClientKey?
    ensures o in Run(t0, ops).orders ==> Run(t0, ops).orders[o].commission >= 0
  {
    if ops != [] {
      var prior, op := ops[..|ops| - 1], ops[|ops| - 1];
      DisciplinedKeys(t0, prior, o);
      RunKeepsInitWindow(t0, prior);
      DisciplinedStep(Run(t0, prior), op, o);
    }
  }

  lemma DisciplinedStep(db: Db, op: Op, o: OrderId)
    requires InitWindow(db) && Disciplined(op)
    requires forall k | HeldByPayout(db.ledger, k) :: k.ClientKey?
    requires o in db.orders ==> db.orders[o].commission >= 0
    ensures forall k | HeldByPayout(Apply(db, op).ledger, k) :: k.ClientKey?
    ensures o in Apply(db, op).orders ==> Apply(db, op).orders[o].commission >= 0
  {
    forall k | HeldByPayout(Apply(db, op).ledger, k) ensures k.ClientKey? {
      if k in db.ledger { HeldStays(db, op, k); }
      else if !op.OpPayout? { PayoutRowsOnlyByPayout(db, op, k); }
    }
    if o !in db.orders {
      if o in Apply(db, op).orders { StepNewRow(db, op, o); }
    } else if op.OpSettle? && op.order == o {
      assert db.orders[o].subtotal * op.commissionBps >= 0;
    } else {
      CommissionStays(db, op, o);
    }
  }

  /** Where clients keep to their own keys, the ledger accounts for every balance, with nothing to correct. */
  lemma DisciplinedLedger(t0: Time, ops: seq<Op>, a: Account)
    requires forall i | 0 <= i < |ops| :: Disciplined(ops[i])
    ensures var db := Run(t0, ops);
            BalanceOf(db.balances, a) == SumMap(db.orders, SettledLedgerNet(db, a)) - PaidOut(db.payouts, a)
  {
    var db := Run(t0, ops);
    LedgerAccountsForBalances(t0, ops, a);
    forall o | o in db.orders ensures ExcessOf(db, a)(o, db.orders[o]) == 0 { DisciplinedKeys(t0, ops, o); }
    SumZero(db.orders, ExcessOf(db, a));
  }

  /* ---- the shard's books in one currency, without knowing which restaurant a payout was for ---- */

  function BalancesIn(c: Currency): (Account, int) -> int {
    (a: Account, balance: int) => if a.currency == c then balance else 0
  }

  function PayoutsIn(c: Currency): (LedgerKey, Tx) -> int {
    (k: LedgerKey, tx: Tx) => if tx.kind == PayoutTx && tx.currency == c then tx.amount else 0
  }

  ghost predicate CurrencyConserved(db: Db, c: Currency) {
    SumMap(db.balances, BalancesIn(c)) == SettledNet(db, OfCurrency(c)) - SumMap(db.ledger, PayoutsIn(c))
  }

  lemma SettleBalancesIn(db: Db, o: OrderId, agent: AgentId, bps: int, share: int, c: Currency)
    requires Settleable(db, o, agent)
    ensures SumMap(SettleDelivered(db, o, agent, bps, share).balances, BalancesIn(c))
            == SumMap(db.balances, BalancesIn(c))
              + if db.orders[o].currency == c then db.orders[o].subtotal - CommissionFor(db.orders[o].subtotal, bps)
                else 0
  {
    var a := AccountOf(db.orders[o]);
    var net := db.orders[o].subtotal - CommissionFor(db.orders[o].subtotal, bps);
    SumUpdate(db.balances, a, BalanceOf(db.balances, a) + net, BalancesIn(c));
  }

  lemma SettleConservesCurrency(db: Db, o: OrderId, agent: AgentId, bps: int, share: int, c: Currency)
    requires EarningsOk(db) && CurrencyConserved(db, c)
    ensures CurrencyConserved(SettleDelivered(db, o, agent, bps, share), c)
  {
    if Settleable(db, o, agent) {
      SettledNetGrows(db, o, agent, bps, share, OfCurrency(c));
      SettleBalancesIn(db, o, agent, bps, share, c);
      SettledSum(db.ledger, o, db.orders[o], CommissionFor(db.orders[o].subtotal, bps), PayoutsIn(c));
    }
  }

  lemma PayoutConservesCurrency(db: Db, account: Account, amount: nat, key: LedgerKey, owner: Option<UserId>,
      c: Currency)
    requires CurrencyConserved(db, c)
    ensures CurrencyConserved(RecordPayout(db, account, amount, key, owner), c)
  {
    if owner.Some? && PayoutAccepted(db, account, amount, key) {
      SumUpdate(db.balances, account, db.balances[account] - amount, BalancesIn(c));
      SumUpdate(db.ledger, key, PayoutRow(account, amount, owner.value), PayoutsIn(c));
    }
  }

  lemma PayoutsInUnchanged(db: Db, op: Op, c: Currency)
    requires !op.OpSettle? && !op.OpPayout?
    ensures SumMap(Apply(db, op).ledger, PayoutsIn(c)) == SumMap(db.ledger, PayoutsIn(c))
  {
    if op.OpReconcile? {
      ReconcileLedger(db, op.txn, op.commitOk);
      if Apply(db, op).ledger != db.ledger {
        SumUpdate(db.ledger, KashierKey(op.txn), Apply(db, op).ledger[KashierKey(op.txn)], PayoutsIn(c));
      }
    } else {
      LedgerUntouched(db, op);
    }
  }

  lemma CurrencyStep(db: Db, op: Op, c: Currency)
    requires InitWindow(db) && EarningsOk(db) && CurrencyConserved(db, c)
    ensures CurrencyConserved(Apply(db, op), c)
  {
    match op
    case OpSettle(o, a, bps, share) => SettleConservesCurrency(db, o, a, bps, share, c);
    case OpPayout(account, amount, key, owner) => PayoutConservesCurrency(db, account, amount, key, owner, c);
    case _ =>
      BooksUntouched(db, op);
      SettledNetUnchanged(db, op, OfCurrency(c));
      PayoutsInUnchanged(db, op, c);
  }

  /** In every run all balances of a currency together are the settled net minus the payout rows. */
  lemma {:induction false} CurrencyBooksBalance(t0: Time, ops: seq<Op>, c: Currency)
    ensures CurrencyConserved(Run(t0, ops), c)
  {
    if ops != [] {
      var prior := ops[..|ops| - 1];
      CurrencyBooksBalance(t0, prior, c);
      RunKeepsInitWindow(t0, prior);
      RunKeepsEarnings(t0, prior);
      CurrencyStep(Run(t0, prior), ops[|ops| - 1], c);
    }
  }
}
