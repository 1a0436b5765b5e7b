/**
 Runs from the empty shard in which the code does less than it should: a delivery that leaves the books, stock
 given back twice, a captured payment that is never booked, and a ledger that does not add up.
 */
module FailingRuns {
  import opened Types
  import opened OrderStatus
  import opened ShardState
  import opened OrderRuns
  import opened Payments
  import opened Money
  import opened Stock
  import opened Ledger

  lemma Next(t0: Time, ops: seq<Op>, op: Op) returns (longer: seq<Op>, db: Db)
    ensures longer == ops + [op] && db == Run(t0, longer) == Apply(Run(t0, ops), op)
  {
    longer, db := ops + [op], Apply(Run(t0, ops), op);
    RunExtend(t0, ops, op);
  }

  /* ---- an order on its way to the customer ---- */

  /** One order moves on, and nothing else of the orders or the money changes. */
  predicate MovesOn(before: Db, after: Db, o: OrderId, st: Status, agent: Option<AgentId>) {
    && o in before.orders && o in after.orders
    && after.orders == before.orders[o := after.orders[o]]
    && after.orders[o] == before.orders[o].(status := st, agent := agent, stamps := after.orders[o].stamps)
    && after.ledger == before.ledger && after.balances == before.balances && after.reserved == before.reserved
  }

  /** The restaurant's owner. */
  function OwnerOf(d: Draft): Caller {
    Caller(d.owner, RestaurantUser(d.restaurant, true, []))
  }

  lemma OwnerMay(db: Db, o: OrderId, d: Draft, target: Status)
    requires o in db.orders && db.orders[o].restaurant == d.restaurant
    requires (db.orders[o].status, target) in {(Placed, Accepted), (Accepted, Preparing), (Preparing, Ready)}
    ensures StatusCheck(db, o, OwnerOf(d), target, false).Allowed?
  {
  }

  /** The three stages the owner takes an order through. */
  lemma KitchenStep(db: Db, o: OrderId, d: Draft, target: Status)
    requires o in db.orders && db.orders[o].restaurant == d.restaurant
    requires (db.orders[o].status, target) in {(Placed, Accepted), (Accepted, Preparing), (Preparing, Ready)}
    ensures MovesOn(db, Apply(db, OpUpdateStatus(o, OwnerOf(d), target, false)), o, target, db.orders[o].agent)
  {
    OwnerMay(db, o, d, target);
  }

  lemma ToReady(t0: Time, ops: seq<Op>, o: OrderId, d: Draft) returns (longer: seq<Op>, db: Db)
    requires HasStatus(Run(t0, ops), o, Placed) && Run(t0, ops).orders[o].restaurant == d.restaurant
    ensures db == Run(t0, longer) && MovesOn(Run(t0, ops), db, o, Ready, Run(t0, ops).orders[o].agent)
  {
    KitchenStep(Run(t0, ops), o, d, Accepted);
    longer, db := Next(t0, ops, OpUpdateStatus(o, OwnerOf(d), Accepted, false));
    KitchenStep(db, o, d, Preparing);
    longer, db := Next(t0, longer, OpUpdateStatus(o, OwnerOf(d), Preparing, false));
    KitchenStep(db, o, d, Ready);
    longer, db := Next(t0, longer, OpUpdateStatus(o, OwnerOf(d), Ready, false));
  }

  /** Claimed and picked up by an agent. */
  lemma ToPicked(t0: Time, ops: seq<Op>, o: OrderId, a: AgentId) returns (longer: seq<Op>, db: Db)
    requires var s := Run(t0, ops); o in s.orders && Claimable(s.orders[o])
    ensures db == Run(t0, longer) && MovesOn(Run(t0, ops), db, o, Picked, Some(a))
  {
    longer, db := Next(t0, ops, OpClaim(o, a));
    assert MovesOn(Run(t0, ops), db, o, Assigned, Some(a));
    longer, db := Next(t0, longer, OpPickUp(o, a));
  }

  /** A cash order from its placement to the agent's bag. */
  lemma CashOrderPicked(t0: Time, ops: seq<Op>, o: OrderId, d: Draft, a: AgentId) returns (longer: seq<Op>, db: Db)
    requires d.payment == Cod && o !in Run(t0, ops).orders && o !in Run(t0, ops).reserved
    ensures db == Run(t0, longer) && Settleable(db, o, a)
    ensures db.orders[o].subtotal == LinesTotal(d.lines) && AccountOf(db.orders[o]) == Account(d.restaurant, d.currency)
    ensures db.ledger == Run(t0, ops).ledger && db.balances == Run(t0, ops).balances
    ensures db.orders.Keys == Run(t0, ops).orders.Keys + {o} && db.reserved.Keys == Run(t0, ops).reserved.Keys + {o}
    ensures forall p | p in Run(t0, ops).orders :: db.orders[p] == Run(t0, ops).orders[p]
  {
    longer, db := Next(t0, ops, OpPlace(o, d, true));
    longer, db := ToReady(t0, longer, o, d);
    longer, db := ToPicked(t0, longer, o, a);
  }

  /* ---- the four runs ---- */

  /** The agent delivers a cash order through the status endpoint: the order is never settled. */
  lemma BypassedDelivery(t0: Time, d: Draft, a: AgentId) returns (ops: seq<Op>)
    requires d.payment == Cod && LinesTotal(d.lines) > 0
    ensures var db := Run(t0, ops);
            Bypassed(db, 1) && db.orders[1].subtotal > 0 && !BalanceConserved(db, Account(d.restaurant, d.currency))
  {
    var db: Db;
    ops, db := CashOrderPicked(t0, [], 1, d, a);
    RunKeepsEarnings(t0, ops);
    AgentDelivers(db, a);
    ops, db := Next(t0, ops, OpUpdateStatus(1, Caller(a, DeliveryAgent), Delivered, false));
    ConservedIff(t0, ops, Account(d.restaurant, d.currency));
  }

  lemma AgentDelivers(db: Db, a: AgentId)
    requires EarningsOk(db) && Settleable(db, 1, a)
    ensures var after := Apply(db, OpUpdateStatus(1, Caller(a, DeliveryAgent), Delivered, false));
            && Bypassed(after, 1) && after.orders[1].subtotal == db.orders[1].subtotal
            && AccountOf(after.orders[1]) == AccountOf(db.orders[1])
  {
    AgentMay(db, a);
  }

  lemma AgentMay(db: Db, a: AgentId)
    requires Settleable(db, 1, a)
    ensures StatusCheck(db, 1, Caller(a, DeliveryAgent), Delivered, false).Allowed?
  {
  }

  /** The customer cancels while the payment session is being opened, and that call fails: two releases. */
  lemma CancelledThenFailed(t0: Time, d: Draft, c: Caller)
    requires d.payment == Online && c.role == OtherRole && c.userId == d.customer
    ensures var ops := [OpPlace(1, d, true), OpUpdateStatus(1, c, Cancelled, false), OpInitPayment(1, InitFailed)];
            HasStatus(Run(t0, ops), 1, Cancelled) && ReleaseCount(Run(t0, ops), 1) == 2
  {
    var cancel, init := OpUpdateStatus(1, c, Cancelled, false), OpInitPayment(1, InitFailed);
    var ops, db := FirstAwaited(t0, d);
    CancelAwaited(db, c);
    ops, db := Next(t0, ops, cancel);
    FailAwaited(db);
    ops, db := Next(t0, ops, init);
    assert ops == [OpPlace(1, d, true), cancel, init];
  }

  /** An online order just placed, its payment session awaited. */
  predicate Awaited(db: Db, st: Status, releases: nat) {
    && HasStatus(db, 1, st) && 1 in db.awaitingInit && db.sessions == [] && ReleaseCount(db, 1) == releases
    && db.webhookEvents == map[] && db.reconciling == map[] && db.ledger == map[]
  }

  lemma FirstAwaited(t0: Time, d: Draft) returns (ops: seq<Op>, db: Db)
    requires d.payment == Online
    ensures ops == [OpPlace(1, d, true)] && db == Run(t0, ops) && Awaited(db, PendingPayment, 0)
    ensures db.orders[1].customer == d.customer
  {
    ops, db := Next(t0, [], OpPlace(1, d, true));
  }

  lemma CancelAwaited(db: Db, c: Caller)
    requires Awaited(db, PendingPayment, 0) && c.role == OtherRole && c.userId == db.orders[1].customer
    ensures Awaited(Apply(db, OpUpdateStatus(1, c, Cancelled, false)), Cancelled, 1)
  {
  }

  lemma FailAwaited(db: Db)
    requires Awaited(db, Cancelled, 1)
    ensures var after := Apply(db, OpInitPayment(1, InitFailed));
            HasStatus(after, 1, Cancelled) && ReleaseCount(after, 1) == 2
  {
  }

  /** Its session opened, and the capture recorded. */
  lemma CaptureRecorded(db: Db, txn: TxnId)
    requires Awaited(db, PendingPayment, 0)
    ensures var ready := Apply(db, OpInitPayment(1, SessionCreated));
            var after := Apply(ready, OpRecordWebhook(txn, Delivery(true, 1, true)));
            && HasStatus(after, 1, PendingPayment) && after.ledger == map[] && |after.sessions| == 1
            && after.reconciling == map[txn := Delivery(true, 1, true)] && txn in after.webhookEvents
  {
  }

  /** The process that cancels the order dies before its release call: the stock is due back and held. */
  lemma CancelledAndHeld(t0: Time, d: Draft, c: Caller)
    requires d.payment == Online && c.role == OtherRole && c.userId == d.customer
    ensures var ops := [OpPlace(1, d, true), OpUpdateStatus(1, c, Cancelled, false)];
            && 1 in Run(t0, ops).reserved && DueBack(t0, ops, 1) && Made(t0, ops, {1}, 1) == 0
  {
    var place, db := FirstAwaited(t0, d);
    CancelAwaited(db, c);
    var ops, after := Next(t0, place, OpUpdateStatus(1, c, Cancelled, false));
    StockConserved(t0, ops, 1);
    MadeIffAlive(t0, place, {1}, 1);
    assert ops[..1] == place && ops == [OpPlace(1, d, true), OpUpdateStatus(1, c, Cancelled, false)];
  }

  /** A captured payment whose reconcile failed: the order stays pending, nothing is booked, the event is spent. */
  predicate CaptureLost(db: Db, txn: TxnId) {
    Spent(db, txn) && HasStatus(db, 1, PendingPayment) && db.ledger == map[]
  }

  /** The provider has captured the payment, the one reconcile fails, and no redelivery changes that any more. */
  lemma CaptureNeverBooked(t0: Time, d: Draft, txn: TxnId, more: seq<Op>)
    requires d.payment == Online && forall i | 0 <= i < |more| :: Concerns(more[i], txn)
    ensures var ops := [OpPlace(1, d, true), OpInitPayment(1, SessionCreated),
                        OpRecordWebhook(txn, Delivery(true, 1, true)), OpReconcile(txn, false)];
            CaptureLost(Run(t0, ops + more), txn)
  {
    var init, record := OpInitPayment(1, SessionCreated), OpRecordWebhook(txn, Delivery(true, 1, true));
    var ops, db := FirstAwaited(t0, d);
    CaptureRecorded(db, txn);
    ops, db := Next(t0, ops, init);
    ops, db := Next(t0, ops, record);
    ops, db := Next(t0, ops, OpReconcile(txn, false));
    assert ops == [OpPlace(1, d, true), init, record, OpReconcile(txn, false)];
    RedeliveriesChangeNothing(t0, ops, more, txn);
  }

  lemma {:induction false} RedeliveriesChangeNothing(t0: Time, ops: seq<Op>, more: seq<Op>, txn: TxnId)
    requires Spent(Run(t0, ops), txn) && forall i | 0 <= i < |more| :: Concerns(more[i], txn)
    ensures Run(t0, ops + more) == Run(t0, ops)
  {
    if more == [] {
      assert ops + more == ops;
    } else {
      var rest, last := more[..|more| - 1], more[|more| - 1];
      RedeliveriesChangeNothing(t0, ops, rest, txn);
      SpentForever(t0, ops, rest, last, txn);
      RunExtend(t0, ops + rest, last);
      assert ops + more == ops + rest + [last];
    }
  }

  /** One order is settled, its money paid out under the second order's commission key, and the second one settled. */
  lemma TakenKey(t0: Time, d: Draft, a: AgentId, bps: int, share: int) returns (ops: seq<Op>)
    requires d.payment == Cod && 0 < CommissionFor(LinesTotal(d.lines), bps) < LinesTotal(d.lines)
    ensures HasStatus(Run(t0, ops), 2, Delivered) && 2 in Run(t0, ops).earnings && !Reconciles(Run(t0, ops), 2)
  {
    var before, db := CashOrderPicked(t0, [], 1, d, a);
    before, db := CashOrderPicked(t0, before, 2, d, a);
    before, db := SettleFirst(t0, before, a, bps, share);
    ops := PayThenSettle(t0, before, Account(d.restaurant, d.currency), d.owner, a, bps, share);
  }

  lemma PayThenSettle(t0: Time, before: seq<Op>, account: Account, owner: UserId, a: AgentId, bps: int, share: int)
      returns (ops: seq<Op>)
    requires var db := Run(t0, before);
             && Settleable(db, 2, a) && PayoutAccepted(db, account, 1, CommissionKey(2))
             && 0 < CommissionFor(db.orders[2].subtotal, bps) < db.orders[2].subtotal
    ensures HasStatus(Run(t0, ops), 2, Delivered) && 2 in Run(t0, ops).earnings && !Reconciles(Run(t0, ops), 2)
  {
    var squat, settle := OpPayout(account, 1, CommissionKey(2), Some(owner)), OpSettle(2, a, bps, share);
    TakenKeyBreaksReconciliation(t0, before, 2, a, bps, share, account, 1, owner);
    ops := before + [squat, settle];
    KeyIsHeld(Run(t0, before), account, 1, 2, owner, a);
    RunExtend(t0, before, squat);
    RunExtend(t0, before + [squat], settle);
    assert ops == before + [squat] + [settle];
  }

  /** After it the account has money, and the second order's keys are free. */
  lemma SettleFirst(t0: Time, ops: seq<Op>, a: AgentId, bps: int, share: int) returns (longer: seq<Op>, db: Db)
    requires var s := Run(t0, ops);
             && Settleable(s, 1, a) && Settleable(s, 2, a) && s.ledger == map[] && s.balances == map[]
             && CommissionFor(s.orders[1].subtotal, bps) < s.orders[1].subtotal
    ensures var account := AccountOf(Run(t0, ops).orders[1]);
            && longer == ops + [OpSettle(1, a, bps, share)] && db == Run(t0, longer)
            && Settleable(db, 2, a) && db.orders[2] == Run(t0, ops).orders[2]
            && PayoutAccepted(db, account, 1, CommissionKey(2))
  {
    longer, db := Next(t0, ops, OpSettle(1, a, bps, share));
  }
}
