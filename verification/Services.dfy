/**
 The service calls as the source writes them, statement by statement inside a transaction that is rolled
 back when one fails. Each is shown to leave exactly the rows its transaction in `ShardState` leaves, so
 the theorems about runs hold of what these calls do. `commitOk` is false when the transaction fails for
 a reason outside the model, at its commit at the latest.
 */
module Services {
  import opened Types
  import opened OrderStatus
  import opened Repositories
  import Effects
  import Spec = ShardState

  datatype Error =
    | OrderNotFound | NotYourTask | UnAuthorised | StatusError(cause: TransitionError)
    | OrderNotInAssignedState | InvalidAgentTransition | OfflineWhilePicked
    | RestaurantNotFound | InsufficientBalance | ReconcileFailed | PaymentProviderUnavailable | DatabaseError

  datatype Outcome = Ok | Err(error: Error)

  /* ---- settlement ---- */

  /** The write order is commission, ledger rows, balance, earning, status, event; all of it or none. */
  method SettleDelivered(shard: Shard, o: OrderId, a: AgentId, commissionBps: int, shareBps: int, commitOk: bool)
      returns (r: Outcome)
    modifies shard
    ensures shard.Rows() == if r.Ok? then Spec.SettleDelivered(old(shard.Rows()), o, a, commissionBps, shareBps)
            else old(shard.Rows())
    ensures r.Ok? ==> o in shard.orders && o in old(shard.orders)
                      && Effects.ShareOf(shard.orders[o].commission, old(shard.orders)[o].subtotal, commissionBps)
    ensures r.Ok? || r.error in {OrderNotFound, NotYourTask, StatusError(InvalidStatusTransition), DatabaseError}
    ensures r == Err(OrderNotFound) <==> o !in old(shard.orders)
    ensures r == Err(NotYourTask) <==> o in old(shard.orders) && old(shard.orders)[o].agent != Some(a)
    ensures r == Err(StatusError(InvalidStatusTransition)) <==>
              o in old(shard.orders) && old(shard.orders)[o].agent == Some(a) && old(shard.orders)[o].status != Picked
    ensures r == Err(DatabaseError) <==> Effects.PickedBy(old(shard.Rows()), o, a) && !commitOk
  {
    if o !in shard.orders { return Err(OrderNotFound); }
    var ord := shard.orders[o];
    if ord.agent != Some(a) { return Err(NotYourTask); }
    if ord.status != Picked { return Err(StatusError(InvalidStatusTransition)); }
    var saved := shard.Rows();
    Effects.FloorIsShare(ord.subtotal, commissionBps);
    WriteSettlement(shard, o, ord, a, Spec.CommissionFor(ord.subtotal, commissionBps),
      Spec.EarningFor(ord.deliveryFee, shareBps));
    if !commitOk {
      shard.Rollback(saved);
      return Err(DatabaseError);
    }
    return Ok;
  }

  /** The statements of the settlement transaction, in order. */
  method WriteSettlement(shard: Shard, o: OrderId, ord: Order, a: AgentId, commission: int, earning: int)
    requires o in shard.orders && shard.orders[o] == ord
    modifies shard`orders, shard`ledger, shard`balances, shard`earnings, shard`outbox
    ensures shard.orders == old(shard.orders)[o := Spec.DeliveredOrder(ord, commission, shard.now)]
    ensures shard.ledger == Spec.SettledLedger(old(shard.ledger), o, ord, commission)
    ensures var account, net := Spec.AccountOf(ord), ord.subtotal - commission;
            shard.balances == if net != 0
              then old(shard.balances)[account := Spec.BalanceOf(old(shard.balances), account) + net]
                              else old(shard.balances)
    ensures shard.earnings == if o in old(shard.earnings) then old(shard.earnings)
                              else old(shard.earnings)[o := Earning(a, earning, ord.currency)]
    ensures shard.outbox == old(shard.outbox) + [OrderDelivered(o, commission)]
  {
    shard.UpdateOrderCommission(o, commission);
    BookSettlement(shard, o, ord, commission);
    var net := ord.subtotal - commission;
    if net != 0 {
      shard.UpsertIncrement(Spec.AccountOf(ord), net);
    }
    var _ := shard.InsertEarning(o, Earning(a, earning, ord.currency));
    shard.UpdateOrderStatus(o, Delivered, Some(DeliveredAt));
    shard.InsertOutboxEvent(OrderDelivered(o, commission));
  }

  /** The ledger rows of one settlement; a row for a zero amount is not written. */
  method BookSettlement(shard: Shard, o: OrderId, ord: Order, commission: int)
    modifies shard`ledger
    ensures shard.ledger == Spec.SettledLedger(old(shard.ledger), o, ord, commission)
  {
    if ord.payment == Cod {
      var _ := shard.CreateTransactionIdempotent(CodCollectKey(o), Spec.CollectionRow(o, ord));
    }
    if commission > 0 {
      var _ := shard.CreateTransactionIdempotent(CommissionKey(o), Spec.PlatformRow(Commission, o, ord, commission));
    }
    if ord.serviceFee > 0 {
      var _ := shard.CreateTransactionIdempotent(ServiceFeeKey(o),
        Spec.PlatformRow(ServiceFee, o, ord, ord.serviceFee));
    }
    if ord.deliveryFee > 0 {
      var _ := shard.CreateTransactionIdempotent(DeliveryFeeKey(o),
        Spec.PlatformRow(DeliveryFee, o, ord, ord.deliveryFee));
    }
  }

  /* ---- agents ---- */

  /** picked goes through the status UPDATE, delivered through settlement, anything else is refused. */
  method Transition(shard: Shard, o: OrderId, a: AgentId, target: Status, commissionBps: int, shareBps: int,
      commitOk: bool) returns (r: Outcome)
    modifies shard
    ensures r.Ok? ==> shard.Rows() == if target == Delivered
            then Spec.SettleDelivered(old(shard.Rows()), o, a, commissionBps, shareBps)
                                        else Spec.PickUp(old(shard.Rows()), o, a)
    ensures r.Err? ==> shard.Rows() == old(shard.Rows())
    ensures r.Ok? <==> commitOk && o in old(shard.orders) && old(shard.orders)[o].agent == Some(a)
                         && ((target == Delivered && old(shard.orders)[o].status == Picked)
                             || (target == Picked && old(shard.orders)[o].status == Assigned))
    ensures r.Ok? || r.error in {InvalidAgentTransition, OrderNotFound, NotYourTask, OrderNotInAssignedState,
                                 StatusError(InvalidStatusTransition), DatabaseError}
    ensures r == Err(InvalidAgentTransition) <==> target !in {Picked, Delivered}
    ensures target in {Picked, Delivered} ==>
              && (r == Err(OrderNotFound) <==> o !in old(shard.orders))
              && (r == Err(NotYourTask) <==> o in old(shard.orders) && old(shard.orders)[o].agent != Some(a))
    ensures r == Err(OrderNotInAssignedState) <==>
              && target == Picked && o in old(shard.orders) && old(shard.orders)[o].agent == Some(a)
              && old(shard.orders)[o].status != Assigned
    ensures r == Err(StatusError(InvalidStatusTransition)) <==>
              && target == Delivered && o in old(shard.orders) && old(shard.orders)[o].agent == Some(a)
              && old(shard.orders)[o].status != Picked
  {
    if target == Delivered {
      r := SettleDelivered(shard, o, a, commissionBps, shareBps, commitOk);
      return;
    }
    if target != Picked { return Err(InvalidAgentTransition); }
    if o !in shard.orders { return Err(OrderNotFound); }
    if shard.orders[o].agent != Some(a) { return Err(NotYourTask); }
    if shard.orders[o].status != Assigned { return Err(OrderNotInAssignedState); }
    var saved := shard.Rows();
    shard.UpdateOrderStatus(o, Picked, Some(PickedAt));
    if !commitOk {
      shard.Rollback(saved);
      return Err(DatabaseError);
    }
    return Ok;
  }

  /** Refused while the agent carries a picked order; otherwise what it only holds goes back to ready. */
  method GoOffline(shard: Shard, a: AgentId) returns (r: Outcome)
    modifies shard
    ensures r.Ok? || r == Err(OfflineWhilePicked)
    ensures r.Err? <==> exists o | o in old(shard.orders) ::
            old(shard.orders)[o].agent == Some(a) && old(shard.orders)[o].status == Picked
    ensures shard.Rows() == if r.Ok? then Spec.ReleaseAssigned(old(shard.Rows()), a) else old(shard.Rows())
  {
    if exists o | o in shard.orders :: shard.orders[o].agent == Some(a) && shard.orders[o].status == Picked {
      return Err(OfflineWhilePicked);
    }
    shard.ReleaseAssignedOrdersToReady(a);
    return Ok;
  }

  /* ---- payouts ---- */

  predicate Latest(orders: map<OrderId, Order>, among: set<OrderId>, o: OrderId)
    requires among <= orders.Keys
  {
    o in among && forall p | p in among :: orders[p].createdAt <= orders[o].createdAt
  }

  lemma {:induction false} LatestExists(orders: map<OrderId, Order>, among: set<OrderId>) returns (latest: OrderId)
    requires among <= orders.Keys && among != {}
    ensures Latest(orders, among, latest)
  {
    var o :| o in among;
    latest := o;
    if among != {o} {
      var rest := LatestExists(orders, among - {o});
      latest := if orders[o].createdAt <= orders[rest].createdAt then rest else o;
    }
  }

  function OrdersOf(orders: map<OrderId, Order>, r: RestaurantId): set<OrderId> {
    set o | o in orders && orders[o].restaurant == r
  }

  predicate HasOrder(orders: map<OrderId, Order>, r: RestaurantId) {
    exists o | o in orders :: orders[o].restaurant == r
  }

  /** An order of the restaurant that none of its orders is later than. */
  predicate NoneLater(orders: map<OrderId, Order>, r: RestaurantId, o: OrderId)
    requires o in orders
  {
    && orders[o].restaurant == r
    && forall p | p in orders && orders[p].restaurant == r :: orders[p].createdAt <= orders[o].createdAt
  }

  predicate LatestOwner(orders: map<OrderId, Order>, r: RestaurantId, owner: UserId) {
    exists o | o in orders :: NoneLater(orders, r, o) && orders[o].owner == owner
  }

  /** The owner snapshotted on the restaurant's latest order; a tie may go either way. */
  method FindOwnerIdForRestaurant(shard: Shard, r: RestaurantId) returns (owner: Option<UserId>)
    ensures owner.Some? <==> HasOrder(shard.orders, r)
    ensures owner.Some? ==> LatestOwner(shard.orders, r, owner.value)
  {
    var orders, all := shard.orders, OrdersOf(shard.orders, r);
    assert forall o | o in orders && orders[o].restaurant == r :: o in all;
    if all == {} { return None; }
    ghost var some := LatestExists(orders, all);
    var o :| o in all && Latest(orders, all, o);
    assert Latest(orders, all, o) && NoneLater(orders, r, o);
    return Some(orders[o].owner);
  }

  /** Decrement and ledger row together, or neither: a refused payout leaves every row as it was. */
  method RecordPayout(shard: Shard, account: Account, amount: nat, key: LedgerKey, commitOk: bool)
      returns (r: Outcome, owner: Option<UserId>)
    requires amount > 0
    modifies shard
    ensures r.Ok? || r.error in {RestaurantNotFound, InsufficientBalance, DatabaseError}
    ensures shard.Rows() == if r.Ok? then Spec.RecordPayout(old(shard.Rows()), account, amount, key, owner)
            else old(shard.Rows())
    ensures owner.Some? <==> HasOrder(old(shard.orders), account.restaurant)
    ensures r == Err(RestaurantNotFound) <==> owner.None?
    ensures r == Err(InsufficientBalance)
            <==> owner.Some? && !(account in old(shard.balances) && old(shard.balances)[account] >= amount)
    ensures r == Err(DatabaseError) <==>
              && owner.Some? && account in old(shard.balances) && old(shard.balances)[account] >= amount
              && (key in old(shard.ledger) || !commitOk)
    ensures owner.Some? ==> LatestOwner(old(shard.orders), account.restaurant, owner.value)
  {
    owner := FindOwnerIdForRestaurant(shard, account.restaurant);
    if owner.None? { return Err(RestaurantNotFound), owner; }
    var saved := shard.Rows();
    var decremented := shard.DecrementIfSufficient(account, amount);
    if !decremented {
      shard.Rollback(saved);
      return Err(InsufficientBalance), owner;
    }
    var inserted := shard.CreateTransaction(key, Spec.PayoutRow(account, amount, owner.value));
    if !inserted || !commitOk {
      shard.Rollback(saved);
      return Err(DatabaseError), owner;
    }
    shard.payouts := shard.payouts + [Payout(account, amount, key)];
    return Ok, owner;
  }

  /* ---- provider webhook ---- */

  /**
   A delivery is recorded first and reconciled only when that row is new; a failed reconcile rolls back its
   own writes and leaves the row behind, marked with the error.
   */
  method ProcessKashierWebhook(shard: Shard, txn: TxnId, d: Delivery, commitOk: bool) returns (r: Outcome)
    modifies shard
    ensures txn in old(shard.webhookEvents) ==> r.Ok? && shard.Rows() == old(shard.Rows())
    ensures txn !in old(shard.webhookEvents) ==>
              var recorded := Spec.RecordWebhook(old(shard.Rows()), txn, d);
              shard.Rows() == Spec.Reconcile(recorded, txn, commitOk)
    ensures r.Ok? || r == Err(ReconcileFailed)
    ensures r.Err? <==>
              && txn !in old(shard.webhookEvents) && d.isPay && d.order in old(shard.orders)
              && Effects.HasOpen(old(shard.sessions), d.order) && (KashierKey(txn) in old(shard.ledger) || !commitOk)
  {
    var recorded := shard.RecordWebhookOrSkip(txn);
    if !recorded { return Ok; }
    shard.reconciling := shard.reconciling[txn := d];
    r := Reconcile(shard, d, txn, commitOk);
    shard.MarkWebhookProcessed(txn, r.Err?);
    shard.reconciling := shard.reconciling - {txn};
  }

  predicate OnlyBooks(before: Spec.Db, after: Spec.Db) {
    after == before.(orders := after.orders, sessions := after.sessions, ledger := after.ledger, outbox := after.outbox)
  }

  /** Session, charge row, event, and for a captured pending order its placement and second event. */
  method Reconcile(shard: Shard, d: Delivery, txn: TxnId, commitOk: bool) returns (r: Outcome)
    modifies shard
    ensures OnlyBooks(old(shard.Rows()), shard.Rows())
    ensures var v := Spec.ReconcileVerdict(old(shard.Rows()), d, txn, commitOk);
            && (!v.Booked? ==> shard.Rows() == old(shard.Rows()))
            && (v.Booked? ==>
                  var ord, s := old(shard.orders)[d.order], old(shard.sessions)[v.session];
                  var places := d.success && ord.status == PendingPayment;
                  && shard.sessions == old(shard.sessions)[v.session := Spec.ClosedSession(s, d.success)]
                  && shard.ledger == old(shard.ledger)[KashierKey(txn) := Spec.ChargeRow(d.order, ord, s, d.success)]
                  && shard.outbox == old(shard.outbox) + Spec.ReconcileEvents(d.order, txn, d.success, places)
                  && shard.orders == if places
                                     then old(shard.orders)[d.order := Spec.WithStatus(ord, Placed, None, shard.now)]
                                     else old(shard.orders))
    ensures r.Ok? || r == Err(ReconcileFailed)
    ensures r.Err? <==>
              && d.isPay && d.order in old(shard.orders)
              && Effects.HasOpen(old(shard.sessions), d.order) && (KashierKey(txn) in old(shard.ledger) || !commitOk)
  {
    Effects.OpenFound(shard.sessions, d.order);
    if !d.isPay || d.order !in shard.orders { return Ok; }
    var ord := shard.orders[d.order];
    var active := shard.FindActiveSession(d.order);
    if active.None? { return Ok; }
    var s := shard.sessions[active.value];
    var saved := shard.Rows();
    shard.UpdateSession(active.value, if d.success then Captured else SessionFailed);
    var inserted := shard.CreateTransaction(KashierKey(txn), Spec.ChargeRow(d.order, ord, s, d.success));
    if !inserted {
      shard.Rollback(saved);
      return Err(ReconcileFailed);
    }
    BookOutcome(shard, d, txn, ord.status == PendingPayment);
    if !commitOk {
      shard.Rollback(saved);
      return Err(ReconcileFailed);
    }
    return Ok;
  }

  /** The events of a booked delivery, and the placement of an order it pays for. */
  method BookOutcome(shard: Shard, d: Delivery, txn: TxnId, pending: bool)
    requires d.order in shard.orders
    modifies shard`orders, shard`outbox
    ensures shard.outbox == old(shard.outbox) + Spec.ReconcileEvents(d.order, txn, d.success, d.success && pending)
    ensures shard.orders == if d.success && pending
                            then old(shard.orders)[d.order :=
                                   Spec.WithStatus(old(shard.orders)[d.order], Placed, None, shard.now)]
                            else old(shard.orders)
  {
    if d.success {
      shard.InsertOutboxEvent(PaymentCompleted(d.order, txn));
      if pending {
        shard.UpdateOrderStatus(d.order, Placed, None);
        shard.InsertOutboxEvent(OrderPlaced(d.order));
      }
    } else {
      shard.InsertOutboxEvent(PaymentFailed(d.order, txn));
    }
  }

  /* ---- placement ---- */

  /** How the calls after an online placement went, in the terms of the run. */
  function InitResult(providerOk: bool, voidOk: bool): Spec.InitOutcome {
    if providerOk then Spec.SessionCreated else if voidOk then Spec.InitFailed else Spec.InitAndVoidFailed
  }

  /** Stock first, then the order and its event in one transaction, then the payment session; what fails is undone. */
  method ReserveAndStore(shard: Shard, o: OrderId, d: Spec.Draft, commitOk: bool, providerOk: bool, voidOk: bool)
      returns (r: Outcome)
    requires o !in shard.orders && o !in shard.reserved
    modifies shard
    ensures var placed := Spec.PlaceOrder(old(shard.Rows()), o, d, commitOk);
            shard.Rows() == if commitOk && d.payment == Online
              then Spec.InitPayment(placed, o, InitResult(providerOk, voidOk)) else placed
    ensures r.Ok? || r.error in {DatabaseError, PaymentProviderUnavailable}
    ensures r == Err(DatabaseError) <==> !commitOk
    ensures r == Err(PaymentProviderUnavailable) <==>
              commitOk && d.payment == Online && !providerOk && !Effects.HasOpen(old(shard.sessions), o)
    ensures shard.reserved == old(shard.reserved)[o := d.lines]
    ensures if r.Ok? then shard.releases == old(shard.releases)
            else Effects.OneMoreRelease(old(shard.releases), shard.releases, o)
    ensures r == Err(PaymentProviderUnavailable) ==>
              o in shard.orders && shard.orders[o].status == if voidOk then Cancelled else PendingPayment
  {
    shard.ReserveStock(o, d.lines);
    var saved := shard.Rows();
    WriteOrder(shard, o, d);
    if !commitOk {
      shard.Rollback(saved);
      shard.ReleaseStock(o);
      return Err(DatabaseError);
    }
    if d.payment == Online {
      r := StartPayment(shard, o, providerOk, voidOk);
      return;
    }
    return Ok;
  }

  /** The subtotal is the line totals added up. */
  method SumMinor(lines: seq<Line>) returns (total: nat)
    ensures total == Spec.LinesTotal(lines)
  {
    total := 0;
    for i := 0 to |lines|
      invariant total == Spec.LinesTotal(lines[..i])
    {
      assert lines[..i + 1][..i] == lines[..i];
      total := total + lines[i].unitPrice * lines[i].quantity;
    }
    assert lines[..|lines|] == lines;
  }

  method WriteOrder(shard: Shard, o: OrderId, d: Spec.Draft)
    modifies shard`orders, shard`outbox, shard`awaitingInit
    ensures shard.orders == old(shard.orders)[o := Spec.NewOrder(d, shard.now)]
    ensures shard.outbox == if d.payment == Cod then old(shard.outbox) + [OrderPlaced(o)] else old(shard.outbox)
    ensures shard.awaitingInit == if d.payment == Online then old(shard.awaitingInit) + {o} else old(shard.awaitingInit)
  {
    var subtotal := SumMinor(d.lines);
    var total := subtotal + d.deliveryFee + Spec.SERVICE_FEE_MINOR;
    var status := if d.payment == Online then PendingPayment else Placed;
    shard.orders := shard.orders[o := Order(d.restaurant, d.owner, d.branch, d.customer, d.payment, d.currency,
      subtotal, d.deliveryFee, Spec.SERVICE_FEE_MINOR, total, 0, status, None, shard.now, map[])];
    if shard.orders[o].status == Placed {
      shard.InsertOutboxEvent(OrderPlaced(o));
    } else {
      shard.awaitingInit := shard.awaitingInit + {o};
    }
  }

  /** When no session can be opened the order is voided, if that commits, and its stock released. */
  method StartPayment(shard: Shard, o: OrderId, providerOk: bool, voidOk: bool) returns (r: Outcome)
    requires o in shard.orders && o in shard.awaitingInit
    modifies shard`orders, shard`sessions, shard`releases, shard`awaitingInit
    ensures shard.Rows() == Spec.InitPayment(old(shard.Rows()), o, InitResult(providerOk, voidOk))
    ensures r.Ok? || r == Err(PaymentProviderUnavailable)
    ensures r.Ok? <==> providerOk || Effects.HasOpen(old(shard.sessions), o)
  {
    Effects.OpenFound(shard.sessions, o);
    r := InitOnlinePayment(shard, o, shard.orders[o], providerOk);
    if r.Err? {
      VoidOrder(shard, o, voidOk);
    }
    shard.awaitingInit := shard.awaitingInit - {o};
  }

  /** A void that fails is swallowed; the stock is released in any case. */
  method VoidOrder(shard: Shard, o: OrderId, voidOk: bool)
    requires o in shard.orders
    modifies shard`orders, shard`releases
    ensures shard.releases == Spec.Bump(old(shard.releases), o)
    ensures shard.orders == if voidOk
                            then old(shard.orders)[o :=
                                   Spec.WithStatus(old(shard.orders)[o], Cancelled, Some(CancelledAt), shard.now)]
                            else old(shard.orders)
  {
    if voidOk {
      shard.UpdateOrderStatus(o, Cancelled, Some(CancelledAt));
    }
    shard.ReleaseStock(o);
  }

  /** A session that is still active is surfaced as it is; otherwise a new one of the order's total is stored. */
  method InitOnlinePayment(shard: Shard, o: OrderId, ord: Order, providerOk: bool) returns (r: Outcome)
    modifies shard`sessions
    ensures r.Ok? || r == Err(PaymentProviderUnavailable)
    ensures r.Ok? <==> providerOk || Effects.HasOpen(old(shard.sessions), o)
    ensures shard.sessions == if providerOk && !Effects.HasOpen(old(shard.sessions), o)
                              then old(shard.sessions) + [Session(o, ord.total, ord.currency, Initialized)]
                              else old(shard.sessions)
  {
    Effects.OpenFound(shard.sessions, o);
    var existing := shard.FindActiveSession(o);
    if existing.Some? { return Ok; }
    if !providerOk { return Err(PaymentProviderUnavailable); }
    shard.CreateSession(Spec.NewSession(o, ord));
    return Ok;
  }

  /* ---- status changes driven by people ---- */

  /** The caller counts as somebody for this order, and as a member with the permission if as a member. */
  predicate Authorised(c: Caller, ord: Order, permitted: bool) {
    var actor := ResolveStatusActor(c, ord);
    actor.Some? && (actor == Some(RestaurantMember) ==> permitted)
  }

  /** The guard asked about the order's own status, times and people. */
  function Guard(c: Caller, ord: Order, target: Status, hasReason: bool, now: Time): TransitionResult
    requires ResolveStatusActor(c, ord).Some?
  {
    AssertTransition(ord.status, target, ResolveStatusActor(c, ord).value, hasReason, ord.createdAt,
      if AcceptedAt in ord.stamps then Some(ord.stamps[AcceptedAt]) else None, now)
  }

  function StatusWritten(db: Spec.Db, o: OrderId, target: Status, stamp: Option<Stamp>): Spec.Db
    requires o in db.orders
  {
    db.(orders := db.orders[o := Spec.WithStatus(db.orders[o], target, stamp, db.now)],
        outbox := db.outbox + Spec.StatusEvent(o, target),
        releases := if (target == Cancelled || target == Rejected) && Spec.ReleaseEligible(db.orders[o].status)
                    then Spec.Bump(db.releases, o) else db.releases)
  }

  lemma StatusRows(db: Spec.Db, o: OrderId, c: Caller, target: Status, hasReason: bool, stamp: Option<Stamp>)
    requires o in db.orders && ResolveStatusActor(c, db.orders[o]).Some?
    requires Guard(c, db.orders[o], target, hasReason, db.now) == Allowed(stamp)
    ensures Spec.UpdateStatus(db, o, c, target, hasReason) == StatusWritten(db, o, target, stamp)
  {
  }

  /** `permitted` is the answer of the restaurant role's permission lookup, asked of restaurant members only. */
  method UpdateStatus(shard: Shard, o: OrderId, c: Caller, target: Status, hasReason: bool, permitted: bool,
      commitOk: bool)
    returns (r: Outcome)
    modifies shard
    ensures shard.Rows() == if r.Ok? then Spec.UpdateStatus(old(shard.Rows()), o, c, target, hasReason)
            else old(shard.Rows())
    ensures r == Err(OrderNotFound) <==> o !in old(shard.orders)
    ensures o in old(shard.orders) ==>
              var ord := old(shard.orders)[o];
              && (r == Err(UnAuthorised) <==> !Authorised(c, ord, permitted))
              && (Authorised(c, ord, permitted) ==>
                    match Guard(c, ord, target, hasReason, shard.now)
                    case Refused(e) => r == Err(StatusError(e))
                    case Allowed(_) => r == if commitOk then Ok else Err(DatabaseError))
  {
    var refused, stamp := CheckStatus(shard, o, c, target, hasReason, permitted);
    if refused.Err? { return refused; }
    StatusRows(shard.Rows(), o, c, target, hasReason, stamp);
    r := CommitStatus(shard, o, target, stamp, commitOk);
  }

  /** The row and its event in one transaction, and once that has committed the stock. */
  method CommitStatus(shard: Shard, o: OrderId, target: Status, stamp: Option<Stamp>, commitOk: bool)
    returns (r: Outcome)
    requires o in shard.orders
    modifies shard
    ensures r == if commitOk then Ok else Err(DatabaseError)
    ensures shard.Rows() == if commitOk then StatusWritten(old(shard.Rows()), o, target, stamp) else old(shard.Rows())
  {
    var saved, from := shard.Rows(), shard.orders[o].status;
    WriteStatus(shard, o, target, stamp);
    if !commitOk {
      shard.Rollback(saved);
      return Err(DatabaseError);
    }
    GiveBackStock(shard, o, target, from);
    return Ok;
  }

  /** The stock of an order that ends before the kitchen has started on it is released. */
  method GiveBackStock(shard: Shard, o: OrderId, target: Status, from: Status)
    modifies shard`releases
    ensures shard.releases == if (target == Cancelled || target == Rejected) && Spec.ReleaseEligible(from)
                              then Spec.Bump(old(shard.releases), o) else old(shard.releases)
  {
    if (target == Cancelled || target == Rejected) && Spec.ReleaseEligible(from) {
      shard.ReleaseStock(o);
    }
  }

  /** Everything that may refuse a status change, in the order it is asked, and the stamp column when nothing does. */
  method CheckStatus(shard: Shard, o: OrderId, c: Caller, target: Status, hasReason: bool, permitted: bool)
    returns (r: Outcome, stamp: Option<Stamp>)
    ensures r == Err(OrderNotFound) <==> o !in shard.orders
    ensures o in shard.orders ==>
              var ord := shard.orders[o];
              && (r == Err(UnAuthorised) <==> !Authorised(c, ord, permitted))
              && (Authorised(c, ord, permitted) ==>
                    match Guard(c, ord, target, hasReason, shard.now)
                    case Refused(e) => r == Err(StatusError(e))
                    case Allowed(s) => r == Ok && stamp == s)
  {
    if o !in shard.orders { return Err(OrderNotFound), None; }
    var ord := shard.orders[o];
    var actor := ResolveStatusActor(c, ord);
    if actor.None? { return Err(UnAuthorised), None; }
    if actor.value == RestaurantMember && !permitted { return Err(UnAuthorised), None; }
    var check := AssertTransition(ord.status, target, actor.value, hasReason, ord.createdAt,
      Spec.StampOf(ord, AcceptedAt), shard.now);
    if check.Refused? { return Err(StatusError(check.error)), None; }
    return Ok, check.stamp;
  }

  method WriteStatus(shard: Shard, o: OrderId, target: Status, stamp: Option<Stamp>)
    requires o in shard.orders
    modifies shard`orders, shard`outbox
    ensures shard.orders == old(shard.orders)[o := Spec.WithStatus(old(shard.orders)[o], target, stamp, shard.now)]
    ensures shard.outbox == old(shard.outbox) + Spec.StatusEvent(o, target)
  {
    shard.UpdateOrderStatus(o, target, stamp);
    if target == Accepted {
      shard.InsertOutboxEvent(OrderAccepted(o));
    } else if target == Rejected {
      shard.InsertOutboxEvent(OrderRejected(o));
    } else if target == Cancelled {
      shard.InsertOutboxEvent(OrderCancelled(o));
    }
  }
}
