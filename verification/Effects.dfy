/**
 What each transaction of the shard writes, column by column: its rows, amounts, stamps, events and calls, in
 the terms of the tables alone. Everything else the run theorems say is about the same functions.
 */
module Effects {
  import opened Types
  import opened OrderStatus
  import opened ShardState

  /** A session the provider may still close. */
  predicate Open(s: Session, o: OrderId) {
    s.order == o && (s.status == Initialized || s.status == AwaitingPayer)
  }

  /** The session a delivery for the order is about: the open one with the highest id. */
  predicate LatestOpen(sessions: seq<Session>, o: OrderId, i: nat) {
    && i < |sessions| && Open(sessions[i], o)
    && forall j | i < j < |sessions| :: !Open(sessions[j], o)
  }

  predicate HasOpen(sessions: seq<Session>, o: OrderId) {
    exists i | 0 <= i < |sessions| :: Open(sessions[i], o)
  }

  lemma FindsLatestOpen(sessions: seq<Session>, o: OrderId)
    ensures FindActive(sessions, o).Some? <==> HasOpen(sessions, o)
    ensures forall i: nat :: LatestOpen(sessions, o, i) <==> FindActive(sessions, o) == Some(i)
  {
    var found := FindActive(sessions, o);
    forall s: Session ensures Open(s, o) <==> s.order == o && Active(s) {}
    forall i: nat ensures LatestOpen(sessions, o, i) <==> found == Some(i) {
      if LatestOpen(sessions, o, i) {
        assert Open(sessions[i], o) && found.Some? && Open(sessions[found.value], o);
      }
    }
    if found.Some? { assert Open(sessions[found.value], o); }
  }

  lemma OpenFound(sessions: seq<Session>, o: OrderId)
    ensures FindActive(sessions, o).Some? <==> HasOpen(sessions, o)
  {
    FindsLatestOpen(sessions, o);
  }

  /** The release calls counted under a key. */
  predicate OneMoreRelease(before: map<OrderId, nat>, after: map<OrderId, nat>, o: OrderId) {
    && o in after && after[o] == (if o in before then before[o] else 0) + 1
    && after == before[o := after[o]]
  }

  /* ---- placement and its payment session ---- */

  /** The sum of a list of lines is the sum of its parts, and of one line its price times its quantity. */
  lemma {:induction false} LinesAddUp(xs: seq<Line>, ys: seq<Line>)
    ensures LinesTotal([]) == 0 && LinesTotal(xs + ys) == LinesTotal(xs) + LinesTotal(ys)
    ensures forall l: Line :: LinesTotal([l]) == l.unitPrice * l.quantity
  {
    forall l: Line ensures LinesTotal([l]) == l.unitPrice * l.quantity {
      assert [l][..0] == [];
    }
    if ys == [] {
      assert xs + ys == xs;
    } else {
      LinesAddUp(xs, ys[..|ys| - 1]);
      assert (xs + ys)[..|xs + ys| - 1] == xs + ys[..|ys| - 1];
    }
  }

  /** The row of a new order. */
  predicate FreshRow(d: Draft, ord: Order, now: Time) {
    && ord.restaurant == d.restaurant && ord.owner == d.owner && ord.branch == d.branch && ord.customer == d.customer
    && ord.payment == d.payment && ord.currency == d.currency
    && ord.subtotal == LinesTotal(d.lines) && ord.deliveryFee == d.deliveryFee && ord.serviceFee == 1000
    && ord.total == ord.subtotal + ord.deliveryFee + 1000 && ord.commission == 0
    && ord.status == (if d.payment == Online then PendingPayment else Placed)
    && ord.agent == None && ord.createdAt == now && ord.stamps == map[]
  }

  lemma PlacementWrites(db: Db, o: OrderId, d: Draft)
    requires o !in db.orders && o !in db.reserved
    ensures var after := Apply(db, OpPlace(o, d, true));
            && o in after.orders && FreshRow(d, after.orders[o], db.now)
            && after == db.(orders := db.orders[o := after.orders[o]], reserved := db.reserved[o := d.lines],
                            awaitingInit := db.awaitingInit + (if d.payment == Online then {o} else {}),
                            outbox := db.outbox + (if d.payment == Cod then [OrderPlaced(o)] else []))
  {
    assert db.outbox + [] == db.outbox && db.awaitingInit + {} == db.awaitingInit;
  }

  /** A placement whose transaction fails leaves the reservation and its release. */
  lemma FailedPlacementWrites(db: Db, o: OrderId, d: Draft)
    requires o !in db.orders && o !in db.reserved
    ensures var after := Apply(db, OpPlace(o, d, false));
            && OneMoreRelease(db.releases, after.releases, o)
            && after == db.(reserved := db.reserved[o := d.lines], releases := after.releases)
  {
  }

  lemma SessionOpens(db: Db, o: OrderId)
    requires o in db.awaitingInit && o in db.orders && !HasOpen(db.sessions, o)
    ensures Apply(db, OpInitPayment(o, SessionCreated))
            == db.(awaitingInit := db.awaitingInit - {o},
                   sessions := db.sessions + [Session(o, db.orders[o].total, db.orders[o].currency, Initialized)])
  {
    FindsLatestOpen(db.sessions, o);
  }

  /** A session that is still open is used again, whatever the provider would say. */
  lemma SessionReused(db: Db, o: OrderId, outcome: InitOutcome)
    requires o in db.awaitingInit && o in db.orders && HasOpen(db.sessions, o)
    ensures Apply(db, OpInitPayment(o, outcome)) == db.(awaitingInit := db.awaitingInit - {o})
  {
    FindsLatestOpen(db.sessions, o);
  }

  /** A session that cannot be opened: the order is cancelled if the void commits, and its stock released. */
  lemma SessionFails(db: Db, o: OrderId, voidOk: bool)
    requires o in db.awaitingInit && o in db.orders && !HasOpen(db.sessions, o)
    ensures var ord := db.orders[o];
            var after := Apply(db, OpInitPayment(o, if voidOk then InitFailed else InitAndVoidFailed));
            && OneMoreRelease(db.releases, after.releases, o)
            && after == db.(awaitingInit := db.awaitingInit - {o}, releases := after.releases,
                            orders := if voidOk
                                      then db.orders[o := ord.(status := Cancelled,
                                                               stamps := ord.stamps[CancelledAt := db.now])]
                                      else db.orders)
  {
    FindsLatestOpen(db.sessions, o);
  }

  /* ---- the provider's webhook ---- */

  lemma DeliveryRecorded(db: Db, txn: TxnId, d: Delivery)
    ensures var after := Apply(db, OpRecordWebhook(txn, d));
            if txn in db.webhookEvents then after == db
            else after == db.(webhookEvents := db.webhookEvents[txn := WebhookRow(false, false)],
                              reconciling := db.reconciling[txn := d])
  {
  }

  /** The events of a delivery that is booked: what became of the payment, and the placement it brings about. */
  function EventsOf(o: OrderId, txn: TxnId, success: bool, pending: bool): seq<Event> {
    if !success then [PaymentFailed(o, txn)]
    else [PaymentCompleted(o, txn)] + (if pending then [OrderPlaced(o)] else [])
  }

  /**
   A pay event of a known order with an open session, under a new key, whose transaction commits, is booked
   whatever its status: the session is closed, the charge recorded, succeeded or failed, and an order that was
   waiting for a successful payment is placed.
   */
  lemma DeliveryBooked(db: Db, txn: TxnId, i: nat)
    requires txn in db.reconciling && KashierKey(txn) !in db.ledger
    requires var d := db.reconciling[txn]; d.isPay && d.order in db.orders && LatestOpen(db.sessions, d.order, i)
    ensures var d, after := db.reconciling[txn], Apply(db, OpReconcile(txn, true));
            var ord, s := db.orders[d.order], db.sessions[i];
            after == db.(
              reconciling := db.reconciling - {txn},
              webhookEvents := db.webhookEvents[txn := WebhookRow(true, false)],
              sessions := db.sessions[i := s.(status := if d.success then Captured else SessionFailed)],
              ledger := db.ledger[KashierKey(txn) :=
                Tx(Charge, Some(d.order), if d.success then Succeeded else Failed, s.amount, s.currency,
                   Some(ord.customer), if d.success then Some(ord.owner) else None)],
              orders := if d.success && ord.status == PendingPayment
                        then db.orders[d.order := ord.(status := Placed)] else db.orders,
              outbox := db.outbox + EventsOf(d.order, txn, d.success, ord.status == PendingPayment))
  {
    FindsLatestOpen(db.sessions, db.reconciling[txn].order);
  }

  /** Anything else books nothing; only a pay event that finds its session and then fails is marked with an error. */
  lemma DeliveryNotBooked(db: Db, txn: TxnId, commitOk: bool)
    requires txn in db.reconciling
    requires var d := db.reconciling[txn];
             !(d.isPay && d.order in db.orders && HasOpen(db.sessions, d.order)
               && KashierKey(txn) !in db.ledger && commitOk)
    ensures var d := db.reconciling[txn];
            var failed := d.isPay && d.order in db.orders && HasOpen(db.sessions, d.order);
            Apply(db, OpReconcile(txn, commitOk))
            == db.(reconciling := db.reconciling - {txn},
                   webhookEvents := db.webhookEvents[txn := WebhookRow(true, failed)])
  {
    FindsLatestOpen(db.sessions, db.reconciling[txn].order);
  }

  /** A process that dies leaves the delivery's row as it was recorded. */
  lemma DyingWritesNothing(db: Db, txn: TxnId)
    ensures Apply(db, OpCrashReconcile(txn)) == db.(reconciling := db.reconciling - {txn})
  {
  }

  /* ---- status changes ---- */

  /** The column a status change stamps. */
  function ColumnOf(target: Status): Option<Stamp> {
    match target
    case Accepted => Some(AcceptedAt)
    case Rejected => Some(RejectedAt)
    case Ready => Some(ReadyAt)
    case Assigned => Some(AssignedAt)
    case Picked => Some(PickedAt)
    case Delivered => Some(DeliveredAt)
    case Cancelled => Some(CancelledAt)
    case _ => None
  }

  function EventOf(o: OrderId, target: Status): seq<Event> {
    match target
    case Accepted => [OrderAccepted(o)]
    case Rejected => [OrderRejected(o)]
    case Cancelled => [OrderCancelled(o)]
    case _ => []
  }

  /** The guard asks about the order's own status, times and people. */
  predicate Permitted(db: Db, o: OrderId, c: Caller, target: Status, hasReason: bool) {
    && o in db.orders
    && var ord := db.orders[o];
    && ResolveStatusActor(c, ord).Some?
    && AssertTransition(ord.status, target, ResolveStatusActor(c, ord).value, hasReason, ord.createdAt,
                        if AcceptedAt in ord.stamps then Some(ord.stamps[AcceptedAt]) else None, db.now).Allowed?
  }

  lemma EveryEdgeStamps(from: Status, to: Status)
    requires IsEdge(from, to)
    ensures TransitionRule(from, to).value.stamp == ColumnOf(to)
  {
  }

  lemma PermittedStamp(db: Db, o: OrderId, c: Caller, target: Status, hasReason: bool)
    requires Permitted(db, o, c, target, hasReason)
    ensures StatusCheck(db, o, c, target, hasReason) == Allowed(ColumnOf(target))
  {
    assert IsEdge(db.orders[o].status, target);
    EveryEdgeStamps(db.orders[o].status, target);
  }

  /** The order's new status and stamp, its event, and a release call if it ends before the kitchen started. */
  predicate StatusWritten(db: Db, after: Db, o: OrderId, target: Status)
    requires o in db.orders
  {
    var ord, column := db.orders[o], ColumnOf(target);
    var releases := target in {Cancelled, Rejected} && ord.status in {PendingPayment, Placed, Accepted};
    && (if releases then OneMoreRelease(db.releases, after.releases, o) else after.releases == db.releases)
    && after == db.(orders := db.orders[o := ord.(status := target,
                      stamps := if column.Some? then ord.stamps[column.value := db.now] else ord.stamps)],
                    outbox := db.outbox + EventOf(o, target), releases := after.releases)
  }

  lemma StatusWrites(db: Db, o: OrderId, c: Caller, target: Status, hasReason: bool)
    requires Permitted(db, o, c, target, hasReason)
    ensures StatusWritten(db, Apply(db, OpUpdateStatus(o, c, target, hasReason)), o, target)
  {
    PermittedStamp(db, o, c, target, hasReason);
    AllowedWrites(db, o, c, target, hasReason);
  }

  lemma AllowedWrites(db: Db, o: OrderId, c: Caller, target: Status, hasReason: bool)
    requires o in db.orders && StatusCheck(db, o, c, target, hasReason) == Allowed(ColumnOf(target))
    ensures StatusWritten(db, UpdateStatus(db, o, c, target, hasReason), o, target)
  {
  }

  lemma RefusedStatusWritesNothing(db: Db, o: OrderId, c: Caller, target: Status, hasReason: bool)
    requires !Permitted(db, o, c, target, hasReason)
    ensures Apply(db, OpUpdateStatus(o, c, target, hasReason)) == db
  {
  }

  /* ---- delivery ---- */

  lemma ClaimWrites(db: Db, o: OrderId, a: AgentId)
    ensures var after := Apply(db, OpClaim(o, a));
            if o in db.orders && db.orders[o].status == Ready && db.orders[o].agent == None
            then var ord := db.orders[o];
                 after == db.(orders := db.orders[o := ord.(status := Assigned, agent := Some(a),
                                                            stamps := ord.stamps[AssignedAt := db.now])])
            else after == db
  {
  }

  /** Every order the agent is only assigned to is ready again, and no other order is touched. */
  lemma ReleaseWrites(db: Db, a: AgentId)
    ensures var after := Apply(db, OpRelease(a));
            && after == db.(orders := after.orders) && after.orders.Keys == db.orders.Keys
            && forall o | o in db.orders ::
                 var ord := db.orders[o];
                 after.orders[o] == if ord.agent == Some(a) && ord.status == Assigned
                                    then ord.(status := Ready, agent := None, stamps := ord.stamps - {AssignedAt})
                                    else ord
  {
  }

  lemma PickUpWrites(db: Db, o: OrderId, a: AgentId)
    ensures var after := Apply(db, OpPickUp(o, a));
            if o in db.orders && db.orders[o].agent == Some(a) && db.orders[o].status == Assigned
            then var ord := db.orders[o];
                 after == db.(orders := db.orders[o := ord.(status := Picked,
                                                            stamps := ord.stamps[PickedAt := db.now])])
            else after == db
  {
  }

  /* ---- settlement ---- */

  /** The whole number of minor units in `amount` at so many basis points. */
  predicate ShareOf(share: int, amount: nat, bps: int) {
    share * 10000 <= amount * bps < (share + 1) * 10000
  }

  lemma FloorIsShare(amount: nat, bps: int)
    ensures ShareOf(amount * bps / 10000, amount, bps)
  {
  }

  predicate PickedBy(db: Db, o: OrderId, a: AgentId) {
    o in db.orders && db.orders[o].agent == Some(a) && db.orders[o].status == Picked
  }

  /** The order is delivered with the commission its rate makes; the event carries it. */
  lemma SettlementDelivers(db: Db, o: OrderId, a: AgentId, bps: int, share: int)
    requires PickedBy(db, o, a)
    ensures var after, ord := Apply(db, OpSettle(o, a, bps, share)), db.orders[o];
            && o in after.orders
            && var c := after.orders[o].commission;
            && ShareOf(c, ord.subtotal, bps)
            && after == db.(orders := db.orders[o := ord.(commission := c, status := Delivered,
                                                          stamps := ord.stamps[DeliveredAt := db.now])],
                            outbox := db.outbox + [OrderDelivered(o, c)],
                            ledger := after.ledger, balances := after.balances, earnings := after.earnings)
  {
    FloorIsShare(db.orders[o].subtotal, bps);
  }

  /** The restaurant's account moves by what the commission leaves, and no other account moves. */
  lemma SettlementPaysRestaurant(db: Db, o: OrderId, a: AgentId, bps: int, share: int)
    requires PickedBy(db, o, a)
    ensures var after, ord := Apply(db, OpSettle(o, a, bps, share)), db.orders[o];
            var account, net := Account(ord.restaurant, ord.currency), ord.subtotal - after.orders[o].commission;
            && (account in db.balances ==>
                  account in after.balances && after.balances[account] == db.balances[account] + net)
            && (account !in db.balances ==>
                  if net == 0 then account !in after.balances
                  else account in after.balances && after.balances[account] == net)
            && forall b: Account | b != account ::
                 && (b in after.balances <==> b in db.balances)
                 && (b in db.balances ==> after.balances[b] == db.balances[b])
  {
    FloorIsShare(db.orders[o].subtotal, bps);
  }

  /** The agent earns its share of the delivery fee, once per order. */
  lemma SettlementPaysAgent(db: Db, o: OrderId, a: AgentId, bps: int, share: int)
    requires PickedBy(db, o, a)
    ensures var after, ord := Apply(db, OpSettle(o, a, bps, share)), db.orders[o];
            if o in db.earnings then after.earnings == db.earnings
            else
              && o in after.earnings && after.earnings == db.earnings[o := after.earnings[o]]
              && after.earnings[o].agent == a && after.earnings[o].currency == ord.currency
              && ShareOf(after.earnings[o].amount, ord.deliveryFee, share)
  {
    FloorIsShare(db.orders[o].deliveryFee, share);
  }

  /** A row of the order that a settlement writes unless its key is taken: from the owner to the platform. */
  predicate PlatformRowAt(before: map<LedgerKey, Tx>, after: map<LedgerKey, Tx>, k: LedgerKey, kind: TxType,
      o: OrderId, ord: Order, amount: int)
  {
    if k in before || amount <= 0 then k in after <==> k in before
    else k in after && after[k] == Tx(kind, Some(o), Succeeded, amount, ord.currency, Some(ord.owner), None)
  }

  /** The commission and the two fees, each from the owner to the platform. */
  lemma SettlementBooksFees(db: Db, o: OrderId, a: AgentId, bps: int, share: int)
    requires PickedBy(db, o, a)
    ensures var after, ord := Apply(db, OpSettle(o, a, bps, share)), db.orders[o];
            && PlatformRowAt(db.ledger, after.ledger, CommissionKey(o), Commission, o, ord, after.orders[o].commission)
            && PlatformRowAt(db.ledger, after.ledger, ServiceFeeKey(o), ServiceFee, o, ord, ord.serviceFee)
            && PlatformRowAt(db.ledger, after.ledger, DeliveryFeeKey(o), DeliveryFee, o, ord, ord.deliveryFee)
  {
    LedgerHasFees(db.ledger, o, db.orders[o], CommissionFor(db.orders[o].subtotal, bps));
  }

  lemma LedgerHasFees(ledger: map<LedgerKey, Tx>, o: OrderId, ord: Order, commission: int)
    ensures var after := SettledLedger(ledger, o, ord, commission);
            && PlatformRowAt(ledger, after, CommissionKey(o), Commission, o, ord, commission)
            && PlatformRowAt(ledger, after, ServiceFeeKey(o), ServiceFee, o, ord, ord.serviceFee)
            && PlatformRowAt(ledger, after, DeliveryFeeKey(o), DeliveryFee, o, ord, ord.deliveryFee)
  {
  }

  /** The cash the agent collected, from the customer to the owner; an online order was charged before. */
  predicate CashRowAt(before: map<LedgerKey, Tx>, after: map<LedgerKey, Tx>, o: OrderId, ord: Order) {
    var k := CodCollectKey(o);
    if k in before || ord.payment == Online then k in after <==> k in before
    else
      && k in after
      && after[k] == Tx(CodCollection, Some(o), Succeeded, ord.total, ord.currency, Some(ord.customer), Some(ord.owner))
  }

  /** The cash row; rows that were there stay as they were, and no other row comes in. */
  lemma SettlementBooksCash(db: Db, o: OrderId, a: AgentId, bps: int, share: int)
    requires PickedBy(db, o, a)
    ensures var l, m := db.ledger, Apply(db, OpSettle(o, a, bps, share)).ledger;
            && CashRowAt(l, m, o, db.orders[o])
            && (forall k | k in l :: k in m && m[k] == l[k])
            && (forall k | k in m && k !in l ::
                  k in {CodCollectKey(o), CommissionKey(o), ServiceFeeKey(o), DeliveryFeeKey(o)})
  {
    LedgerHasCash(db.ledger, o, db.orders[o], CommissionFor(db.orders[o].subtotal, bps));
  }

  lemma LedgerHasCash(ledger: map<LedgerKey, Tx>, o: OrderId, ord: Order, commission: int)
    ensures var m := SettledLedger(ledger, o, ord, commission);
            && CashRowAt(ledger, m, o, ord)
            && (forall k | k in ledger :: k in m && m[k] == ledger[k])
            && (forall k | k in m && k !in ledger ::
                  k in {CodCollectKey(o), CommissionKey(o), ServiceFeeKey(o), DeliveryFeeKey(o)})
  {
  }

  lemma UnsettledWritesNothing(db: Db, o: OrderId, a: AgentId, bps: int, share: int)
    requires !PickedBy(db, o, a)
    ensures Apply(db, OpSettle(o, a, bps, share)) == db
  {
  }

  /* ---- payouts ---- */

  lemma PayoutWrites(db: Db, account: Account, amount: nat, key: LedgerKey, owner: UserId)
    ensures var after := Apply(db, OpPayout(account, amount, key, Some(owner)));
            if amount > 0 && account in db.balances && db.balances[account] >= amount && key !in db.ledger
            then after == db.(
                   balances := db.balances[account := db.balances[account] - amount],
                   ledger := db.ledger[key :=
                     Tx(PayoutTx, None, Succeeded, amount, account.currency, None, Some(owner))],
                   payouts := db.payouts + [Payout(account, amount, key)])
            else after == db
  {
  }

  lemma NoOwnerNoPayout(db: Db, account: Account, amount: nat, key: LedgerKey)
    ensures Apply(db, OpPayout(account, amount, key, None)) == db
  {
  }
}
