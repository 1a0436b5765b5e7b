/**
 One region's shard, and what each committed database transaction does to it.

 Every operation is given as the state it leaves behind; a refused operation leaves the state it
 found. The check and the write of a service call are one step, except where the source puts the
 guard inside the statement itself. `Run` interleaves these steps in any order.
 */
module ShardState {
  import opened Types
  import opened OrderStatus

  /** Paid to the platform on every order, in minor units. */
  const SERVICE_FEE_MINOR: nat := 1000

  datatype Db = Db(
    now: Time,
    orders: map<OrderId, Order>,
    awaitingInit: set<OrderId>,            // placeOrder calls between the commit and the payment session
    sessions: seq<Session>,
    webhookEvents: map<TxnId, WebhookRow>,
    reconciling: map<TxnId, Delivery>,     // deliveries recorded and not yet reconciled
    ledger: map<LedgerKey, Tx>,
    balances: map<Account, int>,
    earnings: map<OrderId, Earning>,
    outbox: seq<Event>,
    reserved: map<OrderId, seq<Line>>,     // reserve-stock calls, by their idempotency key
    releases: map<OrderId, nat>,           // number of release-stock calls, by the same key
    payouts: seq<Payout>)                  // accepted payouts, oldest first

  function EmptyShard(now: Time): Db {
    Db(now, map[], {}, [], map[], map[], map[], map[], map[], [], map[], map[], [])
  }

  /* ---- rows ---- */

  function LinesTotal(lines: seq<Line>): nat {
    if lines == [] then 0
    else LinesTotal(lines[..|lines| - 1]) + lines[|lines| - 1].unitPrice * lines[|lines| - 1].quantity
  }

  datatype Draft = Draft(
    restaurant: RestaurantId, owner: UserId, branch: BranchId, customer: UserId,
    payment: PaymentMethod, currency: Currency, deliveryFee: nat, lines: seq<Line>)

  function NewOrder(d: Draft, now: Time): Order {
    var subtotal := LinesTotal(d.lines);
    Order(d.restaurant, d.owner, d.branch, d.customer, d.payment, d.currency,
          subtotal, d.deliveryFee, SERVICE_FEE_MINOR, subtotal + d.deliveryFee + SERVICE_FEE_MINOR, 0,
          if d.payment.Online? then PendingPayment else Placed, None, now, map[])
  }

  /** The unconditional status UPDATE of the order repository. */
  function WithStatus(ord: Order, st: Status, stamp: Option<Stamp>, now: Time): Order {
    ord.(status := st, stamps := if stamp.Some? then ord.stamps[stamp.value := now] else ord.stamps)
  }

  function StampOf(ord: Order, s: Stamp): Option<Time> {
    if s in ord.stamps then Some(ord.stamps[s]) else None
  }

  predicate Active(s: Session) {
    s.status == Initialized || s.status == AwaitingPayer
  }

  /** Latest active session of an order, by id descending. */
  function FindActive(sessions: seq<Session>, o: OrderId): (r: Option<nat>)
    ensures r.Some? ==> r.value < |sessions| && sessions[r.value].order == o && Active(sessions[r.value])
    ensures r.Some? ==> forall i | r.value < i < |sessions| :: !(sessions[i].order == o && Active(sessions[i]))
    ensures r.None? ==> forall i | 0 <= i < |sessions| :: !(sessions[i].order == o && Active(sessions[i]))
  {
    if sessions == [] then None
    else
      var last := |sessions| - 1;
      if sessions[last].order == o && Active(sessions[last]) then Some(last)
      else FindActive(sessions[..last], o)
  }

  function AccountOf(ord: Order): Account {
    Account(ord.restaurant, ord.currency)
  }

  function BalanceOf(balances: map<Account, int>, a: Account): int {
    if a in balances then balances[a] else 0
  }

  /** floor(subtotal * commissionBps / 10000) */
  function CommissionFor(subtotal: nat, bps: int): int {
    subtotal * bps / 10000
  }

  function EarningFor(deliveryFee: nat, shareBps: int): int {
    deliveryFee * shareBps / 10000
  }

  /** INSERT ... ON CONFLICT (idempotency_key) DO NOTHING */
  function InsertIdempotent(ledger: map<LedgerKey, Tx>, k: LedgerKey, tx: Tx): map<LedgerKey, Tx> {
    if k in ledger then ledger else ledger[k := tx]
  }

  /** One more release-stock call under the order's key. */
  function Bump(releases: map<OrderId, nat>, o: OrderId): map<OrderId, nat> {
    releases[o := 1 + if o in releases then releases[o] else 0]
  }

  /* ---- placement ---- */

  /** Reserve stock, then insert the order; when the transaction fails the stock is released. Ids are fresh UUIDs. */
  function PlaceOrder(db: Db, o: OrderId, d: Draft, commitOk: bool): Db {
    if o in db.reserved || o in db.orders then db
    else
      db.(reserved := db.reserved[o := d.lines],
          releases := if commitOk then db.releases else Bump(db.releases, o),
          orders := if commitOk then db.orders[o := NewOrder(d, db.now)] else db.orders,
          awaitingInit := if commitOk && d.payment.Online? then db.awaitingInit + {o} else db.awaitingInit,
          outbox := if commitOk && d.payment.Cod? then db.outbox + [OrderPlaced(o)] else db.outbox)
  }

  /** How the provider call after an online placement ended. */
  datatype InitOutcome = SessionCreated | InitFailed | InitAndVoidFailed

  function NewSession(o: OrderId, ord: Order): Session {
    Session(o, ord.total, ord.currency, Initialized)
  }

  /** A session already active is surfaced as it is; a failed call voids the order and releases its stock. */
  function InitPayment(db: Db, o: OrderId, outcome: InitOutcome): Db {
    if o !in db.awaitingInit || o !in db.orders then db
    else
      var existing := FindActive(db.sessions, o).Some?;
      db.(awaitingInit := db.awaitingInit - {o},
          sessions := if !existing && outcome.SessionCreated?
                      then db.sessions + [NewSession(o, db.orders[o])] else db.sessions,
          orders := if !existing && outcome.InitFailed?
                    then db.orders[o := WithStatus(db.orders[o], Cancelled, Some(CancelledAt), db.now)] else db.orders,
          releases := if !existing && !outcome.SessionCreated? then Bump(db.releases, o) else db.releases)
  }

  /* ---- provider webhook ---- */

  /** INSERT ... ON CONFLICT (provider_id, provider_event_id) DO NOTHING; a duplicate is acknowledged and dropped. */
  function RecordWebhook(db: Db, txn: TxnId, d: Delivery): Db {
    if txn in db.webhookEvents then db
    else
      db.(webhookEvents := db.webhookEvents[txn := WebhookRow(false, false)],
          reconciling := db.reconciling[txn := d])
  }

  function ChargeRow(o: OrderId, ord: Order, s: Session, success: bool): Tx {
    Tx(Charge, Some(o), if success then Succeeded else Failed, s.amount, s.currency,
       Some(ord.customer), if success then Some(ord.owner) else None)
  }

  /** What one reconcile attempt comes to; a refused one rolls its transaction back. */
  datatype Verdict = Ignored | RolledBack | Booked(session: nat)

  function ReconcileVerdict(db: Db, d: Delivery, txn: TxnId, commitOk: bool): (v: Verdict)
    ensures v.Booked? ==> d.order in db.orders && v.session < |db.sessions|
                          && db.sessions[v.session].order == d.order && Active(db.sessions[v.session])
                          && d.isPay && commitOk && KashierKey(txn) !in db.ledger
  {
    if !d.isPay || d.order !in db.orders then Ignored
    else
      var active := FindActive(db.sessions, d.order);
      if active.None? then Ignored
      else if KashierKey(txn) in db.ledger || !commitOk then RolledBack
      else Booked(active.value)
  }

  function ClosedSession(s: Session, success: bool): Session {
    s.(status := if success then Captured else SessionFailed)
  }

  function ReconcileEvents(o: OrderId, txn: TxnId, success: bool, places: bool): seq<Event> {
    if !success then [PaymentFailed(o, txn)]
    else if places then [PaymentCompleted(o, txn), OrderPlaced(o)]
    else [PaymentCompleted(o, txn)]
  }

  /** Reconcile a recorded delivery in one transaction, then stamp its event row with the outcome. */
  function Reconcile(db: Db, txn: TxnId, commitOk: bool): Db {
    if txn !in db.reconciling then db
    else
      var d := db.reconciling[txn];
      var v := ReconcileVerdict(db, d, txn, commitOk);
      var places := v.Booked? && d.success && db.orders[d.order].status == PendingPayment;
      db.(reconciling := db.reconciling - {txn},
          webhookEvents := db.webhookEvents[txn := WebhookRow(true, v.RolledBack?)],
          sessions := if v.Booked? then db.sessions[v.session := ClosedSession(db.sessions[v.session], d.success)]
                      else db.sessions,
          ledger := if v.Booked? then db.ledger[KashierKey(txn) :=
            ChargeRow(d.order, db.orders[d.order], db.sessions[v.session], d.success)]
                    else db.ledger,
          orders := if places then db.orders[d.order := WithStatus(db.orders[d.order], Placed, None, db.now)]
                    else db.orders,
          outbox := if v.Booked? then db.outbox + ReconcileEvents(d.order, txn, d.success, places) else db.outbox)
  }

  /** The process handling a delivery dies after recording it. */
  function CrashReconcile(db: Db, txn: TxnId): Db {
    db.(reconciling := db.reconciling - {txn})
  }

  /* ---- status changes driven by people ---- */

  predicate ReleaseEligible(from: Status) {
    from == PendingPayment || from == Placed || from == Accepted
  }

  function StatusEvent(o: OrderId, st: Status): seq<Event> {
    match st
    case Accepted => [OrderAccepted(o)]
    case Rejected => [OrderRejected(o)]
    case Cancelled => [OrderCancelled(o)]
    case _ => []
  }

  function StatusCheck(db: Db, o: OrderId, c: Caller, target: Status, hasReason: bool): TransitionResult
    requires o in db.orders
  {
    var ord := db.orders[o];
    match ResolveStatusActor(c, ord)
    case None => Refused(InvalidStatusTransition)
    case Some(actor) =>
      AssertTransition(ord.status, target, actor, hasReason, ord.createdAt, StampOf(ord, AcceptedAt), db.now)
  }

  function UpdateStatus(db: Db, o: OrderId, c: Caller, target: Status, hasReason: bool): Db {
    if o !in db.orders || StatusCheck(db, o, c, target, hasReason).Refused? then db
    else
      var stamp := StatusCheck(db, o, c, target, hasReason).stamp;
      db.(orders := db.orders[o := WithStatus(db.orders[o], target, stamp, db.now)],
          outbox := db.outbox + StatusEvent(o, target),
          releases := if (target == Cancelled || target == Rejected) && ReleaseEligible(db.orders[o].status)
                      then Bump(db.releases, o) else db.releases)
  }

  /* ---- delivery ---- */

  predicate Claimable(ord: Order) {
    ord.status == Ready && ord.agent == None
  }

  /** The conditional UPDATE that is the real guard of every claim. */
  function ClaimReady(db: Db, o: OrderId, a: AgentId): Db {
    if o in db.orders && Claimable(db.orders[o]) then
      var stamps := db.orders[o].stamps[AssignedAt := db.now];
      db.(orders := db.orders[o := db.orders[o].(status := Assigned, agent := Some(a), stamps := stamps)])
    else db
  }

  predicate HeldBy(ord: Order, a: AgentId) {
    ord.agent == Some(a) && ord.status == Assigned
  }

  function Released(ord: Order): Order {
    ord.(status := Ready, agent := None, stamps := ord.stamps - {AssignedAt})
  }

  /** The UPDATE of goOffline, over every order the agent still only holds. */
  function ReleaseAssigned(db: Db, a: AgentId): Db {
    db.(orders := map o | o in db.orders :: if HeldBy(db.orders[o], a) then Released(db.orders[o]) else db.orders[o])
  }

  function PickUp(db: Db, o: OrderId, a: AgentId): Db {
    if o in db.orders && db.orders[o].agent == Some(a) && db.orders[o].status == Assigned then
      db.(orders := db.orders[o := WithStatus(db.orders[o], Picked, Some(PickedAt), db.now)])
    else db
  }

  /* ---- settlement ---- */

  function PlatformRow(kind: TxType, o: OrderId, ord: Order, amount: int): Tx {
    Tx(kind, Some(o), Succeeded, amount, ord.currency, Some(ord.owner), None)
  }

  function CollectionRow(o: OrderId, ord: Order): Tx {
    Tx(CodCollection, Some(o), Succeeded, ord.total, ord.currency, Some(ord.customer), Some(ord.owner))
  }

  /** The ledger after the settlement inserts; rows for a zero amount are skipped. */
  function SettledLedger(ledger: map<LedgerKey, Tx>, o: OrderId, ord: Order, commission: int): map<LedgerKey, Tx> {
    var l0 := if ord.payment.Cod? then InsertIdempotent(ledger, CodCollectKey(o), CollectionRow(o, ord)) else ledger;
    var l1 := if commission > 0
              then InsertIdempotent(l0, CommissionKey(o), PlatformRow(Commission, o, ord, commission)) else l0;
    var l2 := if ord.serviceFee > 0
              then InsertIdempotent(l1, ServiceFeeKey(o), PlatformRow(ServiceFee, o, ord, ord.serviceFee)) else l1;
    if ord.deliveryFee > 0
    then InsertIdempotent(l2, DeliveryFeeKey(o), PlatformRow(DeliveryFee, o, ord, ord.deliveryFee)) else l2
  }

  predicate Settleable(db: Db, o: OrderId, a: AgentId) {
    o in db.orders && db.orders[o].agent == Some(a) && db.orders[o].status == Picked
  }

  function DeliveredOrder(ord: Order, commission: int, now: Time): Order {
    WithStatus(ord.(commission := commission), Delivered, Some(DeliveredAt), now)
  }

  function SettleDelivered(db: Db, o: OrderId, a: AgentId, commissionBps: int, shareBps: int): Db {
    if !Settleable(db, o, a) then db
    else
      var ord := db.orders[o];
      var commission := CommissionFor(ord.subtotal, commissionBps);
      var net := ord.subtotal - commission;
      db.(orders := db.orders[o := DeliveredOrder(ord, commission, db.now)],
          ledger := SettledLedger(db.ledger, o, ord, commission),
          balances := if net != 0
                      then db.balances[AccountOf(ord) := BalanceOf(db.balances, AccountOf(ord)) + net] else db.balances,
          earnings := if o in db.earnings then db.earnings
                      else db.earnings[o := Earning(a, EarningFor(ord.deliveryFee, shareBps), ord.currency)],
          outbox := db.outbox + [OrderDelivered(o, commission)])
  }

  /* ---- payouts ---- */

  function PayoutRow(account: Account, amount: nat, owner: UserId): Tx {
    Tx(PayoutTx, None, Succeeded, amount, account.currency, None, Some(owner))
  }

  /** The balance floor and the unique key, the two ways a payout transaction is refused. */
  predicate PayoutAccepted(db: Db, account: Account, amount: nat, key: LedgerKey) {
    amount > 0 && account in db.balances && db.balances[account] >= amount && key !in db.ledger
  }

  /** `owner` is looked up from the restaurant's latest order; None when it has no order. */
  function RecordPayout(db: Db, account: Account, amount: nat, key: LedgerKey, owner: Option<UserId>): Db {
    if owner.None? || !PayoutAccepted(db, account, amount, key) then db
    else
      db.(balances := db.balances[account := db.balances[account] - amount],
          ledger := db.ledger[key := PayoutRow(account, amount, owner.value)],
          payouts := db.payouts + [Payout(account, amount, key)])
  }

  /* ---- runs ---- */

  datatype Op =
    | OpPlace(order: OrderId, draft: Draft, commitOk: bool)
    | OpInitPayment(order: OrderId, outcome: InitOutcome)
    | OpRecordWebhook(txn: TxnId, delivery: Delivery)
    | OpReconcile(txn: TxnId, commitOk: bool)
    | OpCrashReconcile(txn: TxnId)
    | OpUpdateStatus(order: OrderId, caller: Caller, target: Status, hasReason: bool)
    | OpClaim(order: OrderId, agent: AgentId)
    | OpRelease(agent: AgentId)
    | OpPickUp(order: OrderId, agent: AgentId)
    | OpSettle(order: OrderId, agent: AgentId, commissionBps: int, shareBps: int)
    | OpPayout(account: Account, amount: nat, key: LedgerKey, owner: Option<UserId>)
    | OpTick(elapsed: nat)

  function Apply(db: Db, op: Op): Db {
    match op
    case OpPlace(o, d, commitOk) => PlaceOrder(db, o, d, commitOk)
    case OpInitPayment(o, outcome) => InitPayment(db, o, outcome)
    case OpRecordWebhook(txn, d) => RecordWebhook(db, txn, d)
    case OpReconcile(txn, commitOk) => Reconcile(db, txn, commitOk)
    case OpCrashReconcile(txn) => CrashReconcile(db, txn)
    case OpUpdateStatus(o, c, target, hasReason) => UpdateStatus(db, o, c, target, hasReason)
    case OpClaim(o, a) => ClaimReady(db, o, a)
    case OpRelease(a) => ReleaseAssigned(db, a)
    case OpPickUp(o, a) => PickUp(db, o, a)
    case OpSettle(o, a, bps, share) => SettleDelivered(db, o, a, bps, share)
    case OpPayout(account, amount, key, owner) => RecordPayout(db, account, amount, key, owner)
    case OpTick(elapsed) => db.(now := db.now + elapsed)
  }

  /** The shard after a run from the empty shard at time `t0`. */
  function Run(t0: Time, ops: seq<Op>): Db {
    if ops == [] then EmptyShard(t0) else Apply(Run(t0, ops[..|ops| - 1]), ops[|ops| - 1])
  }

  predicate HasStatus(db: Db, o: OrderId, st: Status) {
    o in db.orders && db.orders[o].status == st
  }

  /** Some state of the run, the last one included, had order `o` in status `st`. */
  ghost predicate Ever(t0: Time, ops: seq<Op>, o: OrderId, st: Status) {
    ops != [] && (Ever(t0, ops[..|ops| - 1], o, st) || HasStatus(Run(t0, ops), o, st))
  }

  /** `Ever` looks at every prefix of the run. */
  lemma {:induction false} EverMeansSomePrefix(t0: Time, ops: seq<Op>, o: OrderId, st: Status)
    ensures Ever(t0, ops, o, st)
            <==> exists n {:trigger ops[..n]} | 0 <= n <= |ops| :: HasStatus(Run(t0, ops[..n]), o, st)
  {
    assert ops[..|ops|] == ops;
    if ops != [] {
      var prior := ops[..|ops| - 1];
      EverMeansSomePrefix(t0, prior, o, st);
      forall n | 0 <= n < |ops| ensures prior[..n] == ops[..n] {}
      if Ever(t0, prior, o, st) {
        var n :| 0 <= n <= |prior| && HasStatus(Run(t0, prior[..n]), o, st);
        assert HasStatus(Run(t0, ops[..n]), o, st);
      }
      if n :| 0 <= n < |ops| && HasStatus(Run(t0, ops[..n]), o, st) {
        assert HasStatus(Run(t0, prior[..n]), o, st);
      }
    }
  }
}
