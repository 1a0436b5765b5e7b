/** Where the money goes: the settlement arithmetic, and conservation over every run. */
module Money {
  import opened Types
  import opened OrderStatus
  import opened ShardState
  import opened OrderRuns
  import opened Payments
  import opened Sums

  /* ---- settlement arithmetic ---- */

  /** With rates between 0 and 100%, a delivered order's total splits exactly, and the platform is never short. */
  lemma TotalSplits(ord: Order, bps: int, shareBps: int, now: Time)
    requires RowOk(ord, now) && 0 <= bps <= 10000 && 0 <= shareBps <= 10000
    ensures var commission, earning := CommissionFor(ord.subtotal, bps), EarningFor(ord.deliveryFee, shareBps);
            && 0 <= commission <= ord.subtotal
            && 0 <= earning <= ord.deliveryFee
            && var restaurantNet, platformRest := ord.subtotal - commission, ord.deliveryFee - earning;
               platformRest >= 0 && ord.total == restaurantNet + commission + ord.serviceFee + earning + platformRest
  {
    BpsBounds(ord.subtotal, bps);
    BpsBounds(ord.deliveryFee, shareBps);
  }

  lemma BpsBounds(x: nat, bps: int)
    requires 0 <= bps <= 10000
    ensures 0 <= x * bps / 10000 <= x
  {
    assert 0 <= x * bps <= x * 10000;
  }

  function SumOf(xs: seq<nat>): nat {
    if xs == [] then 0 else SumOf(xs[..|xs| - 1]) + xs[|xs| - 1]
  }

  function SumCommissions(xs: seq<nat>, bps: int): int {
    if xs == [] then 0 else SumCommissions(xs[..|xs| - 1], bps) + CommissionFor(xs[|xs| - 1], bps)
  }

  /** Rounding down per order never takes more than rounding once, and less by under one unit per further order. */
  lemma {:induction false} RoundingBound(xs: seq<nat>, bps: int)
    requires xs != []
    ensures 0 <= CommissionFor(SumOf(xs), bps) - SumCommissions(xs, bps) <= |xs| - 1
    decreases |xs|
  {
    var prior, last := xs[..|xs| - 1], xs[|xs| - 1];
    if prior == [] {
      assert SumOf(xs) == last;
    } else {
      RoundingBound(prior, bps);
      FloorOfSum(SumOf(prior) * bps, last * bps);
      assert (SumOf(prior) + last) * bps == SumOf(prior) * bps + last * bps;
    }
  }

  lemma FloorOfSum(a: int, b: int)
    ensures 0 <= (a + b) / 10000 - a / 10000 - b / 10000 <= 1
  {
  }

  /* ---- balances against settled orders and payouts ---- */

  /** The generic status endpoint accepts picked -> delivered from the order's agent, without settling. */
  predicate BypassesSettlement(op: Op) {
    op.OpUpdateStatus? && op.target == Delivered
  }

  /** Every earning is for a delivered order and its agent, and only a settled order has a commission. */
  ghost predicate EarningsOk(db: Db) {
    && (forall o | o in db.earnings :: HasStatus(db, o, Delivered) && db.orders[o].agent == Some(db.earnings[o].agent))
    && (forall o | o in db.orders && o !in db.earnings :: db.orders[o].commission == 0)
  }

  lemma BooksUntouched(db: Db, op: Op)
    requires !op.OpSettle? && !op.OpPayout?
    ensures SameBooks(db, Apply(db, op))
  {
    match op
    case OpPlace(o, d, commitOk) => PlaceBooks(db, o, d, commitOk);
    case OpInitPayment(o, outcome) => InitBooks(db, o, outcome);
    case OpReconcile(txn, commitOk) => ReconcileBooks(db, txn, commitOk);
    case OpUpdateStatus(o, c, target, hasReason) => StatusBooks(db, o, c, target, hasReason);
    case _ =>
  }

  predicate SameBooks(db: Db, after: Db) {
    after.balances == db.balances && after.payouts == db.payouts && after.earnings == db.earnings
  }

  lemma PlaceBooks(db: Db, o: OrderId, d: Draft, commitOk: bool)
    ensures SameBooks(db, PlaceOrder(db, o, d, commitOk))
  {
  }

  lemma InitBooks(db: Db, o: OrderId, outcome: InitOutcome)
    ensures SameBooks(db, InitPayment(db, o, outcome))
  {
  }

  lemma ReconcileBooks(db: Db, txn: TxnId, commitOk: bool)
    ensures SameBooks(db, Reconcile(db, txn, commitOk))
  {
  }

  lemma StatusBooks(db: Db, o: OrderId, c: Caller, target: Status, hasReason: bool)
    ensures SameBooks(db, UpdateStatus(db, o, c, target, hasReason))
  {
  }

  lemma DeliveredOnlyBySettlement(db: Db, op: Op, o: OrderId)
    requires InitWindow(db) && o in db.orders && !BypassesSettlement(op) && !op.OpSettle?
    ensures HasStatus(Apply(db, op), o, Delivered) ==> db.orders[o].status == Delivered
  {
    match op
    case OpUpdateStatus(p, c, target, hasReason) => if p in db.orders { UpdateStatusRow(db, p, c, target, hasReason); }
    case OpInitPayment(p, outcome) => InitPaymentRow(db, p, outcome);
    case OpReconcile(txn, commitOk) => ReconcileRow(db, txn, commitOk);
    case OpPlace(p, d, commitOk) => PlaceStep(db, p, d, commitOk, o);
    case OpClaim(p, a) => ClaimRow(db, p, a);
    case OpRelease(a) => ReleaseRow(db, a, o);
    case OpPickUp(p, a) => PickUpDelivers(db, p, a, o);
    case _ => OrdersUntouched(db, op);
  }

  lemma PickUpDelivers(db: Db, p: OrderId, a: AgentId, o: OrderId)
    ensures HasStatus(PickUp(db, p, a), o, Delivered) ==> HasStatus(db, o, Delivered)
  {
  }

  /** Only a settlement writes a commission. */
  lemma CommissionStays(db: Db, op: Op, o: OrderId)
    requires InitWindow(db) && o in db.orders && !(op.OpSettle? && op.order == o)
    ensures o in Apply(db, op).orders && Apply(db, op).orders[o].commission == db.orders[o].commission
    ensures SameOrder(db.orders[o], Apply(db, op).orders[o])
  {
    StepRow(db, op, o);
    RowStepSameOrder(db.orders[o], Apply(db, op).orders[o], op, db.now);
    match op
    case OpUpdateStatus(p, c, target, hasReason) => if p in db.orders { UpdateStatusRow(db, p, c, target, hasReason); }
    case OpInitPayment(p, outcome) => InitPaymentRow(db, p, outcome);
    case OpReconcile(txn, commitOk) => ReconcileRow(db, txn, commitOk);
    case OpPlace(p, d, commitOk) =>
    case OpClaim(p, a) =>
    case OpRelease(a) =>
    case OpPickUp(p, a) =>
    case OpSettle(p, a, bps, share) => SettleOther(db, p, a, bps, share, o);
    case _ => OrdersUntouched(db, op);
  }

  lemma SettleOther(db: Db, p: OrderId, agent: AgentId, bps: int, share: int, o: OrderId)
    requires o in db.orders && o != p
    ensures var after := SettleDelivered(db, p, agent, bps, share);
            o in after.orders && after.orders[o] == db.orders[o] && (o in after.earnings <==> o in db.earnings)
  {
  }

  lemma DeliveredStays(db: Db, op: Op, o: OrderId)
    requires InitWindow(db) && HasStatus(db, o, Delivered)
    ensures HasStatus(Apply(db, op), o, Delivered) && Apply(db, op).orders[o].agent == db.orders[o].agent
  {
    StepRow(db, op, o);
    TableIsAcyclic(Delivered, Apply(db, op).orders[o].status);
  }

  lemma SettleEarning(db: Db, p: OrderId, agent: AgentId, bps: int, share: int)
    requires EarningsOk(db)
    ensures EarningsOk(SettleDelivered(db, p, agent, bps, share))
  {
  }

  lemma EarningsStep(db: Db, op: Op)
    requires InitWindow(db) && EarningsOk(db)
    ensures EarningsOk(Apply(db, op))
  {
    if op.OpSettle? {
      SettleEarning(db, op.order, op.agent, op.commissionBps, op.shareBps);
    } else {
      var after := Apply(db, op);
      if op.OpPayout? { assert after.earnings == db.earnings; } else { BooksUntouched(db, op); }
      forall o | o in after.earnings
        ensures HasStatus(after, o, Delivered) && after.orders[o].agent == Some(after.earnings[o].agent)
      {
        DeliveredStays(db, op, o);
      }
      forall o | o in after.orders && o !in after.earnings ensures after.orders[o].commission == 0 {
        if o in db.orders { CommissionStays(db, op, o); } else { StepNewRow(db, op, o); }
      }
    }
  }

  lemma {:induction false} RunKeepsEarnings(t0: Time, ops: seq<Op>)
    ensures EarningsOk(Run(t0, ops))
  {
    if ops != [] {
      RunKeepsEarnings(t0, ops[..|ops| - 1]);
      RunKeepsInitWindow(t0, ops[..|ops| - 1]);
      EarningsStep(Run(t0, ops[..|ops| - 1]), ops[|ops| - 1]);
    }
  }

  /** The orders of one account, or of one currency over all restaurants. */
  datatype Scope = OfAccount(account: Account) | OfCurrency(currency: Currency)

  predicate Covers(scope: Scope, ord: Order) {
    match scope
    case OfAccount(a) => AccountOf(ord) == a
    case OfCurrency(c) => ord.currency == c
  }

  /** What a settled order leaves with its restaurant. */
  function SettledFor(settled: set<OrderId>, scope: Scope): (OrderId, Order) -> int {
    (o: OrderId, ord: Order) => if o in settled && Covers(scope, ord) then ord.subtotal - ord.commission else 0
  }

  /** What a delivered order leaves with its restaurant, settled or not. */
  function NetFor(scope: Scope): (OrderId, Order) -> int {
    (o: OrderId, ord: Order) =>
      if ord.status == Delivered && Covers(scope, ord) then ord.subtotal - ord.commission else 0
  }

  /** What an order delivered without settlement keeps from it. */
  function BypassedFor(settled: set<OrderId>, scope: Scope): (OrderId, Order) -> int {
    (o: OrderId, ord: Order) =>
      if ord.status == Delivered && o !in settled && Covers(scope, ord) then ord.subtotal else 0
  }

  ghost function SettledNet(db: Db, scope: Scope): int {
    SumMap(db.orders, SettledFor(db.earnings.Keys, scope))
  }

  function PaidOut(payouts: seq<Payout>, a: Account): nat {
    if payouts == [] then 0
    else
      var last := payouts[|payouts| - 1];
      PaidOut(payouts[..|payouts| - 1], a) + if last.account == a then last.amount else 0
  }

  lemma PlaceKeepsNet(db: Db, p: OrderId, d: Draft, commitOk: bool, settled: set<OrderId>, scope: Scope)
    requires p in settled ==> p in db.orders
    ensures SumMap(PlaceOrder(db, p, d, commitOk).orders, SettledFor(settled, scope))
            == SumMap(db.orders, SettledFor(settled, scope))
  {
    if PlaceOrder(db, p, d, commitOk).orders != db.orders {
      SumUpdate(db.orders, p, NewOrder(d, db.now), SettledFor(settled, scope));
    }
  }

  lemma OthersKeepNet(db: Db, op: Op, settled: set<OrderId>, scope: Scope)
    requires InitWindow(db) && !op.OpSettle? && !op.OpPlace?
    ensures SumMap(Apply(db, op).orders, SettledFor(settled, scope)) == SumMap(db.orders, SettledFor(settled, scope))
  {
    var after, f := Apply(db, op).orders, SettledFor(settled, scope);
    forall o | o in db.orders ensures o in after && f(o, after[o]) == f(o, db.orders[o]) { CommissionStays(db, op, o); }
    forall o | o in after ensures o in db.orders { if o !in db.orders { StepNewRow(db, op, o); } }
    SumCongruent(db.orders, after, f, f);
  }

  /** Every transaction but a settlement leaves the settled total alone. */
  lemma SettledNetUnchanged(db: Db, op: Op, scope: Scope)
    requires InitWindow(db) && EarningsOk(db) && !op.OpSettle?
    ensures SettledNet(Apply(db, op), scope) == SettledNet(db, scope)
  {
    if op.OpPayout? { assert Apply(db, op).earnings == db.earnings; } else { BooksUntouched(db, op); }
    if op.OpPlace? {
      PlaceKeepsNet(db, op.order, op.draft, op.commitOk, db.earnings.Keys, scope);
    } else {
      OthersKeepNet(db, op, db.earnings.Keys, scope);
    }
  }

  lemma SettledNetGrows(db: Db, o: OrderId, agent: AgentId, bps: int, share: int, scope: Scope)
    requires EarningsOk(db) && Settleable(db, o, agent)
    ensures SettledNet(SettleDelivered(db, o, agent, bps, share), scope) == SettledNet(db, scope)
              + if Covers(scope, db.orders[o]) then db.orders[o].subtotal - CommissionFor(db.orders[o].subtotal, bps)
                else 0
  {
    var ord, settled := db.orders[o], db.earnings.Keys;
    var delivered := DeliveredOrder(ord, CommissionFor(ord.subtotal, bps), db.now);
    SumUpdate(db.orders, o, delivered, SettledFor(settled + {o}, scope));
    SumChangeAt(db.orders, o, SettledFor(settled, scope), SettledFor(settled + {o}, scope));
    assert SettleDelivered(db, o, agent, bps, share).earnings.Keys == settled + {o};
  }

  /** balance == sum of (subtotal - commission) over settled orders - payouts */
  ghost predicate BooksKept(db: Db, a: Account) {
    BalanceOf(db.balances, a) == SettledNet(db, OfAccount(a)) - PaidOut(db.payouts, a)
  }

  lemma PayoutKeepsBooks(db: Db, account: Account, amount: nat, key: LedgerKey, owner: Option<UserId>, a: Account)
    requires BooksKept(db, a)
    ensures BooksKept(RecordPayout(db, account, amount, key, owner), a)
  {
    if owner.Some? && PayoutAccepted(db, account, amount, key) {
      assert (db.payouts + [Payout(account, amount, key)])[..|db.payouts|] == db.payouts;
    }
  }

  lemma BooksStep(db: Db, op: Op, a: Account)
    requires InitWindow(db) && EarningsOk(db) && BooksKept(db, a)
    ensures BooksKept(Apply(db, op), a)
  {
    match op
    case OpSettle(o, agent, bps, share) => SettleKeepsBooks(db, o, agent, bps, share, a);
    case OpPayout(account, amount, key, owner) => PayoutKeepsBooks(db, account, amount, key, owner, a);
    case _ =>
      SettledNetUnchanged(db, op, OfAccount(a));
      BooksUntouched(db, op);
  }

  lemma SettleKeepsBooks(db: Db, o: OrderId, agent: AgentId, bps: int, share: int, a: Account)
    requires InitWindow(db) && EarningsOk(db) && BooksKept(db, a)
    ensures BooksKept(SettleDelivered(db, o, agent, bps, share), a)
  {
    if Settleable(db, o, agent) { SettledNetGrows(db, o, agent, bps, share, OfAccount(a)); }
  }

  /**
   In every run, whichever way orders are delivered and at whatever rates, each restaurant's balance in each
   currency is what its settled orders left it, minus what was paid out.
   */
  lemma {:induction false} BooksAlwaysKept(t0: Time, ops: seq<Op>, a: Account)
    ensures BooksKept(Run(t0, ops), a)
  {
    if ops != [] {
      var prior := ops[..|ops| - 1];
      BooksAlwaysKept(t0, prior, a);
      RunKeepsInitWindow(t0, prior);
      RunKeepsEarnings(t0, prior);
      BooksStep(Run(t0, prior), ops[|ops| - 1], a);
    }
  }

  /** Delivered orders are the settled ones and those whose delivery bypassed settlement, which carry no commission. */
  lemma DeliveredSplits(db: Db, scope: Scope)
    requires EarningsOk(db)
    ensures SumMap(db.orders, NetFor(scope))
            == SettledNet(db, scope) + SumMap(db.orders, BypassedFor(db.earnings.Keys, scope))
  {
    SumAdd(db.orders, SettledFor(db.earnings.Keys, scope), BypassedFor(db.earnings.Keys, scope), NetFor(scope));
  }

  /** balance == sum of (subtotal - commission) over delivered orders - payouts */
  ghost predicate BalanceConserved(db: Db, a: Account) {
    BalanceOf(db.balances, a) == SumMap(db.orders, NetFor(OfAccount(a))) - PaidOut(db.payouts, a)
  }

  /** An order of the account that went from picked to delivered without being settled. */
  predicate Bypassed(db: Db, o: OrderId) {
    HasStatus(db, o, Delivered) && o !in db.earnings
  }

  /** The exact shortfall of every run: the subtotals of the account's deliveries that bypassed settlement. */
  lemma BalanceWithBypasses(t0: Time, ops: seq<Op>, a: Account)
    ensures var db := Run(t0, ops);
            BalanceOf(db.balances, a)
            == SumMap(db.orders, NetFor(OfAccount(a))) - PaidOut(db.payouts, a)
               - SumMap(db.orders, BypassedFor(db.earnings.Keys, OfAccount(a)))
  {
    BooksAlwaysKept(t0, ops, a);
    RunKeepsEarnings(t0, ops);
    DeliveredSplits(Run(t0, ops), OfAccount(a));
  }

  /**
   In any run a balance accounts for all delivered orders exactly when every bypassed one of the account was
   worth nothing.
   */
  lemma ConservedIff(t0: Time, ops: seq<Op>, a: Account)
    ensures var db := Run(t0, ops);
            BalanceConserved(db, a)
            <==> forall o | o in db.orders && Bypassed(db, o) && AccountOf(db.orders[o]) == a ::
                   db.orders[o].subtotal == 0
  {
    var db := Run(t0, ops);
    var f := BypassedFor(db.earnings.Keys, OfAccount(a));
    BalanceWithBypasses(t0, ops, a);
    SumNonNegative(db.orders, f);
    assert forall o | o in db.orders ::
        (f(o, db.orders[o]) == 0) == (Bypassed(db, o) && AccountOf(db.orders[o]) == a ==> db.orders[o].subtotal == 0);
  }

  /** Delivering only through settlement is enough for the books to close over all delivered orders. */
  lemma BalancesConserved(t0: Time, ops: seq<Op>, a: Account)
    requires forall i | 0 <= i < |ops| :: !BypassesSettlement(ops[i])
    ensures BalanceConserved(Run(t0, ops), a)
  {
    var db := Run(t0, ops);
    ConservedIff(t0, ops, a);
    forall o | o in db.orders ensures !Bypassed(db, o) { EarningsConserved(t0, ops, o); }
  }

  /** The bypass breaks the order's account as soon as the order is worth anything. */
  lemma BypassBreaksConservation(db: Db, op: Op)
    requires OrdersOk(db) && BypassesSettlement(op) && op.order in db.orders
    requires StatusCheck(db, op.order, op.caller, op.target, op.hasReason).Allowed?
    requires BalanceConserved(db, AccountOf(db.orders[op.order]))
    ensures BalanceConserved(Apply(db, op), AccountOf(db.orders[op.order])) <==> db.orders[op.order].subtotal == 0
  {
    BypassNet(db, op);
    BooksUntouched(db, op);
  }

  /** It counts as delivered for its account from then on, with no commission taken. */
  lemma BypassNet(db: Db, op: Op)
    requires OrdersOk(db) && BypassesSettlement(op) && op.order in db.orders
    requires StatusCheck(db, op.order, op.caller, op.target, op.hasReason).Allowed?
    ensures var ord, after := db.orders[op.order], Apply(db, op).orders;
            && op.order in after && AccountOf(after[op.order]) == AccountOf(ord)
            && SumMap(after, NetFor(OfAccount(AccountOf(ord))))
               == SumMap(db.orders, NetFor(OfAccount(AccountOf(ord)))) + ord.subtotal
  {
    var ord, a := db.orders[op.order], AccountOf(db.orders[op.order]);
    UpdateStatusRow(db, op.order, op.caller, op.target, op.hasReason);
    SumUpdate(db.orders, op.order, Apply(db, op).orders[op.order], NetFor(OfAccount(a)));
    TableIsAcyclic(ord.status, Delivered);
    assert RowOk(ord, db.now);
  }

  /* ---- agent earnings ---- */

  lemma NewlySettled(db: Db, op: Op, o: OrderId)
    requires EarningsOk(db) && InitWindow(db) && !BypassesSettlement(op)
    requires HasStatus(Apply(db, op), o, Delivered) && !HasStatus(db, o, Delivered)
    ensures o in Apply(db, op).earnings
  {
    if o !in db.orders {
      StepNewRow(db, op, o);
    } else if !op.OpSettle? {
      DeliveredOnlyBySettlement(db, op, o);
    }
  }

  lemma EarningsGrow(db: Db, op: Op, o: OrderId)
    ensures o in db.earnings ==> o in Apply(db, op).earnings
  {
    if !op.OpSettle? && !op.OpPayout? { BooksUntouched(db, op); }
  }

  /**
   Where every delivery is settled, exactly the delivered orders have an earning row, for the agent who
   delivered them.
   */
  lemma {:induction false} EarningsConserved(t0: Time, ops: seq<Op>, o: OrderId)
    requires forall i | 0 <= i < |ops| :: !BypassesSettlement(ops[i])
    ensures var db := Run(t0, ops);
            && (o in db.earnings <==> HasStatus(db, o, Delivered))
            && (o in db.earnings ==> db.orders[o].agent == Some(db.earnings[o].agent))
  {
    RunKeepsEarnings(t0, ops);
    if ops != [] {
      var prior, op := ops[..|ops| - 1], ops[|ops| - 1];
      EarningsConserved(t0, prior, o);
      RunKeepsEarnings(t0, prior);
      RunKeepsInitWindow(t0, prior);
      EarningsGrow(Run(t0, prior), op, o);
      if HasStatus(Run(t0, ops), o, Delivered) && !HasStatus(Run(t0, prior), o, Delivered) {
        NewlySettled(Run(t0, prior), op, o);
      }
    }
  }

  /* ---- balances never go negative ---- */

  ghost predicate NoOverdraft(db: Db) {
    forall a | a in db.balances :: db.balances[a] >= 0
  }

  /**
   A settlement keeps its account non-negative exactly when the balance covers what the commission exceeds the
   subtotal by.
   */
  lemma SettleKeepsFloor(db: Db, o: OrderId, agent: AgentId, bps: int, share: int)
    requires NoOverdraft(db) && Settleable(db, o, agent)
    ensures var ord := db.orders[o];
            NoOverdraft(SettleDelivered(db, o, agent, bps, share)) <==>
              CommissionFor(ord.subtotal, bps) - ord.subtotal <= BalanceOf(db.balances, AccountOf(ord))
    ensures 0 <= bps <= 10000 ==> NoOverdraft(SettleDelivered(db, o, agent, bps, share))
  {
    var ord, after := db.orders[o], SettleDelivered(db, o, agent, bps, share);
    var net := ord.subtotal - CommissionFor(ord.subtotal, bps);
    if net == 0 {
      assert after.balances == db.balances;
    } else {
      assert AccountOf(ord) in after.balances
        && after.balances[AccountOf(ord)] == BalanceOf(db.balances, AccountOf(ord)) + net;
    }
    if 0 <= bps <= 10000 { BpsBounds(ord.subtotal, bps); }
  }

  predicate SaneRate(op: Op) {
    op.OpSettle? ==> 0 <= op.commissionBps <= 10000
  }

  /** No interleaving of settlements and payouts overdraws a balance. */
  lemma {:induction false} NeverOverdrawn(t0: Time, ops: seq<Op>)
    requires forall i | 0 <= i < |ops| :: SaneRate(ops[i])
    ensures NoOverdraft(Run(t0, ops))
  {
    if ops != [] {
      var prior, op := ops[..|ops| - 1], ops[|ops| - 1];
      NeverOverdrawn(t0, prior);
      if op.OpSettle? {
        if Settleable(Run(t0, prior), op.order, op.agent) {
          SettleKeepsFloor(Run(t0, prior), op.order, op.agent, op.commissionBps, op.shareBps);
        }
      } else if !op.OpPayout? {
        BooksUntouched(Run(t0, prior), op);
      }
    }
  }

  /* ---- payouts ---- */

  /** Accepted payouts and payout rows of the ledger are the same thing: same key, same amount, one each. */
  ghost predicate PayoutsMatch(db: Db) {
    && (forall i | 0 <= i < |db.payouts| :: var p := db.payouts[i];
          p.key in db.ledger && db.ledger[p.key].kind == PayoutTx
          && db.ledger[p.key].amount == p.amount && db.ledger[p.key].currency == p.account.currency)
    && (forall i, j | 0 <= i < j < |db.payouts| :: db.payouts[i].key != db.payouts[j].key)
    && (forall k | k in db.ledger && db.ledger[k].kind == PayoutTx ::
          exists i :: 0 <= i < |db.payouts| && db.payouts[i].key == k)
  }

  lemma PayoutRowsOnlyByPayout(db: Db, op: Op, k: LedgerKey)
    requires !op.OpPayout?
    ensures k !in db.ledger && k in Apply(db, op).ledger ==> Apply(db, op).ledger[k].kind != PayoutTx
  {
    match op
    case OpSettle(o, a, bps, share) =>
      if Settleable(db, o, a) {
        SettledLedgerKeeps(db.ledger, o, db.orders[o], CommissionFor(db.orders[o].subtotal, bps), k);
      }
    case OpReconcile(txn, commitOk) =>
    case _ => LedgerUntouched(db, op);
  }

  lemma PayoutsMatchStep(db: Db, op: Op)
    requires PayoutsMatch(db)
    ensures PayoutsMatch(Apply(db, op))
  {
    var after := Apply(db, op);
    forall k ensures k in db.ledger ==> k in after.ledger && after.ledger[k] == db.ledger[k] {
      LedgerAppendOnly(db, op, k);
    }
    if op.OpPayout? {
      PayoutStep(db, op.account, op.amount, op.key, op.owner);
    } else {
      OtherPayouts(db, op);
      forall k | k in after.ledger && after.ledger[k].kind == PayoutTx
        ensures exists i :: 0 <= i < |after.payouts| && after.payouts[i].key == k
      {
        PayoutRowsOnlyByPayout(db, op, k);
      }
    }
  }

  lemma OtherPayouts(db: Db, op: Op)
    requires !op.OpPayout?
    ensures Apply(db, op).payouts == db.payouts
  {
    if !op.OpSettle? { BooksUntouched(db, op); }
  }

  lemma PayoutStep(db: Db, account: Account, amount: nat, key: LedgerKey, owner: Option<UserId>)
    requires PayoutsMatch(db)
    ensures PayoutsMatch(RecordPayout(db, account, amount, key, owner))
  {
    var after := RecordPayout(db, account, amount, key, owner);
    if after != db {
      forall k | k in after.ledger && after.ledger[k].kind == PayoutTx
        ensures exists i :: 0 <= i < |after.payouts| && after.payouts[i].key == k
      {
        if k == key {
          assert after.payouts[|db.payouts|].key == k;
        } else {
          var i :| 0 <= i < |db.payouts| && db.payouts[i].key == k;
          assert after.payouts[i].key == k;
        }
      }
    }
  }

  /** In every run each committed decrement has its own payout row of the same amount, and no key pays out twice. */
  lemma {:induction false} RunPayoutsMatch(t0: Time, ops: seq<Op>)
    ensures PayoutsMatch(Run(t0, ops))
  {
    if ops != [] {
      RunPayoutsMatch(t0, ops[..|ops| - 1]);
      PayoutsMatchStep(Run(t0, ops[..|ops| - 1]), ops[|ops| - 1]);
    }
  }

  lemma KeyStays(db: Db, op: Op, key: LedgerKey)
    requires key in db.ledger
    ensures key in Apply(db, op).ledger
  {
    LedgerAppendOnly(db, op, key);
  }

  lemma {:induction false} KeyLasts(t0: Time, ops: seq<Op>, more: seq<Op>, key: LedgerKey)
    requires key in Run(t0, ops).ledger
    ensures key in Run(t0, ops + more).ledger
    decreases |more|
  {
    OneByOne(ops, more);
    if more != [] {
      KeyAfter(t0, ops, more[0], key);
      KeyLasts(t0, ops + [more[0]], more[1..], key);
    }
  }

  lemma OneByOne(ops: seq<Op>, more: seq<Op>)
    ensures ops + more == if more == [] then ops else ops + [more[0]] + more[1..]
  {
  }

  lemma KeyAfter(t0: Time, ops: seq<Op>, op: Op, key: LedgerKey)
    requires key in Run(t0, ops).ledger
    ensures key in Run(t0, ops + [op]).ledger
  {
    RunExtend(t0, ops, op);
    KeyStays(Run(t0, ops), op, key);
  }

  /** Once a key is in the ledger, a payout under it changes nothing, now or after any further run. */
  lemma UsedKeyNeverPays(t0: Time, ops: seq<Op>, more: seq<Op>, account: Account, amount: nat, key: LedgerKey,
      owner: Option<UserId>)
    requires key in Run(t0, ops).ledger
    ensures key in Run(t0, ops + more).ledger
    ensures RecordPayout(Run(t0, ops + more), account, amount, key, owner) == Run(t0, ops + more)
  {
    KeyLasts(t0, ops, more, key);
  }
}
