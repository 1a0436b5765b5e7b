/**
 The tables of one shard as the repositories write them: one method per INSERT or UPDATE statement, each
 naming the one column or table it may change, and the rollback a failed transaction falls back on.
 */
module Repositories {
  import opened Types
  import opened ShardState

  class Shard {
    var now: Time
    var orders: map<OrderId, Order>
    var awaitingInit: set<OrderId>
    var sessions: seq<Session>
    var webhookEvents: map<TxnId, WebhookRow>
    var reconciling: map<TxnId, Delivery>
    var ledger: map<LedgerKey, Tx>
    var balances: map<Account, int>
    var earnings: map<OrderId, Earning>
    var outbox: seq<Event>
    var reserved: map<OrderId, seq<Line>>
    var releases: map<OrderId, nat>
    var payouts: seq<Payout>

    constructor (t: Time)
      ensures Rows() == EmptyShard(t)
    {
      now, orders, awaitingInit, sessions, webhookEvents, reconciling := t, map[], {}, [], map[], map[];
      ledger, balances, earnings, outbox, reserved, releases, payouts := map[], map[], map[], [], map[], map[], [];
    }

    /** Everything the shard holds, as one value. */
    function Rows(): Db
      reads this
    {
      Db(now, orders, awaitingInit, sessions, webhookEvents, reconciling, ledger, balances, earnings, outbox, reserved,
        releases, payouts)
    }

    /** ROLLBACK to the rows the transaction began with. */
    method Rollback(saved: Db)
      modifies this
      ensures Rows() == saved
    {
      now, orders, awaitingInit, sessions := saved.now, saved.orders, saved.awaitingInit, saved.sessions;
      webhookEvents, reconciling, ledger := saved.webhookEvents, saved.reconciling, saved.ledger;
      RestoreMoney(saved);
    }

    method RestoreMoney(saved: Db)
      modifies `balances, `earnings, `outbox, `reserved, `releases, `payouts
      ensures balances == saved.balances && earnings == saved.earnings && outbox == saved.outbox
      ensures reserved == saved.reserved && releases == saved.releases && payouts == saved.payouts
    {
      balances, earnings, outbox := saved.balances, saved.earnings, saved.outbox;
      reserved, releases, payouts := saved.reserved, saved.releases, saved.payouts;
    }

    /* ---- orders ---- */

    method UpdateOrderStatus(o: OrderId, st: Status, stamp: Option<Stamp>)
      requires o in orders
      modifies `orders
      ensures orders == old(orders)[o := WithStatus(old(orders)[o], st, stamp, now)]
    {
      orders := orders[o := WithStatus(orders[o], st, stamp, now)];
    }

    method UpdateOrderCommission(o: OrderId, commission: int)
      requires o in orders
      modifies `orders
      ensures orders == old(orders)[o := old(orders)[o].(commission := commission)]
    {
      orders := orders[o := orders[o].(commission := commission)];
    }

    /**
     The conditional claim: it wins exactly when the row is still ready and has no agent, and otherwise changes
     nothing.
     */
    method ClaimReadyOrderForAgent(o: OrderId, a: AgentId) returns (claimed: bool)
      modifies `orders
      ensures Rows() == ClaimReady(old(Rows()), o, a)
      ensures claimed <==> o in old(orders) && Claimable(old(orders)[o])
    {
      claimed := false;
      if o in orders && orders[o].status == Ready && orders[o].agent == None {
        orders := orders[o := orders[o].(status := Assigned, agent := Some(a),
          stamps := orders[o].stamps[AssignedAt := now])];
        claimed := true;
      }
    }

    /** Every order the agent only holds goes back to ready; a picked one never does. */
    method ReleaseAssignedOrdersToReady(a: AgentId)
      modifies `orders
      ensures Rows() == ReleaseAssigned(old(Rows()), a)
    {
      orders := map o | o in orders :: if HeldBy(orders[o], a) then Released(orders[o]) else orders[o];
    }

    /* ---- ledger, balances, earnings ---- */

    /** A plain INSERT: a duplicate idempotency key is an error. */
    method CreateTransaction(k: LedgerKey, tx: Tx) returns (ok: bool)
      modifies `ledger
      ensures ok <==> k !in old(ledger)
      ensures ledger == if ok then old(ledger)[k := tx] else old(ledger)
    {
      ok := k !in ledger;
      if ok {
        ledger := ledger[k := tx];
      }
    }

    /** ON CONFLICT (idempotency_key) DO NOTHING: the first row under a key stays. */
    method CreateTransactionIdempotent(k: LedgerKey, tx: Tx) returns (inserted: bool)
      modifies `ledger
      ensures inserted <==> k !in old(ledger)
      ensures ledger == InsertIdempotent(old(ledger), k, tx)
      ensures k in ledger
    {
      inserted := k !in ledger;
      if inserted {
        ledger := ledger[k := tx];
      }
    }

    method UpsertIncrement(a: Account, delta: int)
      modifies `balances
      ensures balances == old(balances)[a := BalanceOf(old(balances), a) + delta]
    {
      balances := balances[a := if a in balances then balances[a] + delta else delta];
    }

    /** The guard and the decrement are one UPDATE; the balance it leaves is never below zero. */
    method DecrementIfSufficient(a: Account, amount: int) returns (ok: bool)
      modifies `balances
      ensures ok <==> a in old(balances) && old(balances)[a] >= amount
      ensures ok ==> balances == old(balances)[a := old(balances)[a] - amount] && balances[a] >= 0
      ensures !ok ==> balances == old(balances)
    {
      ok := a in balances && balances[a] >= amount;
      if ok {
        balances := balances[a := balances[a] - amount];
      }
    }

    method InsertEarning(o: OrderId, e: Earning) returns (inserted: bool)
      modifies `earnings
      ensures inserted <==> o !in old(earnings)
      ensures earnings == if inserted then old(earnings)[o := e] else old(earnings)
    {
      inserted := o !in earnings;
      if inserted {
        earnings := earnings[o := e];
      }
    }

    /* ---- sessions, webhook events, outbox ---- */

    /** ORDER BY id DESC LIMIT 1 over the order's active sessions. */
    method FindActiveSession(o: OrderId) returns (r: Option<nat>)
      ensures r == FindActive(sessions, o)
    {
      r := FindActive(sessions, o);
    }

    method CreateSession(s: Session)
      modifies `sessions
      ensures sessions == old(sessions) + [s]
    {
      sessions := sessions + [s];
    }

    method UpdateSession(i: nat, status: SessionStatus)
      requires i < |sessions|
      modifies `sessions
      ensures sessions == old(sessions)[i := old(sessions)[i].(status := status)]
    {
      sessions := sessions[i := sessions[i].(status := status)];
    }

    /** ON CONFLICT (provider_id, provider_event_id) DO NOTHING. */
    method RecordWebhookOrSkip(txn: TxnId) returns (recorded: bool)
      modifies `webhookEvents
      ensures recorded <==> txn !in old(webhookEvents)
      ensures webhookEvents == if recorded then old(webhookEvents)[txn := WebhookRow(false, false)]
              else old(webhookEvents)
    {
      recorded := txn !in webhookEvents;
      if recorded {
        webhookEvents := webhookEvents[txn := WebhookRow(false, false)];
      }
    }

    method MarkWebhookProcessed(txn: TxnId, failed: bool)
      modifies `webhookEvents
      ensures webhookEvents == old(webhookEvents)[txn := WebhookRow(true, failed)]
    {
      webhookEvents := webhookEvents[txn := WebhookRow(true, failed)];
    }

    method InsertOutboxEvent(e: Event)
      modifies `outbox
      ensures outbox == old(outbox) + [e]
    {
      outbox := outbox + [e];
    }

    /* ---- calls to the core service ---- */

    method ReserveStock(o: OrderId, lines: seq<Line>)
      modifies `reserved
      ensures reserved == old(reserved)[o := lines]
    {
      reserved := reserved[o := lines];
    }

    method ReleaseStock(o: OrderId)
      modifies `releases
      ensures releases == Bump(old(releases), o)
    {
      releases := releases[o := 1 + if o in releases then releases[o] else 0];
    }
  }
}
