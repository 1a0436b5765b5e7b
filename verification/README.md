# A verified model of the food-order service

The service takes food orders, charges or collects the money, hands orders to delivery agents, and
keeps its tables small and its events flowing in the background. Its correctness rests on a handful of
small protocols over Postgres rows, Redis keys and a message broker. This project models six of them in
Dafny and proves what they keep, over every run and every interleaving the model allows.

| part of the system | files |
|---|---|
| rows, the status table, and every transaction of one shard as a function on its rows | `Types`, `OrderStatus`, `ShardState`, `Sums` |
| what each of those transactions writes, column by column | `Effects` |
| runs of those transactions: order rows, payments, money, ledger, stock | `OrderRuns`, `Payments`, `Money`, `Ledger`, `Stock` |
| runs in which those fail to do what they should | `FailingRuns` |
| payout transactions interleaved statement by statement | `PayoutRuns` |
| the repositories and services as written, statement by statement, with rollback | `Repositories`, `Services`, `Placement` |
| offers and claims: the calls, and the machine that interleaves their commands | `AssignmentService`, `AssignmentRuns` |
| the archival job: the stores, the batch loop and table walk, many workers at once, their order of tables, and the year turns and updates they bear | `ArchivalStore`, `Archiver`, `ArchivalRuns`, `ArchivalFamilies`, `ArchivalTurns`, `ArchivalUpdates`, `IdOrder` |
| the outbox: one drain pass, and many passes at once | `Outbox`, `OutboxRuns` |
| keyset pagination, its cursor strings, the walk along them, and the hot/archive merge | `Cursors`, `Pagination`, `CursorWalk`, `CrossCluster` |
| the webhook signature payload | `Signature` |

The code that works by changing rows is written as methods of classes (`Shard`, `Cache`, `Region`, `Queue`)
and each method's contract equates the state it leaves with a function of the state it found. The
theorems are about those functions, folded over runs of any length. `Effects` says what each function writes in
terms of the tables alone, so that no theorem rests on a definition nothing else pins down.

## How to read a run

`ShardState.Run(t0, ops)` folds any sequence of committed transactions over an empty shard; a refused
transaction leaves the shard as it was. A service call's read-and-check and its write are one step, as
are the statements of one database transaction. Where the source puts the guard inside a statement, or
relies on commit order, the steps are split: the commands of claim, admin assignment and reject against
Redis (`AssignmentRuns`), the decrement and insert of a payout (`PayoutRuns`), the two commits of an
archival batch (`ArchivalRuns`), and single publishes (`OutboxRuns`). `ProjectsToRun` and
`PayoutsAreSerial` show that the split machines commit a `Run`, so what is proved of runs holds of them.

## What the proofs found

Each of these is a place where the code does less than its documentation or its own comments say. The
model follows the code, a lemma gives the exact condition, and where the failure takes a run to happen
another lemma gives one from the empty start.

- **A failed webhook is not retried.** The dedupe row is committed before reconciling
  (kashier-webhook.service.ts:62-84), so the provider's retry is acknowledged as a duplicate and dropped,
  although docs/api-contracts.md:310 and docs/business-logic/payments.md:89 rely on it
  (`Payments.SpentForever`). In `FailingRuns.CaptureNeverBooked` a captured payment is never booked and its
  order stays pending, whatever redeliveries follow.
- **Picked to delivered without settlement.** The status endpoint accepts that edge from the order's own
  agent, against the comment at order-status.service.ts:15. In every run each balance falls short of its
  deliveries by exactly the subtotals of the deliveries that went that way (`Money.BalanceWithBypasses`), so
  it is right exactly when those were all zero (`Money.ConservedIff`). `FailingRuns.BypassedDelivery` is a
  run in which it is not.
- **Keys taken by a payout.** The ledger's unique key is shared by keys the settlement derives and keys a
  client sends. A payout under `commission:<id>` keeps that order's commission row out. For every run and
  whatever keys payouts carry, `Ledger.SettledReconciles` says by how much the rows of a settled order are
  off and `Ledger.ReconcilesIff` when they are right; `Ledger.SettlementReconciles` says it before the
  settlement, and `Ledger.TakenKeyBreaksReconciliation` goes on from any run to one where they are wrong, as
  `FailingRuns.TakenKey` does from the empty shard. The balances are right in any case.
- **Stock released twice.** It happens in two ways and no other (`Stock.SecondReleaseIff`). The customer
  cancels while the payment session is being opened and that call then fails
  (`FailingRuns.CancelledThenFailed`). Or the void of a failed call fails too, which the service swallows:
  the order stays pending with its stock given back, and cancelling it gives the stock back again
  (`Stock.StrandedThenCancelled`).
- **Stock never released.** The release call follows the commit. When the processes that were to make it die
  in between, stock that is due back stays reserved, and in no other case (`Stock.HeldDespiteDeaths`);
  `FailingRuns.CancelledAndHeld` is such a run.
- **Millisecond cursors.** Timestamps have microseconds, cursors milliseconds. `Pagination.AscendingTimes`
  and `DescendingTimes` say exactly for which tables every page size is right.
- **Ids with bars.** A cursor decodes to what was encoded exactly when the id neither starts with a bar nor
  holds two in a row (`Cursors.CursorRoundTrip`).
- **hasMore after a merge.** The merged first page is right, its hasMore is wrong exactly when one cluster
  fills the page alone and the other is empty (`CrossCluster.MergedIsFirstPage`).
- **New year during an archival run.** The cutoff is read per batch. If the year turns while a worker is past
  a table, the worker can archive an order before that table's rows of the order. The turn is harmless exactly
  when the new cutoff, or one that was in force before, parts every row a worker has passed from every order
  the turn makes prior, and every row left from the orders that workers past their deadline still come to,
  each with the one batch it is about to select (`ArchivalTurns.TurnHarmlessIff`). So it is while workers are
  stopped, still at the first table, or past their deadline between batches (`ArchivalFamilies.IdleTurn`).
  `ArchivalTurns.TurnBreaksOrder` is a run from the start in which it is not.
- **Updates of archived rows.** A row that is copied and not yet deleted can still be updated. An update that
  changes it may be lost exactly when an older version of the row is in the archive, whichever worker put it
  there and died, or in a worker's hands (`ArchivalUpdates.UpdateLostIff`). `ArchivalUpdates.UpdateLost` is
  such a run.
- **A payment session that cannot be opened** cancels the order (order.service.ts:196-200), where
  docs/business-logic/orders.md:105 says that it stays in pending_payment.

## Model

| member | source | states |
|---|---|---|
| `OrderStatus.AssertTransition` | src/app/order/service/order-status.service.ts:60-78 | A transition is let through only along an edge of the table and never out of a terminal status; a customer cancels a placed order only before acceptance and within the minute. |
| `OrderStatus.WhoMayDrive` | src/app/order/service/order-status.service.ts:19-78 | Actor by actor, exactly which status changes the guard lets through, with which reason and in which window. |
| `OrderStatus.WhyRefused` | src/app/order/service/order-status.service.ts:60-78 | Which error a refusal carries: a missing reason exactly on the edges that need one, the expired window exactly for a customer with a reason who is late or after acceptance, and otherwise the invalid transition. |
| `OrderStatus.ResolveStatusActor` | src/app/order/service/order.service.ts:501-514 | No caller counts as the system; whoever counts as the agent or the customer is that order's own. |
| `OrderStatus.WhoCounts` | src/app/order/service/order.service.ts:501-514 | Each actor class exactly: an admin by role, the agent who holds the order, a member of its restaurant who owns it or has its branch, and its customer unless the role is one of the others. |
| `OrderStatus.TableIsAcyclic` | src/app/order/service/order-status.service.ts:19-48 | Every edge climbs in rank, and exactly rejected, delivered and cancelled have no way out. |
| `ShardState.FindActive` | src/app/payment/repository/payment-session.repo.ts:65-73 | The session found is an active one of the order with none later, and none is found only if none is active. |
| `Effects.FindsLatestOpen` | src/app/payment/repository/payment-session.repo.ts:65-73 | The session found is the order's initialised or awaiting one with the highest id, and one is found iff there is one. |
| `Effects.LinesAddUp` | src/app/order/service/order.service.ts:107-107 | A subtotal is additive over the lines, and of one line price times quantity. |
| `Effects.PlacementWrites` | src/app/order/service/order.service.ts:107-177 | A placement that commits writes the draft's columns, subtotal plus delivery fee plus 1000 as the total, pending or placed by payment method, one reservation, and order.placed for cash only. |
| `Effects.FailedPlacementWrites` | src/app/order/service/order.service.ts:178-182 | One that fails leaves the reservation and one release call more, and no order. |
| `Effects.SessionOpens` | src/app/payment/service/payment.service.ts:57-95 | A session is stored for the order's total and currency when none is open. |
| `Effects.SessionReused` | src/app/payment/service/payment.service.ts:46-55 | An open session is used again and nothing is stored. |
| `Effects.SessionFails` | src/app/order/service/order.service.ts:196-228 | When the provider refuses, stock is released and the order is cancelled with its time, unless the void fails. |
| `Effects.DeliveryRecorded` | src/app/payment/service/kashier-webhook.service.ts:61-68 | A new event gets an unprocessed row, a known one changes nothing. |
| `Effects.DeliveryBooked` | src/app/payment/service/kashier-webhook.service.ts:86-246 | A pay event of a known order with an open session, under a new key, whose transaction commits, is booked whatever its status: the latest open session is captured or failed, one charge of its amount and currency from the customer, to the owner on success alone, its event, and the placement of a pending order on success. |
| `Effects.DeliveryNotBooked` | src/app/payment/service/kashier-webhook.service.ts:70-111 | Everything else books nothing, and is marked with an error exactly when it found its session. |
| `Effects.DyingWritesNothing` | src/app/payment/service/kashier-webhook.service.ts:61-84 | A process that dies between the two commits leaves the event's row unprocessed and everything else as it was. |
| `Effects.EveryEdgeStamps` | src/app/order/service/order-status.service.ts:19-48 | Every edge of the table stamps the column of its target status. |
| `Effects.StatusWrites` | src/app/order/service/order.service.ts:374-421 | A permitted status change writes target, that column, its event, and one release call exactly when the order is cancelled or rejected before the kitchen started. |
| `Effects.RefusedStatusWritesNothing` | src/app/order/service/order.service.ts:366-379 | A change the guard or the caller's part in the order does not permit writes nothing. |
| `Effects.ClaimWrites` | src/app/order/repository/order.repo.ts:148-164 | A claim of a ready, unassigned order sets status, agent and assigned_at; any other claim writes nothing. |
| `Effects.ReleaseWrites` | src/app/order/repository/order.repo.ts:170-183 | Every order the agent is only assigned to is ready again without agent and assigned_at; every other row stays. |
| `Effects.PickUpWrites` | src/app/agent/service/agent.service.ts:39-70 | Exactly the assigned order of that agent becomes picked, with its time. |
| `Effects.SettlementDelivers` | src/app/agent/service/settlement.service.ts:71-78 | The commission is the whole number c with c * 10000 <= subtotal * bps < (c + 1) * 10000; it is on the delivered row and in the event. |
| `Effects.SettlementPaysRestaurant` | src/app/agent/service/settlement.service.ts:157-166 | The restaurant's account moves by subtotal minus that commission, and no other account moves. |
| `Effects.SettlementPaysAgent` | src/app/agent/service/settlement.service.ts:168-175 | The first settlement of an order earns the agent the whole part of the delivery fee at the share rate. |
| `Effects.SettlementBooksFees` | src/app/agent/service/settlement.service.ts:98-155 | Commission, service fee and delivery fee are booked from the owner to the platform, each unless it is zero or its key is taken. |
| `Effects.SettlementBooksCash` | src/app/agent/service/settlement.service.ts:80-96 | A cash order's total is booked from the customer to the owner; rows already there stay and no fifth row comes in. |
| `Effects.UnsettledWritesNothing` | src/app/agent/service/settlement.service.ts:53-61 | A settlement of an order that this agent has not picked up writes nothing. |
| `Effects.PayoutWrites` | src/app/finance/service/finance.service.ts:47-71 | A payout with a covered amount and a new key takes the amount from the account and writes one row to the owner; any other writes nothing. |
| `Effects.NoOwnerNoPayout` | src/app/finance/service/finance.service.ts:38-46 | A restaurant without an owner on record is paid nothing. |
| `OrderRuns.UpdateStatusRow` | src/app/order/service/order.service.ts:374-384 | An accepted status change writes the target with its edge's stamp to that row alone; a refused one writes nothing. |
| `OrderRuns.ReconcileRow` | src/app/payment/service/kashier-webhook.service.ts:157-158 | A reconcile changes at most one order, from pending_payment to placed. |
| `OrderRuns.StepRow` | src/app/order/repository/order.repo.ts:148-221 | No transaction of the shard loses an order row, and each gives it one of five writes: none, a table edge, a claim, a release, or a void of an already cancelled order. |
| `OrderRuns.StepNewRow` | src/app/order/repository/order.repo.ts:79-106 | An order row appears only by placement, with the money and status placement gives it. |
| `OrderRuns.RunKeepsInitWindow` | src/app/order/service/order.service.ts:184-202 | While its payment session is awaited, an online order is pending or cancelled and has no session. |
| `OrderRuns.StepFollowsTable` | src/app/order/service/order-status.service.ts:19-48 | In every run each writer follows the transition table, goOffline's assigned to ready being the one other edge, and leaves terminal orders alone. |
| `OrderRuns.AgentNeverOverwritten` | src/app/order/repository/order.repo.ts:148-164 | A non-null agent is never replaced: a claim of a ready, unassigned order sets it, and only that agent going offline clears it. |
| `OrderRuns.RunKeepsOrders` | src/app/order/repository/order.repo.ts:199-221 | Every reachable row has the total its parts make, an agent and assigned_at exactly when its status calls for them, stamps that match its status, and stamps in stage order. |
| `OrderRuns.ChangesBounded` | src/app/order/service/order-status.service.ts:19-48 | An order changes status at most 7 + 2k times, k counting goOffline's releases of it. |
| `OrderRuns.TerminalForever` | src/app/order/service/order-status.service.ts:19-48 | Delivered, rejected and cancelled are kept for the rest of any run. |
| `OrderRuns.StampIffStageReached` | src/app/order/repository/order.repo.ts:203-221 | Each stamp but assigned_at is set iff the order was in that stage at some point of the run. |
| `OrderRuns.CancelledNeverPicked` | src/app/order/service/order-status.service.ts:41-47 | A cancelled order was never picked up or delivered. |
| `OrderRuns.BuildHistory` | src/app/order/dto/order.response.dto.ts:178-199 | The history holds exactly one entry per stage with a time, in stage order, and for every reachable row that is non-decreasing time order, also after release and reassignment. |
| `Payments.SessionChange` | src/app/payment/repository/payment-session.repo.ts:75-88 | A session row is never lost, and changes only from active to captured or failed by a reconcile. |
| `Payments.ClosedForever` | src/app/payment/service/kashier-webhook.service.ts:115-205 | A captured or failed session keeps that status for the rest of any run. |
| `Payments.LedgerAppendOnly` | src/app/payment/repository/transaction.repo.ts:48-97 | No transaction changes or removes a ledger row, and a charge appears only with the reconcile that closes its session. |
| `Payments.ReconcileLedger` | src/app/payment/service/kashier-webhook.service.ts:121-134 | A reconcile adds no row or one, the session's charge under the event's key. |
| `Payments.CapturedStep` | src/app/payment/service/kashier-webhook.service.ts:115-119 | An order has a captured session after a step iff it had one or the step books a successful delivery for it. |
| `Payments.FirstCapture` | src/app/payment/service/kashier-webhook.service.ts:115-134 | A capture is always the order's first, books its total, and finds it not yet charged. |
| `Payments.RunKeepsPayments` | src/app/payment/service/kashier-webhook.service.ts:86-246 | In every run sessions, charges and order status agree: an online order is past pending_payment and not cancelled only with a captured session, and each captured session has its charge. |
| `Payments.AtMostOneCapture` | src/app/payment/service/kashier-webhook.service.ts:115-158 | In every run of deliveries, replays and fresh transaction ids an order has at most one succeeded charge, and it is for the order's total. |
| `Payments.PlacedIsCharged` | src/app/payment/service/kashier-webhook.service.ts:121-158 | An online order that was ever placed has exactly one succeeded charge, of its total. |
| `Payments.PlacedEventStep` | src/app/order/service/order.service.ts:168-175 | order.placed enters the outbox in the transaction that makes the order placed, and in no other. |
| `Payments.OnePlacedEvent` | src/app/payment/service/kashier-webhook.service.ts:157-189 | The outbox holds exactly one order.placed for an order that was ever placed and none for any other. |
| `Payments.RunRecordsDeliveries` | src/app/payment/service/kashier-webhook.service.ts:62-68 | Whatever is being reconciled was recorded first. |
| `Payments.SpentForever` | src/app/payment/service/kashier-webhook.service.ts:61-84 | Once a recorded event is no longer in progress, no further delivery of it changes the shard, whether its reconcile committed, rolled back or died. |
| `Payments.BooksAtMostOnce` | src/app/payment/service/kashier-webhook.service.ts:61-84 | Over any interleaving one provider event is booked at most once. |
| `Money.TotalSplits` | src/app/agent/service/settlement.service.ts:71-72 | With both rates between 0 and 10000 bps, a total splits exactly into restaurant net, commission, service fee, agent earning and a platform rest that is not negative. |
| `Money.BpsBounds` | src/app/agent/service/settlement.service.ts:71-72 | A share at a rate between 0 and 10000 bps lies between zero and the amount. |
| `Money.RoundingBound` | src/app/agent/service/settlement.service.ts:71-71 | For n deliveries at any one rate, the commission of the summed subtotal exceeds the summed commissions by 0 to n - 1 minor units. |
| `Money.RunKeepsEarnings` | src/app/agent/service/settlement.service.ts:168-178 | In every run earnings belong to delivered orders and their agents, and an order without one has no commission. |
| `Money.BooksAlwaysKept` | src/app/agent/service/settlement.service.ts:157-166 | In every run, at any rates and however orders are delivered, each balance is the sum of subtotal minus commission over its settled orders, minus its payouts. |
| `Money.BalanceWithBypasses` | src/app/order/service/order.service.ts:365-384 | In every run a balance is what all its delivered orders should have left, minus its payouts, minus exactly the subtotals of the deliveries that bypassed settlement. |
| `Money.ConservedIff` | src/app/order/service/order.service.ts:365-384 | A balance accounts for all its delivered orders iff each of them that bypassed settlement had a zero subtotal. |
| `Money.BalancesConserved` | src/app/agent/service/settlement.service.ts:157-166 | In every run that delivers only through settlement, each balance is the sum of subtotal minus commission over its delivered orders, minus its payouts. |
| `Money.BypassBreaksConservation` | src/app/order/service/order.service.ts:365-384 | One such delivery keeps the account right iff the subtotal is zero. |
| `Money.SettleKeepsFloor` | src/app/finance/repository/restaurant-balance.repo.ts:41-55 | A settlement keeps balances non-negative iff the account covers what the commission exceeds the subtotal by, and so always for rates in 0 to 10000. |
| `Money.NeverOverdrawn` | src/app/finance/repository/restaurant-balance.repo.ts:62-75 | No run of settlements at sane rates and payouts overdraws a balance. |
| `Money.RunPayoutsMatch` | src/app/finance/service/finance.service.ts:38-78 | Committed decrements and payout rows of the ledger are in one-to-one correspondence, with the same amount and currency. |
| `Money.UsedKeyNeverPays` | src/app/finance/service/finance.service.ts:57-70 | A payout under a key already in the ledger changes nothing, then or after any further run. |
| `Money.EarningsConserved` | src/app/agent/repository/agent-earning.repo.ts:31-47 | Exactly the delivered orders have an earning row, for the agent who delivered them. |
| `Ledger.SettledFormula` | src/app/agent/service/settlement.service.ts:80-155 | The ledger net of an order after settlement, row by row, a skipped zero row and a taken key included. |
| `Ledger.SettlementReconciles` | src/app/agent/service/settlement.service.ts:80-155 | From any run, a settlement that leaves the restaurant nothing or more reconciles in the ledger iff none of the keys it needs is taken, or all of them are and a cash order left nothing. |
| `Ledger.TakenKeyBreaksReconciliation` | src/app/finance/service/finance.service.ts:57-70 | After any run, a payout under an order's commission key is accepted and leaves its settlement unreconciled. |
| `Ledger.RunKeepsLedger` | src/app/agent/service/settlement.service.ts:71-178 | In every run, whatever keys payouts carry, each order's ledger rows come to what was charged or collected minus commission and fees, each left out exactly when a payout holds its key. |
| `Ledger.SettledReconciles` | src/app/agent/service/settlement.service.ts:71-178 | In every run the rows of a settled order, paid either way, come to subtotal minus commission, off by exactly the rows whose keys payouts hold and by a negative commission. |
| `Ledger.ReconcilesIff` | src/app/agent/service/settlement.service.ts:80-155 | With a commission from nothing to the whole subtotal, a settled order reconciles iff payouts hold none of the keys it needed, or hold all of them and a cash order left nothing. |
| `Ledger.LedgerAccountsForBalances` | src/app/agent/service/settlement.service.ts:71-178 | In every run each balance equals, over its settled orders, charge or cod_collection minus commission, service_fee and delivery_fee rows, minus the payouts, off by those same amounts alone. |
| `Ledger.DisciplinedLedger` | src/app/agent/service/settlement.service.ts:71-178 | Where payouts carry keys of their own and rates are not negative, there is nothing to be off by. |
| `Ledger.CurrencyBooksBalance` | src/app/finance/service/finance.service.ts:38-78 | In every run, per currency, all balances together equal all settled net amounts minus the payout rows of the ledger. |
| `Stock.ReleaseCountStep` | src/app/order/service/order.service.ts:405-421 | A step releases an order's stock once or not at all, and reserves it only by placement. |
| `Stock.StockConserved` | src/app/order/service/order.service.ts:192-228 | In every run, whichever calls fail, the release call has been made for reserved stock iff placement rolled back, the order ended before preparing was ever reached, or a failed void left it pending; and never more than twice. |
| `Stock.StockHeldIff` | src/app/order/service/order.service.ts:405-421 | No release call has been made for a known order iff the order neither ended before preparing was ever reached nor was left pending by a failed void. |
| `Stock.HeldDespiteDeaths` | src/app/order/service/order.service.ts:176-202 | Whichever processes die between their commit and their release call, reserved stock is held iff it is not due back or every process that was to release it died. |
| `Stock.KitchenHistory` | src/app/order/service/order.service.ts:552-560 | Unless an order is cancelled, its status tells whether preparing was ever reached. |
| `Stock.NoReleaseAfterKitchen` | src/app/order/service/order.service.ts:405-421 | Once preparing was reached the stock was never released and no step releases it. |
| `Stock.SecondReleaseIff` | src/app/order/service/order.service.ts:192-228 | In every run, released stock of a known order is released again iff payment initialisation fails for an order still awaited, or an order still pending is cancelled. |
| `Stock.StrandedThenCancelled` | src/app/order/service/order.service.ts:215-228 | A run in which the void fails, the order stays pending with its stock given back, and its customer cancels it: two releases. |
| `FailingRuns.BypassedDelivery` | src/app/order/service/order.service.ts:365-384 | A run from the empty shard in which an agent delivers a cash order through the status endpoint: it is never settled, and the restaurant's account is wrong. |
| `FailingRuns.CancelledThenFailed` | src/app/order/service/order.service.ts:184-202 | A run in which the customer cancels while the session is being opened and that call fails: two releases. |
| `FailingRuns.CancelledAndHeld` | src/app/order/service/order.service.ts:405-421 | A run in which the process that cancels an order dies before its release call: the stock is due back and held. |
| `FailingRuns.CaptureNeverBooked` | src/app/payment/service/kashier-webhook.service.ts:61-84 | A run in which the reconcile of a captured payment fails: whatever redeliveries follow, the order stays pending and the ledger empty. |
| `FailingRuns.TakenKey` | src/app/finance/service/finance.service.ts:57-70 | A run in which a payout takes the commission key of a second order, which is then settled and does not reconcile. |
| `PayoutRuns.CommitIsAtomic` | src/app/finance/service/finance.service.ts:47-71 | When an interleaved payout commits it does what it would have done in one step: its guards still hold. |
| `PayoutRuns.PayoutsAreSerial` | src/app/finance/service/finance.service.ts:47-71 | Payouts interleaved statement by statement with each other and with everything else commit a run of whole transactions. |
| `PayoutRuns.InterleavedPayouts` | src/app/finance/service/finance.service.ts:38-78 | Under any such interleaving no balance is overdrawn and each decrement has exactly its ledger row. |
| `Repositories.Shard.UpdateOrderStatus` | src/app/order/repository/order.repo.ts:203-221 | The unconditional status UPDATE writes that row's status and stamp and nothing else. |
| `Repositories.Shard.ClaimReadyOrderForAgent` | src/app/order/repository/order.repo.ts:148-164 | The claim wins iff the order is ready and unassigned, and otherwise writes nothing. |
| `Repositories.Shard.CreateTransaction` | src/app/payment/repository/transaction.repo.ts:48-66 | The insert succeeds iff the key is new, and never touches another row. |
| `Repositories.Shard.CreateTransactionIdempotent` | src/app/payment/repository/transaction.repo.ts:76-97 | The first row under a key stays, and afterwards there is one. |
| `Repositories.Shard.UpsertIncrement` | src/app/finance/repository/restaurant-balance.repo.ts:41-55 | The delta is added to the balance, or is the balance of a new row. |
| `Repositories.Shard.DecrementIfSufficient` | src/app/finance/repository/restaurant-balance.repo.ts:62-75 | The decrement happens iff the balance suffices, and leaves it non-negative. |
| `Repositories.Shard.InsertEarning` | src/app/agent/repository/agent-earning.repo.ts:31-47 | At most one earning per order; a second insert changes nothing. |
| `Repositories.Shard.FindActiveSession` | src/app/payment/repository/payment-session.repo.ts:65-73 | Finds the latest active session of the order. |
| `Repositories.Shard.UpdateSession` | src/app/payment/repository/payment-session.repo.ts:75-88 | Changes the status of that session only. |
| `Repositories.Shard.RecordWebhookOrSkip` | src/app/payment/repository/payment-webhook-event.repo.ts:36-50 | Records iff the event is new; a known event's row stays. |
| `Repositories.Shard.MarkWebhookProcessed` | src/app/payment/repository/payment-webhook-event.repo.ts:52-59 | Stamps that event's row with the outcome. |
| `Services.SettleDelivered` | src/app/agent/service/settlement.service.ts:48-218 | Succeeds iff the order is picked by this agent and the transaction commits, with the exact commission on the row; all settlement rows are written, or none; each of the four errors has its exact condition. |
| `Services.WriteSettlement` | src/app/agent/service/settlement.service.ts:76-201 | The statements of the transaction, in their order, leave the settled rows in each of the five tables. |
| `Services.BookSettlement` | src/app/agent/service/settlement.service.ts:80-155 | The ledger rows of a settlement, without zero rows. |
| `Services.Transition` | src/app/agent/service/agent.service.ts:39-70 | Picked and delivered go through exactly for the holding agent from the status before; each error has its exact condition and changes nothing. |
| `Services.GoOffline` | src/app/agent/service/presence.service.ts:55-70 | Refused iff the agent carries a picked order; otherwise its assigned orders are released. |
| `Services.LatestExists` | src/app/order/repository/order.repo.ts:114-121 | A restaurant with an order has a latest one. |
| `Services.FindOwnerIdForRestaurant` | src/app/order/repository/order.repo.ts:114-121 | Finds the owner of a latest order, and none iff the restaurant has no order. |
| `Services.RecordPayout` | src/app/finance/service/finance.service.ts:38-78 | Decrement and ledger row together, to the owner of a latest order, iff the balance suffices and the key is new; a refused payout leaves every row as it was, and each error has its exact condition. |
| `Services.ProcessKashierWebhook` | src/app/payment/service/kashier-webhook.service.ts:48-84 | A duplicate changes nothing; a new event is recorded, reconciled and stamped, and the call fails iff a new pay event found its order and session and then a taken key or its commit. |
| `Services.Reconcile` | src/app/payment/service/kashier-webhook.service.ts:86-246 | Session, charge row, events and placement together, or the shard as it was; it fails iff a pay event finds its order and an open session and the key is taken or the commit fails. |
| `Placement.ShortagesAre` | src/app/order/service/order.service.ts:440-451 | The refusal lists exactly the requested lines without an available product in stock, each with what there is; none are listed iff every line can be had. |
| `Placement.ShortagesInOrder` | src/app/order/service/order.service.ts:440-451 | They are listed in the order of the requested lines, one for each that cannot be had. |
| `Placement.LatestIsLast` | src/app/order/service/order.service.ts:437-438 | A product is looked up by its last entry, and not found only if it has none. |
| `Placement.LineIsLatest` | src/app/order/service/order.service.ts:440-461 | A line can be had iff that entry is available with enough in stock; it costs that entry's price, and a shortage names its stock, or zero when it is not on offer. |
| `Placement.IndexProducts` | src/app/order/service/order.service.ts:437-438 | Of several entries for one product the last one counts. |
| `Placement.BuildOrderLineDrafts` | src/app/order/service/order.service.ts:433-464 | Every requested line at the product's price, in order, iff every product is available and in stock; otherwise the complete list of shortages. |
| `Placement.PlaceOrder` | src/app/order/service/order.service.ts:81-202 | Each refusal exactly when its check is the first to fail, with the shard as it was; otherwise stock, order, event and payment session, with what fails undone; a created order carries the request, the branch's columns and fee, and the lines' total. |
| `Services.SumMinor` | src/app/order/service/order.service.ts:107-107 | The subtotal is the sum of price times quantity over the lines. |
| `Services.ReserveAndStore` | src/app/order/service/order.service.ts:110-202 | From the reservation on: the order, its event and its payment session in order; what fails is undone, down to the stock, and the error says which of the two failed. |
| `Services.InitOnlinePayment` | src/app/payment/service/payment.service.ts:42-95 | An active session is surfaced as it is, otherwise one for the order's total is stored; a provider failure stores nothing. |
| `Services.UpdateStatus` | src/app/order/service/order.service.ts:365-430 | Not found, not authorised, the guard's own refusal, and a failed commit, each exactly when it comes first; otherwise status, event and stock release are written. |
| `Services.CheckStatus` | src/app/order/service/order.service.ts:366-379 | Everything that may refuse a status change, in the order it is asked, and the stamp column when nothing does. |
| `AssignmentService.FindCandidates` | src/app/assignment/service/assignment.service.ts:261-281 | The front of the eligible agents in search order: all of them or as many as the limit, and one if the limit is below one. |
| `AssignmentService.EligibleKeepsOrder` | src/app/assignment/service/assignment.service.ts:271-280 | Exactly the online, not busy agents of the search are eligible, in the order found. |
| `AssignmentService.TryAssign` | src/app/assignment/service/assignment.service.ts:74-107 | Skips a live offer, stops at the attempts cap, counts an attempt otherwise, and stores the nearest eligible agents as the offer iff there are any. |
| `AssignmentService.Claim` | src/app/assignment/service/assignment.service.ts:141-198 | Each of its six replies exactly: Claimed iff the agent is on the offer, the lock is free, the transaction goes through and the row is ready without agent. Then row, lock, offer and busy mark are the agent's; otherwise nothing has changed. |
| `AssignmentService.AdminAssign` | src/app/assignment/service/assignment.service.ts:223-258 | The same from the lock on, whoever was offered the order: Claimed iff the lock is free, the transaction goes through and the row is ready without agent. |
| `AssignmentService.Reject` | src/app/assignment/service/assignment.service.ts:201-217 | The agent leaves the offer; an offer nobody is left on is deleted. |
| `AssignmentService.RejectShortens` | src/app/assignment/service/assignment.service.ts:206-216 | What is stored back has exactly the other agents of the old offer. |
| `AssignmentService.SoloClaim` | src/app/assignment/service/assignment.service.ts:141-198 | A claim thread of the machine that is never interrupted leaves what the call leaves and is answered the same. |
| `AssignmentService.SoloAdminAssign` | src/app/assignment/service/assignment.service.ts:223-258 | So does an admin assignment thread. |
| `AssignmentService.SoloReject` | src/app/assignment/service/assignment.service.ts:201-217 | So does a reject thread. |
| `AssignmentService.SoloAssign` | src/app/assignment/service/assignment.service.ts:74-107 | A tick that is never interrupted stores the agents found as the offer iff there are any and no offer is live. |
| `AssignmentRuns.ProjectsToRun` | src/app/assignment/service/assignment.service.ts:141-258 | However threads, expiries and deaths interleave, the database is a run of the shard. |
| `AssignmentRuns.WinnersWereOffered` | src/app/assignment/service/assignment.service.ts:143-154 | Every agent that wins through claim is on a list tryAssign offered for that order. |
| `AssignmentRuns.RunKeepsWins` | src/app/order/repository/order.repo.ts:148-164 | Wins of one order are for ever later stays in ready, and whoever holds an order won its current stay. |
| `AssignmentRuns.SingleWinner` | src/app/assignment/service/assignment.service.ts:141-258 | Each stay of an order in ready ends in at most one claim, with lock and offer keys vanishing at any time. |
| `AssignmentRuns.OneAnswered` | src/app/assignment/service/assignment.service.ts:141-258 | Whoever is answered Claimed won the order in a stay in which nobody else is answered Claimed, and holds it while that stay is the last. |
| `AssignmentRuns.HolderWonItsStay` | src/app/assignment/service/assignment.service.ts:141-258 | Whoever holds an order won its current stay, and was offered the order if it won through claim. |
| `ArchivalStore.PriorRows` | src/lib/jobs/archival.helpers.ts:46-50 | The rows selected are exactly the table's rows before the cutoff, in id order. |
| `ArchivalStore.InsertMembers` | src/lib/jobs/archival.helpers.ts:59-59 | A conflict-ignoring insert adds each new row once, adds nothing for a row already there, and keeps the archive free of duplicates. |
| `ArchivalStore.InsertInTwo` | src/lib/jobs/archival.helpers.ts:57-60 | Inserting in two batches is inserting at once. |
| `ArchivalStore.PriorAfterDelete` | src/lib/jobs/archival.helpers.ts:66-69 | Deleting a batch leaves exactly the other rows for the next SELECT. |
| `Archiver.MoveBatch` | src/lib/jobs/archival.helpers.ts:46-73 | One batch at the cutoff of its moment, archive first: after a failure at either commit it is in neither, or only copied. |
| `Archiver.MoveTableBatches` | src/lib/jobs/archival.helpers.ts:34-83 | Whatever fails and whenever the year turns, the rows moved are prior rows of the table and at most one batch more is copied; it ends, with the table empty of prior rows or the deadline passed, in ceil(moved / size) batches; in one year they are a front of the table in id order. |
| `Archiver.MovedCount` | src/lib/jobs/archival.helpers.ts:75-75 | The count of moved rows is what left hot. |
| `Archiver.BatchesKeepRows` | src/lib/jobs/archival.helpers.ts:57-73 | Wherever the batch loop was stopped, no row of any history is lost, changed or archived twice. |
| `Archiver.WalkTables` | src/lib/jobs/archival.worker.ts:105-115 | Tables are moved whole in order, each at the cutoffs of its batches; a deadline or failure stops the walk inside one of them, later ones untouched. It throws iff a transaction failed, has timed out iff its last look at the clock was past the deadline, and selects no batch after such a look. |
| `Archiver.RunArchivalForRegion` | src/lib/jobs/archival.worker.ts:89-130 | Without the lock nothing happens. A run throws iff a transaction failed and times out iff its last look at the clock was a runtime after its start; ending before that without a failure it leaves no row older than its first cutoff in any table. No row is lost, the totals are what left hot, and the lock is given back. |
| `Archiver.ReachesMoveTables` | src/lib/jobs/archival.worker.ts:105-115 | A completed walk in one year leaves the store that moving each table at once leaves. |
| `ArchivalRuns.NothingLost` | src/lib/jobs/archival.helpers.ts:44-80 | With any number of workers, no lock, deaths anywhere and any turns of the year, every row is in hot or archive as last written, and the archive holds prior rows only, one per key, unless an update changes a row of which an older version is about. |
| `ArchivalRuns.CurrentYearUntouched` | src/lib/jobs/archival.helpers.ts:46-50 | A row of the current year is in hot as last written, no version of it is archived or in hand, so it may be updated at any time. |
| `ArchivalRuns.Converges` | src/lib/jobs/archival.helpers.ts:34-83 | After any such history one run left alone divides the rows exactly at the cutoff, and the next SELECT of every table is empty. |
| `ArchivalFamilies.CarefulKeepsFamily` | src/lib/jobs/archival.worker.ts:105-115 | In every run with harmless turns, what a worker has passed and what is left beside an archived order is parted from the order by a cutoff that was in force, and so is what is left from the orders late workers come to. |
| `ArchivalFamilies.ChildrenBeforeParents` | src/lib/jobs/archival.worker.ts:9-12 | Once an order is archived, every row of the five earlier tables that no past cutoff parts from it, which is everything of its year, is archived and out of hot. |
| `ArchivalFamilies.ChildrenBeforeCutoff` | src/lib/jobs/archival.worker.ts:9-12 | With one cutoff: once an order is archived, every row of the five earlier tables before the cutoff is archived and out of hot. |
| `ArchivalTurns.DriveToOrders` | src/lib/jobs/archival.helpers.ts:44-80 | A worker that has passed a row, left alone, goes on to archive an order no cutoff parts from it. |
| `ArchivalTurns.DriveLate` | src/lib/jobs/archival.helpers.ts:44-80 | Workers past their deadline, left alone, take one batch each and archive an order within their reach that no cutoff parts from a row left in another table. |
| `ArchivalTurns.TurnHarmlessIff` | src/lib/jobs/archival.helpers.ts:48-48 | A turn of the year keeps that order in every careful continuation iff it parts what each worker has passed from the orders it makes prior, and what is left from the orders late workers come to. |
| `ArchivalTurns.TurnBreaksOrder` | src/lib/jobs/archival.helpers.ts:48-48 | A run from the start in which the year turns and an order is archived while its earning stays in hot. |
| `ArchivalUpdates.UpdateSurvivesIff` | src/lib/jobs/archival.helpers.ts:57-69 | An update that changes a prior row survives the next move of its table iff the archive holds no row under its key. |
| `ArchivalUpdates.UpdateLostIff` | src/lib/jobs/archival.helpers.ts:57-69 | In the machine of many workers such an update may be lost iff an older version of the row is archived or in a worker's hands. |
| `ArchivalUpdates.UpdateLost` | src/lib/jobs/archival.helpers.ts:57-69 | A run from the start: a worker dies between its two commits, the row is updated, and the next worker loses the update. |
| `Outbox.BatchRows` | src/lib/events/outbox.repo.ts:42-50 | A batch is the first undispatched, unlocked rows in id order, and all of them if it is shorter than the limit. |
| `Outbox.Queue.MarkDispatchedBatch` | src/lib/events/outbox.repo.ts:57-60 | Marks exactly the given rows. |
| `Outbox.Queue.MarkFailed` | src/lib/events/outbox.repo.ts:62-69 | Adds one attempt to that row and leaves it undispatched. |
| `Outbox.DrainOutboxForRegion` | src/lib/events/outbox-drain.ts:17-59 | Publishes the batch in order up to the first answer that is not a confirmation. Committed, a row is newly dispatched iff its publish was confirmed and has an attempt more iff it was not; rolled back, the table is as it was. The log has what the broker accepted. |
| `OutboxRuns.RunKeepsDrainOk` | src/lib/events/outbox-drain.ts:17-59 | Over every interleaving of passes: locks disjoint, and each row's confirmed publishes are those undone plus one if it is dispatched or held. |
| `OutboxRuns.PassesNeverShareARow` | src/lib/events/outbox.repo.ts:42-50 | Two passes never hold the same row, and a locked row is not dispatched. |
| `OutboxRuns.DispatchedWasPublished` | src/lib/events/outbox-drain.ts:38-55 | A dispatched row was published and confirmed once by a pass that stood. |
| `OutboxRuns.PublishedAgainOnlyWhenUndone` | src/lib/events/outbox-drain.ts:17-59 | A row is published only while all its earlier confirmations were undone by a rollback or a death. |
| `OutboxRuns.FailureEffect` | src/lib/events/outbox-drain.ts:45-54 | A failed publish leaves its row undispatched with one attempt more, dispatches the rows before it and leaves the later ones alone. |
| `OutboxRuns.SendEffect` | src/lib/events/outbox-drain.ts:37-50 | One publish step: the log grows unless the broker refused, the row counts as sent iff it confirmed, and any other answer ends the batch. |
| `OutboxRuns.SoloPass` | src/lib/events/outbox-drain.ts:17-59 | A pass nothing interleaves with leaves the rows, locks and log the drain method leaves for the same answers, committed or rolled back. |
| `OutboxRuns.OrderedDelivery` | src/lib/events/outbox-drain.ts:17-59 | With one drainer at a time and rows visible in id order, dispatched rows are a prefix of the outbox and first occurrences in the log are a prefix of it that contains that one. |
| `OutboxRuns.SecondDrainerOvertakes` | src/lib/events/outbox.repo.ts:42-50 | With a second drainer that order is lost: the second row is dispatched before the first is published. |
| `Cursors.LastSep` | src/lib/http/pagination/cursor-pagination.ts:62-66 | Finds the last separator, and none iff there is none. |
| `Cursors.CursorRoundTrip` | src/lib/http/pagination/cursor-pagination.ts:57-66 | decode(encode(v, id)) = (v, id) for every v, iff the id does not start with a bar and has no two in a row. |
| `Cursors.IdsWithoutBars` | src/lib/http/pagination/cursor-pagination.ts:45-55 | Every id without a bar, and so every bigserial, meets that condition. |
| `Cursors.NatRoundTrip` | src/lib/http/pagination/cursor-pagination.ts:57-60 | An id printed in decimals is read back, and holds digits only. |
| `Cursors.IdCursorRoundTrip` | src/lib/http/pagination/cursor-pagination.ts:57-66 | A cursor with a printed bigserial comes back whole whatever its sort value is, and is never the empty string. |
| `Cursors.PlainRoundTrip` | src/lib/http/pagination/cursor-pagination.ts:57-66 | A cursor without an id survives iff the value holds no separator. |
| `Pagination.PageIsStretch` | src/lib/http/pagination/cursor-pagination.ts:68-91 | The page query returns a stretch of the one sorted list, from where its cursor points. |
| `Pagination.ListOrder` | src/lib/http/pagination/cursor-pagination.ts:88-89 | That list is sorted by value and then by id, both ascending or both descending. |
| `Pagination.PageData` | src/lib/http/pagination/cursor-pagination.ts:128-154 | From a place in the list a page is the next limit rows; it has more iff rows are left, and then its cursor is the last row's value as printed and its id. |
| `Pagination.PageAt` | src/lib/http/pagination/cursor-pagination.ts:128-154 | From a boundary its cursor separates, the next page is the next rows of the list, and it is the last iff the list ends there. |
| `Pagination.WalkExactIff` | src/lib/http/pagination/cursor-pagination.ts:68-154 | For a page size, following nextCursor visits every row once in order and ends after max(1, ceil(n / limit)) pages, iff the cursor separates at each boundary between pages. |
| `Pagination.WholeValuesWalkExactly` | src/lib/http/pagination/cursor-pagination.ts:45-66 | If sort values survive the cursor, every walk is exact, ties included, in both directions. |
| `Pagination.AscendingTimes` | src/lib/http/pagination/cursor-pagination.ts:40-43 | Ascending by timestamp every page size is exact iff every row but the last is on a whole millisecond. |
| `Pagination.DescendingTimes` | src/lib/http/pagination/cursor-pagination.ts:40-43 | Descending, iff each row lies below its predecessor's time as the cursor prints it. |
| `IdOrder.RowsInProduct` | src/lib/http/pagination/cursor-pagination.ts:90-90 | n full pages hold n times limit rows. |
| `CursorWalk.SamePage` | src/lib/http/pagination/cursor-pagination.ts:68-154 | A request with a cursor string gets the page of the typed cursor it stands for, and hands out a string that stands for the next one. |
| `CursorWalk.FollowExactIff` | src/lib/http/pagination/cursor-pagination.ts:68-154 | Sending each answer's cursor string back visits every row once in order, iff what the database reads from the string separates at each boundary between pages. |
| `CursorWalk.IntegersFollowExactly` | src/lib/http/pagination/cursor-pagination.ts:141-147 | Sorted by an integer column that is always so, ties and negative values included. |
| `CursorWalk.TimesFollowExactly` | src/lib/http/pagination/cursor-pagination.ts:40-43 | Sorted by a timestamp printed to the millisecond, exactly for the tables that `Pagination.AscendingTimes` and `Pagination.DescendingTimes` name. |
| `CrossCluster.SwapSorted` | src/app/order/service/order.service.ts:317-321 | The stable sort puts the archived rows, listed second, in front when ascending. |
| `CrossCluster.UnionList` | src/app/order/service/order.service.ts:312-315 | The sorted union is one cluster's list after the other's. |
| `CrossCluster.MergedIsFirstPage` | src/app/order/service/order.service.ts:299-335 | The merged first page is the first limit rows of the union, although each source was cut to limit; hasMore is wrong iff one source overfills the page and the other is empty. |
| `Signature.EncodeURIComponent` | src/pkg/payments/kashier/kashier.signature.ts:25-25 | The encoded value never contains the separator. |
| `Signature.EncodedByte` | src/pkg/payments/kashier/kashier.signature.ts:25-25 | Letters, digits and the marks of encodeURIComponent stand for themselves; any other byte is a percent sign and two upper-case hexadecimal digits. |
| `Signature.EncodedInOrder` | src/pkg/payments/kashier/kashier.signature.ts:25-25 | Bytes are encoded one by one, in their order. |
| `Signature.EncodingRoundTrip` | src/pkg/payments/kashier/kashier.signature.ts:25-25 | Percent-encoding (section 2.1 of RFC 3986) can be undone for every byte sequence. |
| `Signature.SortedResult` | src/pkg/payments/kashier/kashier.signature.ts:20-21 | Sorting the names gives an ascending permutation of them. |
| `Signature.AtMostLexical` | src/pkg/payments/kashier/kashier.signature.ts:20-21 | The order sorted by is the lexical one: the first character that differs decides, and a front comes first. |
| `Signature.PayloadText` | src/pkg/payments/kashier/kashier.signature.ts:22-27 | A field is its name, an equals sign and its encoded value, or nothing after the sign when it is missing; fields are joined by an ampersand. |
| `Signature.PayloadIsSorted` | src/pkg/payments/kashier/kashier.signature.ts:20-27 | The payload is those fields in the sorted order of their names. |
| `Signature.PayloadCanonical` | src/pkg/payments/kashier/kashier.signature.ts:19-28 | The payload does not depend on the order of signatureKeys. |
| `Signature.ValuesReadBack` | src/pkg/payments/kashier/kashier.signature.ts:19-28 | Every signed value can be parsed back out of the payload. |
| `Signature.PayloadUnambiguous` | src/pkg/payments/kashier/kashier.signature.ts:19-28 | For one list of names, equal payloads mean equal stringified values. |

## Left out

- HTTP routes, validation, JWT, dependency injection, configuration, logging, caches of responses and socket messages: no state a property depends on. The permission lookup of a restaurant member is a parameter (`permitted`) of `Services.UpdateStatus`.
- Reads and checks of `updateStatus`, pickup, settlement and reconcile are one step with the writes they guard, although the source reads before it opens the transaction; two such calls racing on one order are not interleaved.
- Identifiers: an order's public id and row id are one number, ids are fresh, and a provider's transaction id is one number; `updated_at`, addresses and display columns are not modelled.
- Arithmetic is on mathematical integers. The JavaScript doubles are exact in the range of the INT columns; amounts beyond it are not modelled.
- `Money.RunPayoutsMatch`: a payout's ledger row records the owner and not the restaurant, so the model keeps the list of accepted payouts as history; `Ledger.CurrencyBooksBalance` does without it.
- `Money.BalancesConserved` and `Money.EarningsConserved` are for runs that deliver only through settlement; `Money.ConservedIff` is for all.
- `Stock.StockConserved`: counts release calls, which all carry the order's one idempotency key; what the core service does with a repeated key is not part of this model. Release calls are taken to succeed once made, and `Stock.HeldDespiteDeaths` has those that are never made; `Placement.PlaceOrder` has a refused reservation.
- `OrderRuns.StampIffStageReached`: not stated for assigned_at, which a release takes back; `OrderRuns.RunKeepsOrders` ties that stamp to the agent instead.
- `Placement.PlaceOrder`: what the core service answers (branch, address, products) is an input, and so is whether the region is known and takes online payments; a call to it that fails is not modelled.
- Restaurant rejection flags, refunds, session expiry and the cancelled session status: no code in the modelled files writes them.
- `AssignmentRuns.SingleWinner`: the interleaved machine has no attempts cap and takes the geosearch's result as arbitrary; the cap and the filters are in `AssignmentService.TryAssign`. The offer recorded is the one stored, before it is broadcast. The busy set is kept by the calls and has no invariant, because the source does not keep one. A process that has answered does not die any more, so that every answer of a run stays on record.
- `ArchivalRuns.NothingLost`: ids are not reused, and no update changes a row of which an older version is archived or in hand; `ArchivalUpdates.UpdateLostIff` says that nothing less will do. The re-stringified JSON columns are part of a row's content.
- `ArchivalFamilies.ChildrenBeforeParents`: rows carry a time of the current year when they are inserted, and turns of the year are harmless ones, as `ArchivalTurns.TurnHarmlessIff` defines them.
- `ArchivalUpdates.UpdateLostIff`: for a batch size above zero; with zero no row ever moves.
- `OutboxRuns.OrderedDelivery`: rows whose transactions commit out of id order, and a second drainer, are outside it; `OutboxRuns.SecondDrainerOvertakes` shows the latter.
- `Pagination.WalkExactIff`: for an integer limit of at least one and a table that does not change during the walk. The query parser lets a fractional limit through, which is not modelled. Filters and column names only choose the rows, and a cursor that holds no id, which no page of rows with ids produces, is answered by `CursorWalk.WantedBy`. A null in the sort column of a page's last row yields no cursor, which ends the walk; rows here have values. The calendar text of a timestamp is a parameter; the theorems use that it is read back cut to the millisecond.
- `CrossCluster.MergedIsFirstPage`: for a list sorted by creation time, and the first page only; the source calls later pages best-effort. The merge sorts by createdAt whatever column the caller names, so for another column its page is not the first one by that column.
- `Signature.SortedResult` orders names by code point (`Signature.AtMostLexical`) where JavaScript compares UTF-16 units; the other theorems need only that the order is total. The HMAC itself (RFC 2104) and values with lone surrogates are left out.
- tickRegion's loop over the ready orders of a region: each order goes through `AssignmentService.TryAssign` on its own.
- `Services.SettleDelivered`: after the commit the source also clears the agent's busy mark and deletes the claim key, which the interleaved machine covers as a key that vanishes.
- The idempotency middleware, the list endpoints of agents and the finance read endpoints: they read or replay, and change none of the rows modelled here.
