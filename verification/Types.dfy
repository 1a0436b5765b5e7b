/** Rows and identifiers of one region's shard, as the order, payment and finance repositories store them. */
module Types {

  datatype Option<+T> = None | Some(value: T)

  type OrderId = nat           // stands for orders.public_id, a UUID, and for orders.id
  type TxnId = nat             // stands for the provider's transactionId
  type AgentId = nat
  type RestaurantId = nat
  type UserId = nat
  type BranchId = nat
  type Currency = nat          // stands for a currency code
  type Time = int              // milliseconds on the database clock

  datatype PaymentMethod = Online | Cod

  datatype Status =
    | PendingPayment | Placed | Accepted | Rejected | Preparing
    | Ready | Assigned | Picked | Delivered | Cancelled

  /** The nullable timestamp columns of `orders`. */
  datatype Stamp = AcceptedAt | RejectedAt | ReadyAt | AssignedAt | PickedAt | DeliveredAt | CancelledAt

  datatype Line = Line(product: nat, quantity: nat, unitPrice: nat)

  datatype Order = Order(
    restaurant: RestaurantId,
    owner: UserId,
    branch: BranchId,
    customer: UserId,
    payment: PaymentMethod,
    currency: Currency,
    subtotal: nat,
    deliveryFee: nat,
    serviceFee: nat,
    total: nat,
    commission: int,
    status: Status,
    agent: Option<AgentId>,
    createdAt: Time,
    stamps: map<Stamp, Time>)

  datatype SessionStatus =
    | Initialized | AwaitingPayer | Authorized | Captured | SessionFailed | Expired | SessionCancelled

  /** A row of `payment_sessions`; its bigserial id is its position in the table. */
  datatype Session = Session(order: OrderId, amount: nat, currency: Currency, status: SessionStatus)

  datatype TxType = Charge | Refund | Commission | PayoutTx | CodCollection | ServiceFee | DeliveryFee | Adjustment

  datatype TxStatus = TxPending | Succeeded | Failed | Reversed

  /** A row of `transactions` without its key; the amount is positive and the direction is in the type. */
  datatype Tx = Tx(
    kind: TxType,
    order: Option<OrderId>,
    status: TxStatus,
    amount: int,
    currency: Currency,
    src: Option<UserId>,
    dst: Option<UserId>)

  /** Primary key of `restaurant_balances`. */
  datatype Account = Account(restaurant: RestaurantId, currency: Currency)

  datatype Earning = Earning(agent: AgentId, amount: int, currency: Currency)

  /** A row of `payment_webhook_events`: processed_at and process_error. */
  datatype WebhookRow = WebhookRow(processed: bool, failed: bool)

  /** The parsed envelope of one webhook delivery. */
  datatype Delivery = Delivery(isPay: bool, order: OrderId, success: bool)

  /** Rows of `events_outbox` that the order and payment services insert. */
  datatype Event =
    | OrderPlaced(order: OrderId)
    | OrderAccepted(order: OrderId)
    | OrderRejected(order: OrderId)
    | OrderCancelled(order: OrderId)
    | OrderDelivered(order: OrderId, commission: int)
    | PaymentCompleted(order: OrderId, txn: TxnId)
    | PaymentFailed(order: OrderId, txn: TxnId)

  /**
   The unique `idempotency_key` column of `transactions`, read by its prefix: cod-collect:, commission:,
   service-fee:, delivery-fee: and kashier: are derived by the services, anything else is a client's header.
   A client may send any header, so a payout may carry any of these keys.
   */
  datatype LedgerKey =
    | CodCollectKey(order: OrderId)
    | CommissionKey(order: OrderId)
    | ServiceFeeKey(order: OrderId)
    | DeliveryFeeKey(order: OrderId)
    | KashierKey(txn: TxnId)
    | ClientKey(header: nat)

  /** One accepted payout: which restaurant it was taken from, which its ledger row does not record. */
  datatype Payout = Payout(account: Account, amount: nat, key: LedgerKey)
}
