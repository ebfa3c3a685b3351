/** The rows of the order, payment and inventory tables. */
module OrderTypes {
  import opened Wrappers

  /** A ULID. The protocol only ever compares ids for equality. */
  type Id = nat

  /** A variant's ULID, as its rank in the collation that orders a deduction. */
  type VariantId = nat

  /** The unique key of a branch_product_stocks row. */
  datatype Key = Key(branch: Id, variant: VariantId)

  datatype OrderStatus =
    | PendingPayment | PaymentFailed | Pending | Confirmed | Packing
    | Shipping | Completed | Cancelled | Returned

  datatype PaymentMethod = Cod | Vnpay

  datatype PaymentStatus =
    | Unpaid | PayPending | PayPaid | PayFailed | PayExpired | PayRefunded | PayCancelled

  datatype AttemptStatus = TxPending | TxPaid | TxFailed | TxCancelled | TxExpired

  /** An order line. The foreign key to the variant is nullable. */
  datatype Item = Item(variant: Option<VariantId>, quantity: int)

  /** The three stock timestamps and the receipt timestamp are only ever tested for presence. */
  datatype Order = Order(
    user: Id,
    branch: Id,
    key: Id,
    status: OrderStatus,
    items: seq<Item>,
    total: int,
    stockDeducted: bool,
    stockRestored: bool,
    received: bool)

  datatype Payment = Payment(paymentMethod: PaymentMethod, status: PaymentStatus, amount: int)

  /** A payment_transactions row: one VNPAY attempt and the stock it holds. */
  datatype Attempt = Attempt(
    order: Id,
    key: Id,
    status: AttemptStatus,
    amount: int,
    createdAt: int,
    expiresAt: int,
    reserved: bool,
    released: bool,
    consumed: bool)

  datatype MovementKind = Adjusted | Deducted | Restored

  /** source_type and source_id: a COD order or an attempt both write ORDER with their own id. */
  datatype Source = FromOrder(id: Id) | FromAdjustment(id: Id)

  datatype Movement = Movement(
    key: Key,
    kind: MovementKind,
    change: int,
    before: int,
    after: int,
    source: Source)

  datatype HistoryEntry =
    | StatusChanged(order: Id, from: Option<OrderStatus>, to: OrderStatus)
    | ReceiptConfirmed(order: Id)

  /** The statuses in which the goods have left, or are leaving, for good. */
  predicate Live(status: OrderStatus)
  {
    status in {Pending, Confirmed, Packing, Shipping, Completed}
  }

  /** A hold that cancellation, failure and expiry may still release. */
  predicate Active(a: Attempt)
  {
    a.reserved && !a.released && !a.consumed
  }
}
