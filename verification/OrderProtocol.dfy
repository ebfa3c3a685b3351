/**
 The order, payment and stock protocol as functions from one database state to the next.
 Each function is one serializable transaction with the reads around it; a thrown error is
 the unchanged state together with the error's code.
 */
module OrderProtocol {
  import opened Wrappers
  import opened OrderTypes
  import opened StockLedger
  import opened ProductWeight

  datatype State = State(
    books: Books,
    orders: map<Id, Order>,
    payments: map<Id, Payment>,
    attempts: map<Id, Attempt>,
    history: seq<HistoryEntry>)

  /** What one request did: the next state and the answer's code. */
  datatype Step = Step(next: State, reply: string)

  const OK := "OK"

  // ---- Queries ----

  predicate PaymentKnown(s: State, o: Id)
  {
    o in s.orders && o in s.payments
  }

  predicate AttemptOf(s: State, a: Id, o: Id)
  {
    a in s.attempts && s.attempts[a].order == o
  }

  predicate PendingAttempt(s: State, a: Id, o: Id)
  {
    AttemptOf(s, a, o) && s.attempts[a].status == TxPending
  }

  predicate ActiveHold(s: State, a: Id, o: Id)
  {
    AttemptOf(s, a, o) && Active(s.attempts[a])
  }

  predicate ExpiredAttempt(s: State, a: Id, o: Id, now: int)
  {
    PendingAttempt(s, a, o) && s.attempts[a].expiresAt <= now
  }

  predicate OrderKeyTaken(s: State, key: Id)
  {
    exists o :: o in s.orders && s.orders[o].key == key
  }

  predicate OwnOrderExists(s: State, user: Id, key: Id)
  {
    exists o :: o in s.orders && s.orders[o].key == key && s.orders[o].user == user
  }

  /** The customer's own order under this key has a payment attempt, so its payment page can be shown again. */
  predicate OwnAttemptExists(s: State, user: Id, key: Id)
  {
    exists o :: o in s.orders && s.orders[o].key == key && s.orders[o].user == user && HasAttempt(s, o)
  }

  predicate AttemptKeyTaken(s: State, key: Id)
  {
    exists a :: a in s.attempts && s.attempts[a].key == key
  }

  predicate HasPending(s: State, o: Id)
  {
    exists a :: a in s.attempts && PendingAttempt(s, a, o)
  }

  predicate HasActive(s: State, o: Id)
  {
    exists a :: a in s.attempts && ActiveHold(s, a, o)
  }

  predicate HasExpired(s: State, o: Id, now: int)
  {
    exists a :: a in s.attempts && ExpiredAttempt(s, a, o, now)
  }

  predicate HasAttempt(s: State, o: Id)
  {
    exists a :: a in s.attempts && AttemptOf(s, a, o)
  }

  /** No row and no movement carries this id yet. */
  predicate FreshId(s: State, id: Id)
  {
    id !in s.orders && id !in s.payments && id !in s.attempts &&
    forall m :: m in s.books.ledger ==> m.source != FromOrder(id)
  }

  function SetStatus(s: State, o: Id, to: OrderStatus): State
    requires o in s.orders
  {
    var from := s.orders[o].status;
    s.(orders := s.orders[o := s.orders[o].(status := to)],
       history := s.history + [StatusChanged(o, Some(from), to)])
  }

  function SetPayment(s: State, o: Id, to: PaymentStatus): State
    requires o in s.payments
  {
    s.(payments := s.payments[o := s.payments[o].(status := to)])
  }

  // ---- Checkout ----

  datatype Basket = Basket(user: Id, key: Id, branch: Id, lines: seq<Line>, shippingFee: int, ready: bool)

  function ItemsOf(lines: seq<Line>): (items: seq<Item>)
    ensures |items| == |lines|
    ensures forall i :: 0 <= i < |lines| ==> items[i] == Item(Some(lines[i].variant), lines[i].quantity)
  {
    seq(|lines|, i requires 0 <= i < |lines| => Item(Some(lines[i].variant), lines[i].quantity))
  }

  function Subtotal(lines: seq<Line>): int
  {
    if |lines| == 0 then 0
    else Subtotal(lines[..|lines| - 1]) + lines[|lines| - 1].unitPrice * lines[|lines| - 1].quantity
  }

  function NewOrder(b: Basket, status: OrderStatus, deducted: bool): Order
  {
    Order(b.user, b.branch, b.key, status, ItemsOf(b.lines), Subtotal(b.lines) + b.shippingFee, deducted, false, false)
  }

  /** resolveCheckout and ensureReadyForOrder: the checks made before the transaction starts. */
  function CheckoutError(b: Basket): Option<string>
  {
    if |b.lines| == 0 then Some("CHECKOUT_ITEMS_REQUIRED")
    else if TotalWeight(b.lines).None? then Some("CHECKOUT_PRODUCT_WEIGHT_INVALID")
    else if !b.ready then Some("CHECKOUT_PREVIEW_CHANGED")
    else None
  }

  function PlaceCod(s: State, b: Basket, orderId: Id): Step
  {
    if OwnOrderExists(s, b.user, b.key) then Step(s, OK)
    else if CheckoutError(b).Some? then Step(s, CheckoutError(b).value)
    else
      match Deduct(s.books, b.branch, ByVariant(ItemsOf(b.lines)), FromOrder(orderId))
      case None => Step(s, "ORDER_STOCK_CONFLICT")
      case Some(books) =>
        if !FreshId(s, orderId) || OrderKeyTaken(s, b.key) || !DistinctVariants(ItemsOf(b.lines))
        then Step(s, "UNIQUE_VIOLATION")
        else
          Step(State(books,
                     s.orders[orderId := NewOrder(b, Pending, true)],
                     s.payments[orderId := Payment(Cod, Unpaid, NewOrder(b, Pending, true).total)],
                     s.attempts,
                     s.history + [StatusChanged(orderId, None, Pending)]),
               OK)
  }

  function NewAttempt(orderId: Id, key: Id, amount: int, now: int, expireAfter: int): Attempt
  {
    Attempt(orderId, key, TxPending, amount, now, now + expireAfter, true, false, false)
  }

  function PlaceVnpay(s: State, b: Basket, orderId: Id, attemptId: Id, now: int, expireAfter: int): Step
  {
    if OwnAttemptExists(s, b.user, b.key) then Step(s, OK)
    else if CheckoutError(b).Some? then Step(s, CheckoutError(b).value)
    else if OwnOrderExists(s, b.user, b.key) then Step(s, "TRANSACTION_MISSING")
    else
      match Deduct(s.books, b.branch, ByVariant(ItemsOf(b.lines)), FromOrder(attemptId))
      case None => Step(s, "ORDER_STOCK_CONFLICT")
      case Some(books) =>
        if orderId == attemptId || !FreshId(s, orderId) || !FreshId(s, attemptId)
           || OrderKeyTaken(s, b.key) || AttemptKeyTaken(s, b.key) || !DistinctVariants(ItemsOf(b.lines))
        then Step(s, "UNIQUE_VIOLATION")
        else
          var order := NewOrder(b, PendingPayment, false);
          Step(State(books,
                     s.orders[orderId := order],
                     s.payments[orderId := Payment(Vnpay, PayPending, order.total)],
                     s.attempts[attemptId := NewAttempt(orderId, b.key, order.total, now, expireAfter)],
                     s.history + [StatusChanged(orderId, None, PendingPayment)]),
               OK)
  }

  // ---- VNPAY callbacks ----

  /** A callback's fields; signature, terminal and currency checks are the two flags. */
  datatype Callback = Callback(
    signatureValid: bool,
    merchantFieldsValid: bool,
    amount: Option<int>,
    responseCode: string,
    transactionStatus: string)

  predicate Succeeded(cb: Callback)
  {
    cb.responseCode == "00" && cb.transactionStatus == "00"
  }

  predicate ValidAmount(cb: Callback, a: Attempt)
  {
    cb.amount.Some? && -MAX_SAFE <= cb.amount.value <= MAX_SAFE && cb.amount.value == a.amount * 100
  }

  predicate Verified(s: State, cb: Callback, a: Attempt)
  {
    && cb.signatureValid
    && cb.merchantFieldsValid
    && PaymentKnown(s, a.order)
    && s.payments[a.order].paymentMethod == Vnpay
    && a.amount == s.payments[a.order].amount
    && s.payments[a.order].amount == s.orders[a.order].total
  }

  /** Another attempt of the same payment was paid, or was made later. */
  predicate Superseded(s: State, id: Id)
    requires id in s.attempts
  {
    exists b :: b in s.attempts && b != id && s.attempts[b].order == s.attempts[id].order
                && (s.attempts[b].status == TxPaid || s.attempts[b].createdAt > s.attempts[id].createdAt)
  }

  datatype SuccessResult = Applied | AlreadyApplied | Rejected

  /** The guards of applySuccessfulVnpayTransaction. */
  function SuccessVerdict(s: State, id: Id, cb: Callback): SuccessResult
  {
    if id !in s.attempts then Rejected
    else
      var a := s.attempts[id];
      if !Succeeded(cb) || !ValidAmount(cb, a) || !Verified(s, cb, a) then Rejected
      else if a.status == TxPaid then
        if s.payments[a.order].status == PayPaid && a.consumed && !a.released then AlreadyApplied else Rejected
      else if Superseded(s, id) || a.status != TxPending || s.payments[a.order].status != PayPending
              || s.orders[a.order].status != PendingPayment || !Active(a) then Rejected
      else Applied
  }

  function ApplySuccess(s: State, id: Id, cb: Callback): State
  {
    if SuccessVerdict(s, id, cb) != Applied then s
    else
      var a := s.attempts[id];
      var s1 := s.(attempts := s.attempts[id := a.(status := TxPaid, consumed := true)]);
      var s2 := SetPayment(s1, a.order, PayPaid);
      var s3 := s2.(orders := s2.orders[a.order := s2.orders[a.order].(stockDeducted := true)]);
      SetStatus(s3, a.order, Pending)
  }

  /** releaseReservedStock: claims the hold and puts its lines back; None when a write throws. */
  function ReleaseHold(s: State, id: Id): (r: Option<State>)
    requires id in s.attempts && s.attempts[id].order in s.orders
    ensures r.Some? ==> r.value.orders == s.orders && r.value.payments == s.payments && r.value.history == s.history
    ensures r.Some? ==> id in r.value.attempts && r.value.attempts == s.attempts[id := r.value.attempts[id]]
    ensures r.Some? ==> r.value.attempts[id].order == s.attempts[id].order
  {
    var a := s.attempts[id];
    if !Active(a) then Some(s)
    else
      match Restore(s.books, s.orders[a.order].branch, s.orders[a.order].items, FromOrder(id))
      case None => None
      case Some(books) => Some(s.(books := books, attempts := s.attempts[id := a.(released := true)]))
  }

  /** Closes an attempt and its payment, and fails the order. */
  function CloseAttempt(s: State, id: Id, status: AttemptStatus, paid: PaymentStatus): State
    requires id in s.attempts && PaymentKnown(s, s.attempts[id].order)
  {
    var a := s.attempts[id];
    var s1 := SetPayment(s.(attempts := s.attempts[id := a.(status := status)]), a.order, paid);
    var s2 := s1.(orders := s1.orders[a.order := s1.orders[a.order].(stockRestored := true)]);
    SetStatus(s2, a.order, PaymentFailed)
  }

  /** The failure branch of the IPN handler. */
  function ApplyFailure(s: State, id: Id, cb: Callback): Step
    requires id in s.attempts && PaymentKnown(s, s.attempts[id].order)
  {
    match ReleaseHold(s, id)
    case None => Step(s, "99")
    case Some(s1) =>
      if cb.responseCode == "24" then Step(CloseAttempt(s1, id, TxCancelled, PayCancelled), "00")
      else Step(CloseAttempt(s1, id, TxFailed, PayFailed), "00")
  }

  /** The checks the notification handler makes on what it reads before its transaction: an answer, or none yet. */
  function IpnRead(s: State, id: Id, cb: Callback): Option<string>
  {
    if !cb.signatureValid then Some("97")
    else if id !in s.attempts then Some("01")
    else if !ValidAmount(cb, s.attempts[id]) then Some("04")
    else if !Verified(s, cb, s.attempts[id]) then Some("97")
    else if s.attempts[id].status == TxPending || (Succeeded(cb) && s.attempts[id].status == TxPaid) then None
    else Some("02")
  }

  /** The handler's transaction. A failure finds the attempt closed meanwhile without saying so. */
  function IpnCommit(s: State, id: Id, cb: Callback): Step
  {
    if Succeeded(cb) then Step(ApplySuccess(s, id, cb), if SuccessVerdict(s, id, cb) == Rejected then "02" else "00")
    else if id !in s.attempts || s.attempts[id].status != TxPending || !PaymentKnown(s, s.attempts[id].order)
    then Step(s, "00")
    else ApplyFailure(s, id, cb)
  }

  /** A notification with nothing between its read and its transaction. */
  function HandleIpn(s: State, id: Id, cb: Callback): Step
  {
    match IpnRead(s, id, cb)
    case Some(code) => Step(s, code)
    case None => IpnCommit(s, id, cb)
  }

  /** What the browser's return makes of its read: a result, or none yet for a verified success. */
  function ReturnRead(s: State, id: Id, cb: Callback): Option<string>
  {
    if id !in s.attempts || !ValidAmount(cb, s.attempts[id]) || !Verified(s, cb, s.attempts[id]) then Some("invalid")
    else if cb.responseCode == "24" then Some("cancelled")
    else if Succeeded(cb) then None
    else if cb.responseCode != "" && cb.transactionStatus != "" then Some("failed")
    else Some("processing")
  }

  function ReturnCommit(s: State, id: Id, cb: Callback): Step
  {
    Step(ApplySuccess(s, id, cb), if SuccessVerdict(s, id, cb) == Rejected then "processing" else "success")
  }

  /** The browser's return: only a verified success may write. */
  function BuildReturn(s: State, id: Id, cb: Callback): Step
  {
    match ReturnRead(s, id, cb)
    case Some(result) => Step(s, result)
    case None => ReturnCommit(s, id, cb)
  }

  // ---- Expiry and retry ----

  /** The expired attempt that the first query finds. */
  ghost function FindExpired(s: State, o: Id, now: int): Id
    requires HasExpired(s, o, now)
  {
    var a :| a in s.attempts && ExpiredAttempt(s, a, o, now); a
  }

  /** The expiry transaction on the attempt that the query found. */
  function ExpireCommit(s: State, id: Id): Step
  {
    if id !in s.attempts || s.attempts[id].status != TxPending || !PaymentKnown(s, s.attempts[id].order)
    then Step(s, OK)
    else if !Active(s.attempts[id]) then Step(s, OK)
    else
      match ReleaseHold(s, id)
      case None => Step(s, "99")
      case Some(s1) => Step(CloseAttempt(s1, id, TxExpired, PayExpired), OK)
  }

  /** getStatus first closes an attempt whose time is over. */
  ghost function Expire(s: State, user: Id, o: Id, now: int): Step
  {
    if !PaymentKnown(s, o) || s.orders[o].user != user then Step(s, "PAYMENT_NOT_FOUND")
    else if !HasExpired(s, o, now) then Step(s, OK)
    else ExpireCommit(s, FindExpired(s, o, now))
  }

  /** The checks that retry makes on the payment it read before its transaction. */
  function RetryError(s: State, user: Id, o: Id): Option<string>
  {
    if !PaymentKnown(s, o) || s.orders[o].user != user then Some("PAYMENT_NOT_FOUND")
    else if s.payments[o].status == PayPaid || HasPending(s, o) then Some("VNPAY_RETRY_NOT_ALLOWED")
    else None
  }

  /** The retry transaction. Of the earlier read it uses columns that never change and the order's status then. */
  function RetryCommit(s: State, o: Id, seen: OrderStatus, attemptId: Id, key: Id, now: int, expireAfter: int): Step
  {
    if !PaymentKnown(s, o) then Step(s, "PAYMENT_NOT_FOUND")
    else if AttemptKeyTaken(s, key) then Step(s, OK)
    else if HasPending(s, o) then Step(s, "VNPAY_RETRY_NOT_ALLOWED")
    else
      var order := s.orders[o];
      match Deduct(s.books, order.branch, ByVariant(order.items), FromOrder(attemptId))
      case None => Step(s, "VNPAY_RETRY_REVALIDATION_CHANGED")
      case Some(books) =>
        if !FreshId(s, attemptId) then Step(s, "UNIQUE_VIOLATION")
        else
          Step(State(books,
                     s.orders[o := order.(status := PendingPayment, stockRestored := false)],
                     s.payments[o := s.payments[o].(status := PayPending)],
                     s.attempts[attemptId := NewAttempt(o, key, s.payments[o].amount, now, expireAfter)],
                     s.history + [StatusChanged(o, Some(seen), PendingPayment)]),
               OK)
  }

  /** A retry whose read and transaction see the same state. */
  function Retry(s: State, user: Id, o: Id, attemptId: Id, key: Id, now: int, expireAfter: int): Step
  {
    match RetryError(s, user, o)
    case Some(code) => Step(s, code)
    case None => RetryCommit(s, o, s.orders[o].status, attemptId, key, now, expireAfter)
  }

  // ---- Cancellation ----

  const CUSTOMER_CANCELLABLE: set<OrderStatus> := {PendingPayment, PaymentFailed, Pending}

  const ADMIN_CANCELLABLE: set<OrderStatus> := {PendingPayment, PaymentFailed, Pending, Confirmed, Packing}

  /** The code of a refused status: the customer's own, or the staff's. */
  function CancelRefusal(allowed: set<OrderStatus>): string
  {
    if allowed == CUSTOMER_CANCELLABLE then "ORDER_CANNOT_BE_CANCELLED" else "ORDER_CANCEL_NOT_ALLOWED"
  }

  ghost function FindActive(s: State, o: Id): Id
    requires HasActive(s, o)
  {
    var a :| a in s.attempts && ActiveHold(s, a, o); a
  }

  /** Gives back what the order still holds; None when a write throws. */
  ghost function ReturnStock(s: State, o: Id): Option<State>
    requires PaymentKnown(s, o)
  {
    var order := s.orders[o];
    if HasActive(s, o) then
      match ReleaseHold(s, FindActive(s, o))
      case None => None
      case Some(s1) => Some(s1.(orders := s1.orders[o := s1.orders[o].(stockRestored := true)]))
    else if s.payments[o].paymentMethod == Cod && order.stockDeducted && !order.stockRestored then
      match Restore(s.books, order.branch, order.items, FromOrder(o))
      case None => None
      case Some(books) => Some(s.(books := books, orders := s.orders[o := order.(stockRestored := true)]))
    else Some(s)
  }

  /** The rest of a cancellation: the payment, unless it is already closed, and the order's status. */
  function FinishCancel(s: State, o: Id): State
    requires PaymentKnown(s, o)
  {
    var s1 := if s.payments[o].status in {PayPending, Unpaid} then SetPayment(s, o, PayCancelled) else s;
    SetStatus(s1, o, Cancelled)
  }

  /** cancelOrderInTransaction. The attempt keeps its status; only its hold is released. */
  ghost function Cancel(s: State, o: Id, allowed: set<OrderStatus>): Step
    requires PaymentKnown(s, o)
  {
    var order := s.orders[o];
    if order.status == Cancelled then Step(s, OK)
    else if order.status !in allowed then Step(s, CancelRefusal(allowed))
    else if s.payments[o].paymentMethod == Vnpay && s.payments[o].status == PayPaid
    then Step(s, "ORDER_CANCELLATION_REQUIRES_REFUND")
    else
      match ReturnStock(s, o)
      case None => Step(s, "99")
      case Some(s1) => Step(FinishCancel(s1, o), OK)
  }

  ghost function CustomerCancel(s: State, user: Id, o: Id): Step
  {
    if !PaymentKnown(s, o) || s.orders[o].user != user then Step(s, "ORDER_NOT_FOUND")
    else Cancel(s, o, CUSTOMER_CANCELLABLE)
  }

  ghost function AdminCancel(s: State, permitted: bool, branch: Id, o: Id): Step
  {
    if !permitted then Step(s, "ADMIN_ORDER_MUTATION_FORBIDDEN")
    else if !PaymentKnown(s, o) || s.orders[o].branch != branch then Step(s, "ADMIN_ORDER_NOT_FOUND")
    else Cancel(s, o, ADMIN_CANCELLABLE)
  }

  // ---- Fulfilment ----

  function NextStatus(status: OrderStatus): Option<OrderStatus>
  {
    match status
    case Pending => Some(Confirmed)
    case Confirmed => Some(Packing)
    case Packing => Some(Shipping)
    case Shipping => Some(Completed)
    case _ => None
  }

  function Transition(s: State, permitted: bool, branch: Id, o: Id, target: OrderStatus): Step
  {
    if !permitted then Step(s, "ADMIN_ORDER_MUTATION_FORBIDDEN")
    else if !PaymentKnown(s, o) || s.orders[o].branch != branch then Step(s, "ADMIN_ORDER_NOT_FOUND")
    else if NextStatus(s.orders[o].status) != Some(target) then Step(s, "ORDER_TRANSITION_INVALID")
    else if target == Completed && !s.orders[o].received then Step(s, "ORDER_CUSTOMER_RECEIPT_REQUIRED")
    else
      var s1 := if target == Completed && s.payments[o].paymentMethod == Cod && s.payments[o].status == Unpaid
                then SetPayment(s, o, PayPaid) else s;
      Step(SetStatus(s1, o, target), OK)
  }

  function ConfirmReceived(s: State, user: Id, o: Id): Step
  {
    if o !in s.orders || s.orders[o].user != user then Step(s, "ORDER_NOT_FOUND")
    else if s.orders[o].received then Step(s, OK)
    else if s.orders[o].status != Shipping then Step(s, "ORDER_CONFIRM_RECEIVED_NOT_ALLOWED")
    else
      Step(s.(orders := s.orders[o := s.orders[o].(received := true)],
              history := s.history + [ReceiptConfirmed(o)]),
           OK)
  }

  // ---- Manual adjustment ----

  /** dto: the confirmed current quantity, the direction and a quantity from 1 to 1000. */
  datatype Adjustment = Adjustment(expected: int, increase: bool, quantity: int)

  predicate ValidAdjustment(d: Adjustment)
  {
    0 <= d.expected <= MAX_QUANTITY && 1 <= d.quantity <= 1000
  }

  function Adjust(s: State, available: bool, k: Key, d: Adjustment, receiptId: Id): Step
  {
    var before := At(s.books.stock, k);
    var change := if d.increase then d.quantity else -d.quantity;
    if !ValidAdjustment(d) then Step(s, "BAD_REQUEST")
    else if !available then Step(s, "INVENTORY_VARIANT_UNAVAILABLE")
    else if before != d.expected then Step(s, "INVENTORY_QUANTITY_CHANGED")
    else if before + change < 0 then Step(s, "INVENTORY_QUANTITY_NEGATIVE")
    else if before + change > MAX_QUANTITY then Step(s, "OUT_OF_RANGE")
    else if exists m :: m in s.books.ledger && m.source == FromAdjustment(receiptId) then Step(s, "UNIQUE_VIOLATION")
    else
      var rows := if k in s.books.stock then s.books.stock else s.books.stock[k := 0];
      Step(s.(books := Write(Books(rows, s.books.ledger), k, Adjusted, change, FromAdjustment(receiptId))), OK)
  }

  // ---- What the customer's screen offers ----

  predicate OffersRetry(s: State, o: Id)
  {
    PaymentKnown(s, o) && s.orders[o].status == PaymentFailed && s.payments[o].paymentMethod == Vnpay
  }
}
