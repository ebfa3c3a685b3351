/**
 The tables as one object whose transactions update them step by step. Each method is one request:
 it either commits or restores what it had written, and it is proved to do what the protocol says.
 */
module ShopDatabase {
  import opened Wrappers
  import opened OrderTypes
  import opened StockLedger
  import opened ProductWeight
  import opened OrderProtocol
  import opened OrderInvariant
  import opened OrderSteps
  import opened OrderRuns

  class Database {
    var stock: map<Key, int>
    var ledger: seq<Movement>
    var orders: map<Id, Order>
    var payments: map<Id, Payment>
    var attempts: map<Id, Attempt>
    var history: seq<HistoryEntry>
    ghost const start: map<Key, int>

    ghost function Current(): State
      reads this
    {
      State(Books(stock, ledger), orders, payments, attempts, history)
    }

    ghost predicate Valid()
      reads this
    {
      Inv(start, Current())
    }

    constructor (opening: map<Key, int>)
      requires InRange(opening)
      ensures Valid() && start == opening && Current() == Initial(opening)
    {
      stock, ledger, orders, payments, attempts, history := opening, [], map[], map[], map[], [];
      start := opening;
      new;
      InitialOk(opening);
    }

    // ---- The loops over order lines ----

    /** Takes the lines in variant order; a failed loop may leave part of them taken. */
    method DeductStock(branch: Id, items: seq<Item>, source: Source) returns (ok: bool)
      modifies `stock, `ledger
      ensures Deduct(old(Books(stock, ledger)), branch, ByVariant(items), source)
              == if ok then Some(Books(stock, ledger)) else None
    {
      var sorted := ByVariant(items);
      ghost var books := Books(stock, ledger);
      for i := 0 to |sorted|
        invariant Deduct(books, branch, sorted[..i], source) == Some(Books(stock, ledger))
      {
        var it := sorted[i];
        assert sorted[..i + 1][..i] == sorted[..i];
        if it.variant.None? {
          DeductStopsEarly(books, branch, sorted, source, i + 1);
          return false;
        }
        var k := Key(branch, it.variant.value);
        var before := if k in stock then stock[k] else 0;
        if k !in stock || stock[k] != before || stock[k] < it.quantity {
          DeductStopsEarly(books, branch, sorted, source, i + 1);
          return false;
        }
        stock := stock[k := stock[k] - it.quantity];
        ledger := ledger + [Movement(k, Deducted, -it.quantity, before, before - it.quantity, source)];
      }
      assert sorted[..|sorted|] == sorted;
      return true;
    }

    /** Puts the lines back; a failed loop may leave part of them back. */
    method RestoreStock(branch: Id, items: seq<Item>, source: Source) returns (ok: bool)
      modifies `stock, `ledger
      ensures Restore(old(Books(stock, ledger)), branch, items, source)
              == if ok then Some(Books(stock, ledger)) else None
    {
      ghost var books := Books(stock, ledger);
      for i := 0 to |items|
        invariant Restore(books, branch, items[..i], source) == Some(Books(stock, ledger))
      {
        var it := items[i];
        assert items[..i + 1][..i] == items[..i];
        if it.variant.None? {
          continue;
        }
        var k := Key(branch, it.variant.value);
        if k !in stock || stock[k] + it.quantity > MAX_QUANTITY {
          RestoreStopsEarly(books, branch, items, source, i + 1);
          return false;
        }
        stock := stock[k := stock[k] + it.quantity];
        ledger := ledger + [Movement(k, Restored, it.quantity, stock[k] - it.quantity, stock[k], source)];
      }
      assert items[..|items|] == items;
      return true;
    }

    method IsFresh(id: Id) returns (isNew: bool)
      ensures isNew == FreshId(Current(), id)
    {
      return id !in orders && id !in payments && id !in attempts &&
             forall m :: m in ledger ==> m.source != FromOrder(id);
    }

    method RecordHistory(o: Id, from: Option<OrderStatus>, to: OrderStatus)
      modifies `history
      ensures history == old(history) + [StatusChanged(o, from, to)]
    {
      history := history + [StatusChanged(o, from, to)];
    }

    // ---- Checkout ----

    method PlaceCodOrder(b: Basket, orderId: Id) returns (reply: string)
      requires Valid()
      modifies this
      ensures Current() == PlaceCod(old(Current()), b, orderId).next
      ensures reply == PlaceCod(old(Current()), b, orderId).reply
      ensures Valid()
    {
      hide Inv, CheckoutError, TotalWeight, Subtotal, ByVariant, Deduct, DistinctVariants, FreshId;
      ghost var s := Current();
      PlaceCodKeeps(start, s, b, orderId);
      if exists o :: o in orders && orders[o].key == b.key && orders[o].user == b.user {
        return OK;
      }
      var error := CheckoutError(b);
      if error.Some? {
        return error.value;
      }
      var isNew := IsFresh(orderId);
      var taken := exists o :: o in orders && orders[o].key == b.key;
      var stock0, ledger0 := stock, ledger;
      var items := ItemsOf(b.lines);
      var ok := DeductStock(b.branch, items, FromOrder(orderId));
      if !ok || !isNew || taken || !DistinctVariants(items) {
        stock, ledger := stock0, ledger0;
        return if !ok then "ORDER_STOCK_CONFLICT" else "UNIQUE_VIOLATION";
      }
      var order := NewOrder(b, Pending, true);
      orders := orders[orderId := order];
      payments := payments[orderId := Payment(Cod, Unpaid, order.total)];
      RecordHistory(orderId, None, Pending);
      return OK;
    }

    method ShownAgain(user: Id, key: Id) returns (shown: bool)
      ensures shown == OwnAttemptExists(Current(), user, key)
    {
      ghost var s := Current();
      shown := exists o, a :: o in orders && orders[o].key == key && orders[o].user == user &&
                              a in attempts && attempts[a].order == o;
      if shown {
        ghost var o, a :| o in orders && orders[o].key == key && orders[o].user == user &&
                          a in attempts && attempts[a].order == o;
        assert AttemptOf(s, a, o) && HasAttempt(s, o);
      }
    }

    method PlaceVnpayOrder(b: Basket, orderId: Id, attemptId: Id, now: int, expireAfter: int) returns (reply: string)
      requires Valid()
      modifies this
      ensures Current() == PlaceVnpay(old(Current()), b, orderId, attemptId, now, expireAfter).next
      ensures reply == PlaceVnpay(old(Current()), b, orderId, attemptId, now, expireAfter).reply
      ensures Valid()
    {
      hide Inv, CheckoutError, TotalWeight, Subtotal, ByVariant, Deduct, DistinctVariants, FreshId;
      ghost var s := Current();
      PlaceVnpayKeeps(start, s, b, orderId, attemptId, now, expireAfter);
      var shown := ShownAgain(b.user, b.key);
      if shown {
        return OK;
      }
      var error := CheckoutError(b);
      if error.Some? {
        return error.value;
      }
      if exists o :: o in orders && orders[o].key == b.key && orders[o].user == b.user {
        return "TRANSACTION_MISSING";
      }
      var freshOrder := IsFresh(orderId);
      var freshAttempt := IsFresh(attemptId);
      var taken := exists o :: o in orders && orders[o].key == b.key;
      var attemptTaken := exists a :: a in attempts && attempts[a].key == b.key;
      var stock0, ledger0 := stock, ledger;
      var items := ItemsOf(b.lines);
      var ok := DeductStock(b.branch, items, FromOrder(attemptId));
      if !ok || orderId == attemptId || !freshOrder || !freshAttempt || taken || attemptTaken ||
         !DistinctVariants(items) {
        stock, ledger := stock0, ledger0;
        return if !ok then "ORDER_STOCK_CONFLICT" else "UNIQUE_VIOLATION";
      }
      var order := NewOrder(b, PendingPayment, false);
      orders := orders[orderId := order];
      payments := payments[orderId := Payment(Vnpay, PayPending, order.total)];
      attempts := attempts[attemptId := NewAttempt(orderId, b.key, order.total, now, expireAfter)];
      RecordHistory(orderId, None, PendingPayment);
      return OK;
    }

    // ---- Callbacks ----

    method ApplySuccessful(id: Id, cb: Callback) returns (result: SuccessResult)
      requires Valid()
      modifies this
      ensures Current() == ApplySuccess(old(Current()), id, cb)
      ensures result == SuccessVerdict(old(Current()), id, cb)
      ensures Valid()
    {
      hide Inv;
      ghost var s := Current();
      SuccessKeeps(start, s, id, cb);
      if id !in attempts {
        return Rejected;
      }
      var a := attempts[id];
      if !Succeeded(cb) || !ValidAmount(cb, a) || !cb.signatureValid || !cb.merchantFieldsValid
         || a.order !in orders || a.order !in payments || payments[a.order].paymentMethod != Vnpay
         || a.amount != payments[a.order].amount || payments[a.order].amount != orders[a.order].total {
        return Rejected;
      }
      if a.status == TxPaid {
        return if payments[a.order].status == PayPaid && a.consumed && !a.released then AlreadyApplied else Rejected;
      }
      var superseded := exists b ::
        b in attempts && b != id && attempts[b].order == a.order &&
        (attempts[b].status == TxPaid || attempts[b].createdAt > a.createdAt);
      if superseded || a.status != TxPending || payments[a.order].status != PayPending
         || orders[a.order].status != PendingPayment || !a.reserved || a.released || a.consumed {
        return Rejected;
      }
      var from := orders[a.order].status;
      attempts := attempts[id := a.(status := TxPaid, consumed := true)];
      payments := payments[a.order := payments[a.order].(status := PayPaid)];
      orders := orders[a.order := orders[a.order].(status := Pending, stockDeducted := true)];
      RecordHistory(a.order, Some(from), Pending);
      return Applied;
    }

    /** Claims the attempt's hold, if it still has one, and puts its lines back. */
    method ReleaseReservedStock(id: Id) returns (ok: bool, released: bool)
      requires id in attempts && attempts[id].order in orders
      modifies `stock, `ledger, `attempts
      ensures ReleaseHold(old(Current()), id) == if ok then Some(Current()) else None
      ensures released == Active(old(attempts[id]))
      ensures !ok ==> Current() == old(Current())
    {
      var a := attempts[id];
      if !(a.reserved && !a.released && !a.consumed) {
        return true, false;
      }
      var stock0, ledger0, attempts0 := stock, ledger, attempts;
      attempts := attempts[id := a.(released := true)];
      ok := RestoreStock(orders[a.order].branch, orders[a.order].items, FromOrder(id));
      if !ok {
        stock, ledger, attempts := stock0, ledger0, attempts0;
      }
      released := true;
    }

    /** Writes the closing columns of the attempt, its payment and its order. */
    method CloseRows(id: Id, status: AttemptStatus, paid: PaymentStatus)
      requires id in attempts && attempts[id].order in orders && attempts[id].order in payments
      modifies `attempts, `payments, `orders, `history
      ensures Current() == CloseAttempt(old(Current()), id, status, paid)
    {
      var o := attempts[id].order;
      var from := orders[o].status;
      attempts := attempts[id := attempts[id].(status := status)];
      payments := payments[o := payments[o].(status := paid)];
      orders := orders[o := orders[o].(status := PaymentFailed, stockRestored := true)];
      RecordHistory(o, Some(from), PaymentFailed);
    }

    /** What the notification handler finds before its transaction. */
    method ReadNotification(id: Id, cb: Callback) returns (answer: Option<string>)
      ensures answer == IpnRead(Current(), id, cb)
    {
      if !cb.signatureValid {
        return Some("97");
      }
      if id !in attempts {
        return Some("01");
      }
      var current := attempts[id];
      if !ValidAmount(cb, current) {
        return Some("04");
      }
      if !cb.merchantFieldsValid || current.order !in orders || current.order !in payments ||
         payments[current.order].paymentMethod != Vnpay || current.amount != payments[current.order].amount ||
         payments[current.order].amount != orders[current.order].total {
        return Some("97");
      }
      if Succeeded(cb) {
        return if current.status != TxPending && current.status != TxPaid then Some("02") else None;
      }
      return if current.status != TxPending then Some("02") else None;
    }

    /** Its transaction, on whatever the tables hold by then. */
    method CommitNotification(id: Id, cb: Callback) returns (code: string)
      requires Valid()
      modifies this
      ensures Current() == IpnCommit(old(Current()), id, cb).next
      ensures code == IpnCommit(old(Current()), id, cb).reply
      ensures Valid()
    {
      hide Inv, SuccessVerdict, ApplySuccess, CloseAttempt, ReleaseHold;
      ghost var s := Current();
      IpnCommitKeeps(start, s, id, cb);
      if Succeeded(cb) {
        var result := ApplySuccessful(id, cb);
        return if result == Rejected then "02" else "00";
      }
      if id !in attempts || attempts[id].status != TxPending || attempts[id].order !in orders ||
         attempts[id].order !in payments {
        return "00";
      }
      var ok, released := ReleaseReservedStock(id);
      if !ok {
        return "99";
      }
      if cb.responseCode == "24" {
        CloseRows(id, TxCancelled, PayCancelled);
      } else {
        CloseRows(id, TxFailed, PayFailed);
      }
      return "00";
    }

    method HandleVnpayIpn(id: Id, cb: Callback) returns (code: string)
      requires Valid()
      modifies this
      ensures Current() == HandleIpn(old(Current()), id, cb).next
      ensures code == HandleIpn(old(Current()), id, cb).reply
      ensures Valid()
    {
      hide Inv, IpnRead, IpnCommit;
      var answer := ReadNotification(id, cb);
      if answer.Some? {
        return answer.value;
      }
      code := CommitNotification(id, cb);
    }

    /** What the browser's return finds before a success is applied. */
    method ReadReturn(id: Id, cb: Callback) returns (result: Option<string>)
      ensures result == ReturnRead(Current(), id, cb)
    {
      var valid := id in attempts && ValidAmount(cb, attempts[id]) && cb.signatureValid && cb.merchantFieldsValid
                   && attempts[id].order in orders && attempts[id].order in payments
                   && payments[attempts[id].order].paymentMethod == Vnpay
                   && attempts[id].amount == payments[attempts[id].order].amount
                   && payments[attempts[id].order].amount == orders[attempts[id].order].total;
      if !valid {
        return Some("invalid");
      }
      if cb.responseCode == "24" {
        return Some("cancelled");
      }
      if Succeeded(cb) {
        return None;
      }
      return Some(if cb.responseCode != "" && cb.transactionStatus != "" then "failed" else "processing");
    }

    method BuildReturnRedirect(id: Id, cb: Callback) returns (result: string)
      requires Valid()
      modifies this
      ensures Current() == BuildReturn(old(Current()), id, cb).next
      ensures result == BuildReturn(old(Current()), id, cb).reply
      ensures Valid()
    {
      hide Inv, SuccessVerdict, ApplySuccess, ReturnRead;
      var answer := ReadReturn(id, cb);
      if answer.Some? {
        return answer.value;
      }
      var applied := ApplySuccessful(id, cb);
      return if applied == Rejected then "processing" else "success";
    }

    // ---- Expiry and retry ----

    method ExpirePaymentIfNeeded(user: Id, o: Id, now: int) returns (reply: string)
      requires Valid()
      modifies this
      ensures Current() == Expire(old(Current()), user, o, now).next
      ensures reply == Expire(old(Current()), user, o, now).reply
      ensures Valid()
    {
      hide Inv, CloseAttempt, ReleaseHold;
      ghost var s := Current();
      ExpireKeeps(start, s, user, o, now);
      if o !in orders || o !in payments || orders[o].user != user {
        return "PAYMENT_NOT_FOUND";
      }
      if !exists a :: a in attempts && attempts[a].order == o && attempts[a].status == TxPending &&
           attempts[a].expiresAt <= now {
        return OK;
      }
      var id :| id in attempts && attempts[id].order == o && attempts[id].status == TxPending &&
          attempts[id].expiresAt <= now;
      assert id == FindExpired(s, o, now) by {
        assert ExpiredAttempt(s, id, o, now);
        OnePending(start, s, id, FindExpired(s, o, now), o);
      }
      if !Active(attempts[id]) {
        IdleRelease(s, id);
      }
      var ok, released := ReleaseReservedStock(id);
      if !ok {
        return "99";
      }
      if !released {
        return OK;
      }
      CloseRows(id, TxExpired, PayExpired);
      return OK;
    }

    /** The read and the checks before the retry's transaction: the order's status, or an error code. */
    method RetryRead(user: Id, o: Id) returns (error: Option<string>, seen: OrderStatus)
      ensures error == RetryError(Current(), user, o)
      ensures error.None? ==> o in orders && seen == orders[o].status
    {
      if o !in orders || o !in payments || orders[o].user != user {
        return Some("PAYMENT_NOT_FOUND"), Pending;
      }
      if payments[o].status == PayPaid ||
         exists a :: a in attempts && attempts[a].order == o && attempts[a].status == TxPending {
        return Some("VNPAY_RETRY_NOT_ALLOWED"), Pending;
      }
      return None, orders[o].status;
    }

    method RetryTransaction(o: Id, seen: OrderStatus, attemptId: Id, key: Id, now: int, expireAfter: int)
      returns (reply: string)
      requires Valid()
      modifies this
      ensures Current() == RetryCommit(old(Current()), o, seen, attemptId, key, now, expireAfter).next
      ensures reply == RetryCommit(old(Current()), o, seen, attemptId, key, now, expireAfter).reply
      ensures Valid()
    {
      hide Inv, ByVariant, Deduct, FreshId;
      ghost var s := Current();
      RetryCommitKeeps(start, s, o, seen, attemptId, key, now, expireAfter);
      if o !in orders || o !in payments {
        return "PAYMENT_NOT_FOUND";
      }
      if exists a :: a in attempts && attempts[a].key == key {
        return OK;
      }
      if exists a :: a in attempts && attempts[a].order == o && attempts[a].status == TxPending {
        return "VNPAY_RETRY_NOT_ALLOWED";
      }
      var isNew := IsFresh(attemptId);
      var stock0, ledger0 := stock, ledger;
      var order := orders[o];
      var ok := DeductStock(order.branch, order.items, FromOrder(attemptId));
      if !ok || !isNew {
        stock, ledger := stock0, ledger0;
        return if !ok then "VNPAY_RETRY_REVALIDATION_CHANGED" else "UNIQUE_VIOLATION";
      }
      attempts := attempts[attemptId := NewAttempt(o, key, payments[o].amount, now, expireAfter)];
      payments := payments[o := payments[o].(status := PayPending)];
      orders := orders[o := order.(status := PendingPayment, stockRestored := false)];
      RecordHistory(o, Some(seen), PendingPayment);
      return OK;
    }

    /** A retry that nothing comes between: the read, then the transaction. */
    method RetryPayment(user: Id, o: Id, attemptId: Id, key: Id, now: int, expireAfter: int) returns (reply: string)
      requires Valid()
      modifies this
      ensures Current() == Retry(old(Current()), user, o, attemptId, key, now, expireAfter).next
      ensures reply == Retry(old(Current()), user, o, attemptId, key, now, expireAfter).reply
      ensures Valid()
    {
      hide Inv, RetryCommit;
      var error, seen := RetryRead(user, o);
      if error.Some? {
        return error.value;
      }
      reply := RetryTransaction(o, seen, attemptId, key, now, expireAfter);
    }

    // ---- Cancellation ----

    method CancelOrder(o: Id, allowed: set<OrderStatus>) returns (reply: string)
      requires Valid() && o in orders && o in payments && allowed <= ADMIN_CANCELLABLE
      modifies this
      ensures Current() == Cancel(old(Current()), o, allowed).next
      ensures reply == Cancel(old(Current()), o, allowed).reply
      ensures Valid()
    {
      hide Inv, ReleaseHold;
      ghost var s := Current();
      CancelKeeps(start, s, o, allowed);
      var order := orders[o];
      if order.status == Cancelled {
        return OK;
      }
      if order.status !in allowed {
        return CancelRefusal(allowed);
      }
      if payments[o].paymentMethod == Vnpay && payments[o].status == PayPaid {
        return "ORDER_CANCELLATION_REQUIRES_REFUND";
      }
      var restoredStock := false;
      if exists a :: a in attempts && attempts[a].order == o && Active(attempts[a]) {
        var hold :| hold in attempts && attempts[hold].order == o && Active(attempts[hold]);
        assert hold == FindActive(s, o) by {
          assert ActiveHold(s, hold, o);
          TheActive(start, s, hold, FindActive(s, o), o);
        }
        var ok, released := ReleaseReservedStock(hold);
        if !ok {
          return "99";
        }
        restoredStock := true;
      } else if payments[o].paymentMethod == Cod && order.stockDeducted && !order.stockRestored {
        var stock0, ledger0 := stock, ledger;
        var ok := RestoreStock(order.branch, order.items, FromOrder(o));
        if !ok {
          stock, ledger := stock0, ledger0;
          return "99";
        }
        restoredStock := true;
      }
      if restoredStock {
        orders := orders[o := orders[o].(stockRestored := true)];
      }
      if payments[o].status == PayPending || payments[o].status == Unpaid {
        payments := payments[o := payments[o].(status := PayCancelled)];
      }
      var from := orders[o].status;
      orders := orders[o := orders[o].(status := Cancelled)];
      RecordHistory(o, Some(from), Cancelled);
      return OK;
    }

    method CancelByCustomer(user: Id, o: Id) returns (reply: string)
      requires Valid()
      modifies this
      ensures Current() == CustomerCancel(old(Current()), user, o).next
      ensures reply == CustomerCancel(old(Current()), user, o).reply
      ensures Valid()
    {
      hide Inv, Cancel;
      if o !in orders || o !in payments || orders[o].user != user {
        return "ORDER_NOT_FOUND";
      }
      reply := CancelOrder(o, CUSTOMER_CANCELLABLE);
    }

    method CancelByAdmin(permitted: bool, branch: Id, o: Id) returns (reply: string)
      requires Valid()
      modifies this
      ensures Current() == AdminCancel(old(Current()), permitted, branch, o).next
      ensures reply == AdminCancel(old(Current()), permitted, branch, o).reply
      ensures Valid()
    {
      hide Inv, Cancel;
      if !permitted {
        return "ADMIN_ORDER_MUTATION_FORBIDDEN";
      }
      if o !in orders || o !in payments || orders[o].branch != branch {
        return "ADMIN_ORDER_NOT_FOUND";
      }
      reply := CancelOrder(o, ADMIN_CANCELLABLE);
    }

    // ---- Fulfilment ----

    method MoveOn(permitted: bool, branch: Id, o: Id, target: OrderStatus) returns (reply: string)
      requires Valid()
      modifies this
      ensures Current() == Transition(old(Current()), permitted, branch, o, target).next
      ensures reply == Transition(old(Current()), permitted, branch, o, target).reply
      ensures Valid()
    {
      hide Inv;
      TransitionKeeps(start, Current(), permitted, branch, o, target);
      if !permitted {
        return "ADMIN_ORDER_MUTATION_FORBIDDEN";
      }
      if o !in orders || o !in payments || orders[o].branch != branch {
        return "ADMIN_ORDER_NOT_FOUND";
      }
      var from := orders[o].status;
      if NextStatus(from) != Some(target) {
        return "ORDER_TRANSITION_INVALID";
      }
      if target == Completed && !orders[o].received {
        return "ORDER_CUSTOMER_RECEIPT_REQUIRED";
      }
      orders := orders[o := orders[o].(status := target)];
      if target == Completed && payments[o].paymentMethod == Cod && payments[o].status == Unpaid {
        payments := payments[o := payments[o].(status := PayPaid)];
      }
      RecordHistory(o, Some(from), target);
      return OK;
    }

    method ConfirmReceipt(user: Id, o: Id) returns (reply: string)
      requires Valid()
      modifies this
      ensures Current() == ConfirmReceived(old(Current()), user, o).next
      ensures reply == ConfirmReceived(old(Current()), user, o).reply
      ensures Valid()
    {
      hide Inv;
      ConfirmKeeps(start, Current(), user, o);
      if o !in orders || orders[o].user != user {
        return "ORDER_NOT_FOUND";
      }
      if orders[o].received {
        return OK;
      }
      if orders[o].status != Shipping {
        return "ORDER_CONFIRM_RECEIVED_NOT_ALLOWED";
      }
      orders := orders[o := orders[o].(received := true)];
      history := history + [ReceiptConfirmed(o)];
      return OK;
    }

    // ---- Manual adjustment ----

    method AdjustQuantity(available: bool, k: Key, d: Adjustment, receiptId: Id) returns (reply: string)
      requires Valid()
      modifies this
      ensures Current() == Adjust(old(Current()), available, k, d, receiptId).next
      ensures reply == Adjust(old(Current()), available, k, d, receiptId).reply
      ensures Valid()
    {
      hide Inv;
      AdjustKeeps(start, Current(), available, k, d, receiptId);
      if !ValidAdjustment(d) {
        return "BAD_REQUEST";
      }
      if !available {
        return "INVENTORY_VARIANT_UNAVAILABLE";
      }
      var before := if k in stock then stock[k] else 0;
      if before != d.expected {
        return "INVENTORY_QUANTITY_CHANGED";
      }
      var change := if d.increase then d.quantity else -d.quantity;
      if before + change < 0 {
        return "INVENTORY_QUANTITY_NEGATIVE";
      }
      if before + change > MAX_QUANTITY {
        return "OUT_OF_RANGE";
      }
      if exists m :: m in ledger && m.source == FromAdjustment(receiptId) {
        return "UNIQUE_VIOLATION";
      }
      stock := stock[k := before + change];
      ledger := ledger + [Movement(k, Adjusted, change, before, before + change, FromAdjustment(receiptId))];
      return OK;
    }
  }

  lemma OnePending(start: map<Key, int>, s: State, a: Id, b: Id, o: Id)
    requires Inv(start, s) && PendingAttempt(s, a, o) && PendingAttempt(s, b, o)
    ensures a == b
  {
    hide Sound, IndexHolds, NoStrays, OrderAccount, OrderOk, ItemsOk;
    assert OrderInv(s, o);
  }

  lemma TheActive(start: map<Key, int>, s: State, a: Id, b: Id, o: Id)
    requires Inv(start, s) && ActiveHold(s, a, o) && ActiveHold(s, b, o)
    ensures a == b
  {
    hide Sound, IndexHolds, NoStrays, OrderAccount, OrderRows;
    assert OrderInv(s, o);
    OneActive(s, a, b, o);
  }

  lemma IdleRelease(s: State, id: Id)
    requires id in s.attempts && s.attempts[id].order in s.orders && !Active(s.attempts[id])
    ensures ReleaseHold(s, id) == Some(s)
  {
  }
}
