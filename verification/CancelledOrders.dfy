/** CANCELLED is not terminal: exactly which requests move a cancelled order on. */
module CancelledOrders {
  import opened OrderTypes
  import opened StockLedger
  import opened OrderProtocol
  import opened OrderInvariant
  import opened OrderSteps
  import opened OrderRuns
  import opened OrderGuarantees
  import opened OrderAtomic

  // ---- When a retry goes through ----

  /** Fresh ids, nothing pending, and enough on every shelf. */
  ghost predicate RetryFits(s: State, o: Id, id: Id, key: Id)
    requires o in s.orders
  {
    && !AttemptKeyTaken(s, key) && !HasPending(s, o) && FreshId(s, id)
    && forall k :: k in s.books.stock ==> QtyAt(s.orders[o].branch, s.orders[o].items, k) <= s.books.stock[k]
  }

  lemma DeductsExactly(start: map<Key, int>, s: State, o: Id, id: Id)
    requires Reachable(start, s) && PaymentKnown(s, o)
    ensures Deduct(s.books, s.orders[o].branch, ByVariant(s.orders[o].items), FromOrder(id)).Some? <==>
            forall k :: k in s.books.stock ==> QtyAt(s.orders[o].branch, s.orders[o].items, k) <= s.books.stock[k]
  {
    hide Reachable, OrderAccount, Unique, OrderOk, AttemptOk, Deduct, ByVariant, QtyAt;
    var order := s.orders[o];
    OrderFacts(start, s, o);
    StockNeverNegative(start, s);
    ItemsParts(order.branch, order.items, s.books.stock);
    SortContents(order.items);
    SortKeepsQtyAt(order.branch, order.items);
    SortedLines(s.books, order.branch, order.items);
    DeductSucceedsExactly(s.books, order.branch, ByVariant(order.items), FromOrder(id));
  }

  lemma SortedLines(b: Books, branch: Id, items: seq<Item>)
    requires ItemsOk(branch, items, b.stock)
    ensures Positive(ByVariant(items)) && AllStocked(b, branch, ByVariant(items))
  {
    hide ByVariant;
    SortContents(items);
    forall i | 0 <= i < |ByVariant(items)| ensures ByVariant(items)[i] in items {
      assert ByVariant(items)[i] in multiset(ByVariant(items));
    }
  }

  /** The transaction of a retry commits exactly then, whatever status the order has. */
  lemma RetryCommitsExactly(start: map<Key, int>, s: State, o: Id, seen: OrderStatus, id: Id, key: Id, now: int,
                            later: int)
    requires Reachable(start, s) && PaymentKnown(s, o)
    ensures var s' := RetryCommit(s, o, seen, id, key, now, later).next;
            && (s' != s <==> RetryFits(s, o, id, key))
            && (s' != s ==> o in s'.orders && s'.orders[o].status == PendingPayment)
  {
    hide Reachable, Deduct, ByVariant, HasPending, AttemptKeyTaken, QtyAt;
    DeductsExactly(start, s, o, id);
    var s' := RetryCommit(s, o, seen, id, key, now, later).next;
    if RetryFits(s, o, id, key) {
      assert id in s'.attempts && id !in s.attempts;
    }
  }

  // ---- What moves a cancelled order ----

  /**
   A notification for one of its attempts moves a cancelled order exactly when it is a verified failure of an
   attempt that the cancellation left pending. The order becomes PAYMENT_FAILED and no stock moves.
   */
  lemma LateFailureReopens(start: map<Key, int>, s: State, id: Id, cb: Callback)
    requires Reachable(start, s) && id in s.attempts && s.attempts[id].order in s.orders
    requires s.orders[s.attempts[id].order].status == Cancelled
    ensures var o, s' := s.attempts[id].order, HandleIpn(s, id, cb).next;
            && o in s'.orders && s'.books == s.books
            && s'.orders[o].status in {Cancelled, PaymentFailed}
            && (s'.orders[o].status == PaymentFailed <==>
                s.attempts[id].status == TxPending && ValidAmount(cb, s.attempts[id]) &&
                Verified(s, cb, s.attempts[id]) && !Succeeded(cb))
  {
    hide Reachable, OrderAccount, OrderOk, ItemsOk, Unique, Restore;
    AttemptFacts(start, s, id);
    assert AttemptOk(s.attempts[id], s.orders[s.attempts[id].order], s.payments[s.attempts[id].order]);
  }

  /** The requests that move a cancelled order on, by what can be checked beforehand. */
  ghost predicate Reopens(s: State, r: Request, o: Id)
    requires PaymentKnown(s, o)
  {
    match r
    case Ipn(id, cb) =>
      PendingAttempt(s, id, o) && ValidAmount(cb, s.attempts[id]) && Verified(s, cb, s.attempts[id]) && !Succeeded(cb)
    case RetryPayment(user, x, id, key, now, later) =>
      x == o && user == s.orders[o].user && s.payments[o].status != PayPaid && RetryFits(s, o, id, key)
    case CommitStaleRetry(x, seen, id, key, now, later) => x == o && RetryFits(s, o, id, key)
    case _ => false
  }

  lemma CancelledHasNoHold(start: map<Key, int>, s: State, o: Id, a: Id)
    requires Reachable(start, s) && PaymentKnown(s, o) && s.orders[o].status == Cancelled && AttemptOf(s, a, o)
    ensures !Active(s.attempts[a])
  {
    hide Reachable, OrderAccount, OrderOk, Unique, ItemsOk;
    AttemptFacts(start, s, a);
    assert AttemptOk(s.attempts[a], s.orders[o], s.payments[o]);
  }

  lemma IpnOnCancelled(start: map<Key, int>, s: State, id: Id, cb: Callback, o: Id)
    requires Reachable(start, s) && PaymentKnown(s, o) && s.orders[o].status == Cancelled
    ensures var s' := HandleIpn(s, id, cb).next;
            && o in s'.orders && s'.orders[o].status in {Cancelled, PaymentFailed}
            && (s'.orders[o].status != Cancelled <==> Reopens(s, Ipn(id, cb), o))
  {
    hide Reachable, ReleaseHold, CloseAttempt, ValidAmount, Verified, Superseded;
    if AttemptOf(s, id, o) {
      LateFailureReopens(start, s, id, cb);
    } else if id in s.attempts && PaymentKnown(s, s.attempts[id].order) && ReleaseHold(s, id).Some? {
      CloseStatus(s, id, s.attempts[id].order, o, TxCancelled, PayCancelled);
      CloseStatus(s, id, s.attempts[id].order, o, TxFailed, PayFailed);
    }
  }

  lemma ExpiryOnCancelled(start: map<Key, int>, s: State, user: Id, x: Id, now: int, o: Id)
    requires Reachable(start, s) && PaymentKnown(s, o) && s.orders[o].status == Cancelled
    ensures o in Expire(s, user, x, now).next.orders && Expire(s, user, x, now).next.orders[o].status == Cancelled
  {
    hide Reachable, ReleaseHold, CloseAttempt;
    if PaymentKnown(s, x) && HasExpired(s, x, now) {
      var id := FindExpired(s, x, now);
      if x == o {
        CancelledHasNoHold(start, s, o, id);
      } else if ReleaseHold(s, id).Some? {
        CloseStatus(s, id, x, o, TxExpired, PayExpired);
      }
    }
  }

  lemma CancelOnCancelled(s: State, x: Id, allowed: set<OrderStatus>, o: Id)
    requires PaymentKnown(s, x) && PaymentKnown(s, o) && s.orders[o].status == Cancelled
    ensures o in Cancel(s, x, allowed).next.orders && Cancel(s, x, allowed).next.orders[o].status == Cancelled
  {
    hide ReleaseHold, Restore;
    if x != o {
      CancelStatus(s, x, allowed, o);
    }
  }

  lemma RetryOnCancelled(start: map<Key, int>, s: State, x: Id, seen: OrderStatus, id: Id, key: Id, now: int,
                         later: int, o: Id)
    requires Reachable(start, s) && PaymentKnown(s, o) && s.orders[o].status == Cancelled
    ensures var s' := RetryCommit(s, x, seen, id, key, now, later).next;
            && o in s'.orders && s'.orders[o].status in {Cancelled, PendingPayment}
            && (s'.orders[o].status != Cancelled <==> x == o && RetryFits(s, o, id, key))
  {
    hide Reachable, Deduct, ByVariant, HasPending, AttemptKeyTaken, FreshId, RetryFits;
    if x == o {
      RetryCommitsExactly(start, s, o, seen, id, key, now, later);
    }
  }

  lemma PlacingOnCancelled(s: State, r: Request, o: Id)
    requires (r.PlaceCodOrder? || r.PlaceVnpayOrder?) && PaymentKnown(s, o)
    ensures o in Apply(s, r).next.orders && Apply(s, r).next.orders[o] == s.orders[o]
  {
    hide Deduct, ByVariant, CheckoutError, Subtotal, DistinctVariants, OwnAttemptExists, OwnOrderExists, OrderKeyTaken,
      AttemptKeyTaken;
  }

  /**
   A request moves a cancelled order of a reachable state exactly when it is a verified failure notification
   of an attempt still pending, or a retry of that very order that fits: prompt and not paid, or stale. The
   first makes it PAYMENT_FAILED, the others PENDING_PAYMENT.
   */
  lemma CancelledMovesExactly(start: map<Key, int>, s: State, r: Request, o: Id)
    requires Reachable(start, s) && PaymentKnown(s, o) && s.orders[o].status == Cancelled
    ensures var s' := Apply(s, r).next;
            && o in s'.orders
            && (s'.orders[o].status != Cancelled <==> Reopens(s, r, o))
            && (s'.orders[o].status != Cancelled ==>
                s'.orders[o].status == if r.Ipn? then PaymentFailed else PendingPayment)
  {
    hide Reachable, HandleIpn, Expire, Cancel, RetryCommit, RetryFits, PlaceCod, PlaceVnpay, ValidAmount, Verified,
      Superseded, HasPending, Adjust, ReturnRead;
    match r
    case PlaceCodOrder(b, x) => PlacingOnCancelled(s, r, o);
    case PlaceVnpayOrder(b, x, id, now, later) => PlacingOnCancelled(s, r, o);
    case Ipn(id, cb) => IpnOnCancelled(start, s, id, cb, o);
    case Return(id, cb) =>
    case GetStatus(user, x, now) => ExpiryOnCancelled(start, s, user, x, now, o);
    case RetryPayment(user, x, id, key, now, later) =>
      PromptRetryOnCancelled(start, s, user, x, id, key, now, later, o);
    case CommitStaleRetry(x, seen, id, key, now, later) => RetryOnCancelled(start, s, x, seen, id, key, now, later, o);
    case CancelByCustomer(user, x) =>
      if PaymentKnown(s, x) {
        CancelOnCancelled(s, x, CUSTOMER_CANCELLABLE, o);
      }
    case CancelByAdmin(permitted, branch, x) =>
      if PaymentKnown(s, x) {
        CancelOnCancelled(s, x, ADMIN_CANCELLABLE, o);
      }
    case MoveOn(permitted, branch, x, target) =>
    case ConfirmReceipt(user, x) =>
    case AdjustStock(available, row, d, receipt) => AdjustMovesNoOrder(s, available, row, d, receipt);
  }

  lemma AdjustMovesNoOrder(s: State, available: bool, row: Key, d: Adjustment, receipt: Id)
    ensures Adjust(s, available, row, d, receipt).next.orders == s.orders
  {
  }

  lemma PromptRetryOnCancelled(start: map<Key, int>, s: State, user: Id, x: Id, id: Id, key: Id, now: int, later: int,
                               o: Id)
    requires Reachable(start, s) && PaymentKnown(s, o) && s.orders[o].status == Cancelled
    ensures var s' := Retry(s, user, x, id, key, now, later).next;
            && o in s'.orders && s'.orders[o].status in {Cancelled, PendingPayment}
            && (s'.orders[o].status != Cancelled <==> Reopens(s, RetryPayment(user, x, id, key, now, later), o))
  {
    hide Reachable, RetryCommit, HasPending, AttemptKeyTaken, FreshId, QtyAt;
    if x in s.orders {
      RetryOnCancelled(start, s, x, s.orders[x].status, id, key, now, later, o);
    }
  }
}
