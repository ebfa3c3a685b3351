/** What callbacks, expiry and retries do to a reachable state, column by column, and exactly when. */
module PaymentEffects {
  import opened Wrappers
  import opened OrderTypes
  import opened StockLedger
  import opened OrderProtocol
  import opened OrderInvariant
  import opened OrderRuns
  import opened OrderGuarantees
  import opened CancelledOrders

  // ---- Rows and shelves ----

  /** Every shelf has moved by so many times the order's lines. */
  ghost predicate ShelvesMoved(s: State, s': State, o: Id, times: int)
    requires o in s.orders
  {
    && s'.books.stock.Keys == s.books.stock.Keys
    && forall k :: k in s.books.stock ==>
         s'.books.stock[k] == s.books.stock[k] + times * QtyAt(s.orders[o].branch, s.orders[o].items, k)
  }

  /** The order's lines fit back onto their shelves. */
  ghost predicate RoomFor(s: State, o: Id)
    requires o in s.orders
  {
    forall k :: k in s.books.stock && QtyAt(s.orders[o].branch, s.orders[o].items, k) > 0 ==>
      s.books.stock[k] + QtyAt(s.orders[o].branch, s.orders[o].items, k) <= 0x7fff_ffff
  }

  /** Exactly these rows of one order and one attempt become these, and the history grows by one entry. */
  ghost predicate RowsBecome(s: State, s': State, o: Id, id: Id, order: Order, payment: Payment, attempt: Attempt,
                             entry: HistoryEntry)
  {
    && s'.orders == s.orders[o := order]
    && s'.payments == s.payments[o := payment]
    && s'.attempts == s.attempts[id := attempt]
    && s'.history == s.history + [entry]
  }

  lemma OwnOrder(start: map<Key, int>, s: State, id: Id)
    requires Reachable(start, s) && id in s.attempts
    ensures PaymentKnown(s, s.attempts[id].order)
    ensures var o, a := s.attempts[id].order, s.attempts[id];
            && ItemsOk(s.orders[o].branch, s.orders[o].items, s.books.stock)
            && a.reserved && (a.status == TxPending ==> !a.consumed)
            && (a.status == TxPending && !a.released ==>
                  s.orders[o].status == PendingPayment && s.payments[o].status == PayPending)
            && (a.status == TxPaid <==> a.consumed) && !(a.consumed && a.released)
            && (!a.released && !a.consumed ==> a.status == TxPending)
            && (s.payments[o].status == PayPaid && s.payments[o].paymentMethod == Vnpay && a.status == TxPending ==>
                  a.released)
            && a.amount == s.payments[o].amount == s.orders[o].total
  {
    hide Reachable, OrderAccount, ItemsOk, Unique;
    AttemptFacts(start, s, id);
    assert AttemptOk(s.attempts[id], s.orders[s.attempts[id].order], s.payments[s.attempts[id].order]);
  }

  lemma RestoredExactly(start: map<Key, int>, s: State, o: Id, source: Source)
    requires Reachable(start, s) && PaymentKnown(s, o)
    ensures var r := Restore(s.books, s.orders[o].branch, s.orders[o].items, source);
            && (r.Some? <==> RoomFor(s, o))
            && (r.Some? ==> ShelvesMoved(s, s.(books := r.value), o, 1))
  {
    hide Reachable, OrderAccount, Unique, OrderOk, AttemptOk, Restore, QtyAt;
    OrderFacts(start, s, o);
    RestoreFailsOnlyOnOverflow(s.books, s.orders[o].branch, s.orders[o].items, source);
    if Restore(s.books, s.orders[o].branch, s.orders[o].items, source).Some? {
      RestoreMoves(s.books, s.orders[o].branch, s.orders[o].items, source);
    }
  }

  /** A hold is given back exactly when its lines fit back; one that is closed already is left alone. */
  lemma ReleasedExactly(start: map<Key, int>, s: State, id: Id)
    requires Reachable(start, s) && id in s.attempts
    ensures s.attempts[id].order in s.orders
    ensures var a, r, o := s.attempts[id], ReleaseHold(s, id), s.attempts[id].order;
            var held := !a.released && !a.consumed;
            && (r.Some? <==> held ==> RoomFor(s, o))
            && (r.Some? ==> ShelvesMoved(s, r.value, o, if held then 1 else 0))
            && (r.Some? ==>
                  r.value == s.(books := r.value.books,
                                attempts := s.attempts[id := a.(released := a.released || held)]))
  {
    hide Reachable, ItemsOk, Restore, RoomFor, QtyAt;
    OwnOrder(start, s, id);
    var o := s.attempts[id].order;
    RestoredExactly(start, s, o, FromOrder(id));
    assert s.attempts[id := s.attempts[id]] == s.attempts;
  }

  /** The callback names this attempt's order's total, a hundred times over, as a safe integer. */
  predicate RightAmount(s: State, o: Id, cb: Callback)
    requires o in s.orders
  {
    cb.amount == Some(s.orders[o].total * 100) && -0x1f_ffff_ffff_ffff <= cb.amount.value <= 0x1f_ffff_ffff_ffff
  }

  /** The callback is signed, names this merchant, and is for a VNPAY attempt and its amount. */
  predicate Genuine(s: State, id: Id, cb: Callback)
  {
    && cb.signatureValid && cb.merchantFieldsValid
    && id in s.attempts && PaymentKnown(s, s.attempts[id].order)
    && s.payments[s.attempts[id].order].paymentMethod == Vnpay
    && RightAmount(s, s.attempts[id].order, cb)
  }

  lemma GenuineExactly(start: map<Key, int>, s: State, id: Id, cb: Callback)
    requires Reachable(start, s)
    ensures Genuine(s, id, cb) <==>
              id in s.attempts && ValidAmount(cb, s.attempts[id]) && Verified(s, cb, s.attempts[id])
    ensures id in s.attempts ==> PaymentKnown(s, s.attempts[id].order)
    ensures id in s.attempts ==> (ValidAmount(cb, s.attempts[id]) <==> RightAmount(s, s.attempts[id].order, cb))
  {
    hide Reachable, ItemsOk;
    if id in s.attempts {
      OwnOrder(start, s, id);
    }
  }

  // ---- Success ----

  /** No other attempt of the order has been paid, and none was made later. */
  ghost predicate Latest(s: State, id: Id)
    requires id in s.attempts
  {
    forall b :: b in s.attempts && b != id && s.attempts[b].order == s.attempts[id].order ==>
      s.attempts[b].status != TxPaid && s.attempts[b].createdAt <= s.attempts[id].createdAt
  }

  /** The attempt is paid for: it keeps what it held, and the order goes on to PENDING. */
  ghost predicate BecomesPaid(s: State, s': State, id: Id)
    requires id in s.attempts && PaymentKnown(s, s.attempts[id].order)
  {
    var o := s.attempts[id].order;
    && s'.books == s.books
    && RowsBecome(s, s', o, id, s.orders[o].(status := Pending, stockDeducted := true),
                  s.payments[o].(status := PayPaid), s.attempts[id].(status := TxPaid, consumed := true),
                  StatusChanged(o, Some(PendingPayment), Pending))
  }

  /** A success that can still be honoured: genuine, for the open hold of the latest attempt. */
  ghost predicate Honoured(s: State, id: Id, cb: Callback)
  {
    && Genuine(s, id, cb) && cb.responseCode == "00" && cb.transactionStatus == "00"
    && s.attempts[id].status == TxPending && !s.attempts[id].released && Latest(s, id)
  }

  lemma AppliedExactly(start: map<Key, int>, s: State, id: Id, cb: Callback)
    requires Reachable(start, s)
    ensures SuccessVerdict(s, id, cb) == Applied <==> Honoured(s, id, cb)
    ensures SuccessVerdict(s, id, cb) == AlreadyApplied <==>
              && Genuine(s, id, cb) && cb.responseCode == "00" && cb.transactionStatus == "00"
              && s.attempts[id].status == TxPaid && s.payments[s.attempts[id].order].status == PayPaid
    ensures Honoured(s, id, cb) ==> BecomesPaid(s, ApplySuccess(s, id, cb), id)
    ensures !Honoured(s, id, cb) ==> ApplySuccess(s, id, cb) == s
  {
    hide Reachable, ItemsOk, RightAmount, ValidAmount;
    GenuineExactly(start, s, id, cb);
    if id in s.attempts {
      OwnOrder(start, s, id);
      assert Superseded(s, id) <==> !Latest(s, id);
    }
  }

  /** A notification of success acts exactly then, and marks attempt, payment and order as paid. */
  lemma SuccessPaysExactly(start: map<Key, int>, s: State, id: Id, cb: Callback)
    requires Reachable(start, s) && cb.responseCode == "00" && cb.transactionStatus == "00"
    ensures HandleIpn(s, id, cb).next != s <==> Honoured(s, id, cb)
    ensures Honoured(s, id, cb) ==> BecomesPaid(s, HandleIpn(s, id, cb).next, id) && HandleIpn(s, id, cb).reply == "00"
  {
    hide Reachable, Latest, SuccessVerdict, ApplySuccess, RightAmount, ValidAmount, Verified;
    AppliedExactly(start, s, id, cb);
    GenuineExactly(start, s, id, cb);
    if Honoured(s, id, cb) {
      assert HandleIpn(s, id, cb).next == ApplySuccess(s, id, cb);
      assert ApplySuccess(s, id, cb).attempts[id].status == TxPaid;
    }
  }

  // ---- Failure ----

  /** The attempt and its payment are closed, the order fails, and what was held is back. */
  ghost predicate BecomesClosed(s: State, s': State, id: Id, status: AttemptStatus, paid: PaymentStatus)
    requires id in s.attempts && PaymentKnown(s, s.attempts[id].order)
  {
    var o := s.attempts[id].order;
    && ShelvesMoved(s, s', o, if s.attempts[id].released then 0 else 1)
    && RowsBecome(s, s', o, id, s.orders[o].(status := PaymentFailed, stockRestored := true),
                  s.payments[o].(status := paid), s.attempts[id].(status := status, released := true),
                  StatusChanged(o, Some(s.orders[o].status), PaymentFailed))
  }

  lemma ClosesRows(start: map<Key, int>, s: State, id: Id, status: AttemptStatus, paid: PaymentStatus)
    requires Reachable(start, s) && id in s.attempts && s.attempts[id].status == TxPending
    requires PaymentKnown(s, s.attempts[id].order) && ReleaseHold(s, id).Some?
    ensures BecomesClosed(s, CloseAttempt(ReleaseHold(s, id).value, id, status, paid), id, status, paid)
  {
    hide Reachable, ItemsOk, RoomFor, QtyAt, ReleaseHold;
    OwnOrder(start, s, id);
    ReleasedExactly(start, s, id);
  }

  lemma ClosedDiffers(s: State, s': State, id: Id, status: AttemptStatus, paid: PaymentStatus)
    requires id in s.attempts && PaymentKnown(s, s.attempts[id].order)
    requires s.attempts[id].status != status && BecomesClosed(s, s', id, status, paid)
    ensures s' != s
  {
    assert s'.attempts[id].status == status;
  }

  /** A failure that finds its attempt pending, with room for what it holds. */
  ghost predicate Closable(s: State, id: Id)
  {
    && id in s.attempts && s.attempts[id].order in s.orders
    && s.attempts[id].status == TxPending && (!s.attempts[id].released ==> RoomFor(s, s.attempts[id].order))
  }

  /**
   A notification of anything but success acts exactly on a genuine pending attempt: code 24 is the customer's
   own cancellation, any other a failure.
   */
  lemma FailureClosesExactly(start: map<Key, int>, s: State, id: Id, cb: Callback)
    requires Reachable(start, s) && !(cb.responseCode == "00" && cb.transactionStatus == "00")
    ensures HandleIpn(s, id, cb).next != s <==> Genuine(s, id, cb) && Closable(s, id)
    ensures Genuine(s, id, cb) && Closable(s, id) ==>
              && HandleIpn(s, id, cb).reply == "00"
              && BecomesClosed(s, HandleIpn(s, id, cb).next, id,
                               if cb.responseCode == "24" then TxCancelled else TxFailed,
                               if cb.responseCode == "24" then PayCancelled else PayFailed)
  {
    hide Reachable, RightAmount, ValidAmount, Verified, RoomFor, ReleaseHold, CloseAttempt, ItemsOk, BecomesClosed;
    GenuineExactly(start, s, id, cb);
    if id in s.attempts {
      OwnOrder(start, s, id);
      ReleasedExactly(start, s, id);
      if s.attempts[id].status == TxPending && ReleaseHold(s, id).Some? {
        var closed, paid := if cb.responseCode == "24" then TxCancelled else TxFailed,
                            if cb.responseCode == "24" then PayCancelled else PayFailed;
        ClosesRows(start, s, id, closed, paid);
        ClosedDiffers(s, CloseAttempt(ReleaseHold(s, id).value, id, closed, paid), id, closed, paid);
      }
    }
  }

  // ---- Expiry ----

  /** The attempt is pending, its time is over, and it holds stock that fits back. */
  ghost predicate Overdue(s: State, id: Id, o: Id, now: int)
  {
    && id in s.attempts && s.attempts[id].order == o && s.attempts[id].status == TxPending
    && s.attempts[id].expiresAt <= now && !s.attempts[id].released
    && o in s.orders && RoomFor(s, o)
  }

  /** Asking for the status of an own order expires its attempt exactly when that is overdue. */
  lemma ExpiresExactly(start: map<Key, int>, s: State, user: Id, o: Id, now: int)
    requires Reachable(start, s)
    ensures Expire(s, user, o, now).next != s <==>
              o in s.orders && s.orders[o].user == user && exists id :: Overdue(s, id, o, now)
    ensures forall id :: Overdue(s, id, o, now) && s.orders[o].user == user ==>
              PaymentKnown(s, o) && BecomesClosed(s, Expire(s, user, o, now).next, id, TxExpired, PayExpired)
  {
    hide Reachable, RoomFor, ReleaseHold, CloseAttempt, BecomesClosed, ItemsOk;
    forall id | Overdue(s, id, o, now) && s.orders[o].user == user
      ensures PaymentKnown(s, o) && BecomesClosed(s, Expire(s, user, o, now).next, id, TxExpired, PayExpired)
    {
      FoundExactly(start, s, id, o, now);
      OwnOrder(start, s, id);
      ReleasedExactly(start, s, id);
      ClosesRows(start, s, id, TxExpired, PayExpired);
    }
    if PaymentKnown(s, o) && s.orders[o].user == user && HasExpired(s, o, now) {
      var id := FindExpired(s, o, now);
      OwnOrder(start, s, id);
      ReleasedExactly(start, s, id);
      if Overdue(s, id, o, now) {
        ClosedDiffers(s, Expire(s, user, o, now).next, id, TxExpired, PayExpired);
      }
    }
    if id :| Overdue(s, id, o, now) && s.orders[o].user == user {
      FoundExactly(start, s, id, o, now);
      OwnOrder(start, s, id);
      ClosedDiffers(s, Expire(s, user, o, now).next, id, TxExpired, PayExpired);
    }
  }

  lemma FoundExactly(start: map<Key, int>, s: State, id: Id, o: Id, now: int)
    requires Reachable(start, s) && Overdue(s, id, o, now)
    ensures HasExpired(s, o, now) && FindExpired(s, o, now) == id
  {
    hide Reachable, RoomFor;
    assert ExpiredAttempt(s, id, o, now);
    AttemptsAreUnique(start, s, id, FindExpired(s, o, now));
  }

  // ---- Answers ----

  /** The gateway is told exactly this: a bad signature, an unknown attempt, a wrong amount, or what became of it. */
  lemma NotificationAnswers(start: map<Key, int>, s: State, id: Id, cb: Callback)
    requires Reachable(start, s)
    ensures var reply := HandleIpn(s, id, cb).reply;
            if !cb.signatureValid then reply == "97"
            else if id !in s.attempts then reply == "01"
            else if s.attempts[id].order in s.orders && !RightAmount(s, s.attempts[id].order, cb) then reply == "04"
            else if !Genuine(s, id, cb) then reply == "97"
            else if cb.responseCode == "00" && cb.transactionStatus == "00" then
              reply == if Honoured(s, id, cb) || (s.attempts[id].status == TxPaid &&
                                                  s.payments[s.attempts[id].order].status == PayPaid)
                       then "00" else "02"
            else reply == if s.attempts[id].status != TxPending then "02"
                          else if Closable(s, id) then "00" else "99"
  {
    hide Reachable, Latest, ValidAmount, RightAmount, SuccessVerdict, ApplySuccess, RoomFor, ReleaseHold, CloseAttempt,
      ItemsOk;
    GenuineExactly(start, s, id, cb);
    AppliedExactly(start, s, id, cb);
    if id in s.attempts {
      OwnOrder(start, s, id);
      ReleasedExactly(start, s, id);
    }
  }

  /** The browser is told of a success exactly when there is one, and only then can its return have written it. */
  lemma ReturnAnswers(start: map<Key, int>, s: State, id: Id, cb: Callback)
    requires Reachable(start, s)
    ensures BuildReturn(s, id, cb).next != s <==> Honoured(s, id, cb)
    ensures Honoured(s, id, cb) ==> BecomesPaid(s, BuildReturn(s, id, cb).next, id)
    ensures var reply := BuildReturn(s, id, cb).reply;
            if !Genuine(s, id, cb) then reply == "invalid"
            else if cb.responseCode == "24" then reply == "cancelled"
            else if cb.responseCode == "00" && cb.transactionStatus == "00" then
              reply == if Honoured(s, id, cb) || (s.attempts[id].status == TxPaid &&
                                                  s.payments[s.attempts[id].order].status == PayPaid)
                       then "success" else "processing"
            else reply == if cb.responseCode == "" || cb.transactionStatus == "" then "processing" else "failed"
  {
    hide Reachable, Latest, Genuine, ValidAmount, Verified, SuccessVerdict, ApplySuccess;
    GenuineExactly(start, s, id, cb);
    AppliedExactly(start, s, id, cb);
    if Honoured(s, id, cb) {
      assert ApplySuccess(s, id, cb).attempts[id].status == TxPaid;
    }
  }

  // ---- Retry ----

  /** A new attempt for the order's total, holding its lines from now until it expires. */
  ghost predicate Reserves(s: State, s': State, o: Id, seen: OrderStatus, id: Id, key: Id, now: int, later: int)
    requires PaymentKnown(s, o)
  {
    && ShelvesMoved(s, s', o, -1)
    && RowsBecome(s, s', o, id, s.orders[o].(status := PendingPayment, stockRestored := false),
                  s.payments[o].(status := PayPending),
                  Attempt(o, key, TxPending, s.orders[o].total, now, now + later, true, false, false),
                  StatusChanged(o, Some(seen), PendingPayment))
  }

  /** Nothing pending, a new key and id, and enough on every shelf. */
  ghost predicate Retriable(s: State, o: Id, id: Id, key: Id)
    requires o in s.orders
  {
    && (forall a :: a in s.attempts ==> s.attempts[a].key != key)
    && (forall a :: a in s.attempts && s.attempts[a].order == o ==> s.attempts[a].status != TxPending)
    && id !in s.orders && id !in s.payments && id !in s.attempts
    && (forall m :: m in s.books.ledger ==> m.source != FromOrder(id))
    && forall k :: k in s.books.stock ==> QtyAt(s.orders[o].branch, s.orders[o].items, k) <= s.books.stock[k]
  }

  /** A retry, whatever it has read, reserves exactly then. */
  lemma RetryReservesExactly(start: map<Key, int>, s: State, o: Id, seen: OrderStatus, id: Id, key: Id, now: int,
                             later: int)
    requires Reachable(start, s) && PaymentKnown(s, o)
    ensures var s' := RetryCommit(s, o, seen, id, key, now, later).next;
            && (s' != s <==> Retriable(s, o, id, key))
            && (s' != s ==> Reserves(s, s', o, seen, id, key, now, later))
  {
    hide Reachable, Deduct, ByVariant, QtyAt;
    RetryCommitsExactly(start, s, o, seen, id, key, now, later);
    assert RetryFits(s, o, id, key) <==> Retriable(s, o, id, key);
    var s' := RetryCommit(s, o, seen, id, key, now, later).next;
    if s' != s {
      TakenShelves(start, s, o, id);
    }
  }

  lemma TakenShelves(start: map<Key, int>, s: State, o: Id, id: Id)
    requires Reachable(start, s) && PaymentKnown(s, o)
    requires Deduct(s.books, s.orders[o].branch, ByVariant(s.orders[o].items), FromOrder(id)).Some?
    ensures var books := Deduct(s.books, s.orders[o].branch, ByVariant(s.orders[o].items), FromOrder(id)).value;
            ShelvesMoved(s, s.(books := books), o, -1)
    ensures s.payments[o].amount == s.orders[o].total
  {
    hide Reachable, OrderAccount, Unique, AttemptOk, Deduct, ByVariant, QtyAt, ItemsOk;
    OrderFacts(start, s, o);
    DeductMoves(s.books, s.orders[o].branch, ByVariant(s.orders[o].items), FromOrder(id));
    SortKeepsQtyAt(s.orders[o].branch, s.orders[o].items);
  }

  /** A customer's own retry, prompt, is refused exactly for a paid order or where it cannot reserve. */
  lemma OwnRetryExactly(start: map<Key, int>, s: State, user: Id, o: Id, id: Id, key: Id, now: int, later: int)
    requires Reachable(start, s)
    ensures var s' := Retry(s, user, o, id, key, now, later).next;
            && (s' != s <==> PaymentKnown(s, o) && s.orders[o].user == user && s.payments[o].status != PayPaid &&
                             Retriable(s, o, id, key))
            && (s' != s ==> Reserves(s, s', o, s.orders[o].status, id, key, now, later))
  {
    hide Reachable, RetryCommit, QtyAt, Reserves;
    if PaymentKnown(s, o) {
      RetryReservesExactly(start, s, o, s.orders[o].status, id, key, now, later);
    }
  }

  // ---- What the customer is shown afterwards ----

  /** After a payment has failed or expired, its order is one for which a retry is offered. */
  lemma ClosedOffersRetry(start: map<Key, int>, s: State, s': State, id: Id, status: AttemptStatus, paid: PaymentStatus)
    requires id in s.attempts && PaymentKnown(s, s.attempts[id].order)
    requires BecomesClosed(s, s', id, status, paid)
    ensures OffersRetry(s', s.attempts[id].order) <==> s.payments[s.attempts[id].order].paymentMethod == Vnpay
  {
  }
}
