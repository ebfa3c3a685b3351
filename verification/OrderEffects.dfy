/** What cancellation, fulfilment, receipt and adjustment do, column by column, exactly when, and for whom. */
module OrderEffects {
  import opened Wrappers
  import opened OrderTypes
  import opened StockLedger
  import opened OrderProtocol
  import opened OrderInvariant
  import opened OrderRuns
  import opened OrderGuarantees
  import opened StockEquation
  import opened PaymentEffects

  // ---- Cancellation ----

  /** The order has something to give back: it waits for a payment, or is a COD order that has not yet. */
  predicate GivesBack(s: State, o: Id)
    requires PaymentKnown(s, o)
  {
    || s.orders[o].status == PendingPayment
    || (s.payments[o].paymentMethod == Cod && !s.orders[o].stockRestored)
  }

  /** CANCELLED, with the payment closed unless it already is, the open hold released, and the goods back. */
  ghost predicate BecomesCancelled(s: State, s': State, o: Id)
    requires PaymentKnown(s, o)
  {
    && ShelvesMoved(s, s', o, if GivesBack(s, o) then 1 else 0)
    && s'.orders == s.orders[o := s.orders[o].(status := Cancelled,
                                               stockRestored := s.orders[o].stockRestored || GivesBack(s, o))]
    && s'.payments == s.payments[o := s.payments[o].(status :=
         if s.payments[o].status in {PayPending, Unpaid} then PayCancelled else s.payments[o].status)]
    && s'.attempts.Keys == s.attempts.Keys
    && (forall a :: a in s.attempts ==>
          s'.attempts[a] == if s.attempts[a].order == o && !s.attempts[a].released && !s.attempts[a].consumed
                            then s.attempts[a].(released := true) else s.attempts[a])
    && s'.history == s.history + [StatusChanged(o, Some(s.orders[o].status), Cancelled)]
  }

  /** Not yet cancelled, in one of these statuses, not a paid VNPAY order, and what it gives back fits. */
  ghost predicate Cancellable(s: State, o: Id, allowed: set<OrderStatus>)
    requires PaymentKnown(s, o)
  {
    && s.orders[o].status != Cancelled && s.orders[o].status in allowed
    && !(s.payments[o].paymentMethod == Vnpay && s.payments[o].status == PayPaid)
    && (GivesBack(s, o) ==> RoomFor(s, o))
  }

  lemma CodDeducted(start: map<Key, int>, s: State, o: Id)
    requires Reachable(start, s) && PaymentKnown(s, o)
    ensures s.payments[o].paymentMethod == Cod ==> s.orders[o].stockDeducted
  {
    hide Reachable, OrderAccount, Unique, AttemptOk, ItemsOk;
    OrderFacts(start, s, o);
  }

  lemma ReturnedExactly(start: map<Key, int>, s: State, o: Id)
    requires Reachable(start, s) && PaymentKnown(s, o)
    ensures ReturnStock(s, o).Some? <==> (GivesBack(s, o) ==> RoomFor(s, o))
    ensures ReturnStock(s, o).Some? ==>
              PaymentKnown(ReturnStock(s, o).value, o) &&
              BecomesCancelled(s, FinishCancel(ReturnStock(s, o).value, o), o)
  {
    hide Reachable, ReleaseHold, Restore, RoomFor, QtyAt;
    WaitsExactly(start, s, o);
    CodDeducted(start, s, o);
    if HasActive(s, o) {
      var id := FindActive(s, o);
      ReleasedExactly(start, s, id);
      forall a | a in s.attempts && s.attempts[a].order == o && !s.attempts[a].released && !s.attempts[a].consumed
        ensures a == id
      {
        OwnOrder(start, s, a);
        AttemptsAreUnique(start, s, a, id);
      }
    } else {
      RestoredExactly(start, s, o, FromOrder(o));
      forall a | a in s.attempts && s.attempts[a].order == o ensures s.attempts[a].released || s.attempts[a].consumed {
        OwnOrder(start, s, a);
        assert !ActiveHold(s, a, o);
      }
    }
  }

  lemma CancelExactly(start: map<Key, int>, s: State, o: Id, allowed: set<OrderStatus>)
    requires Reachable(start, s) && PaymentKnown(s, o)
    ensures Cancel(s, o, allowed).next != s <==> Cancellable(s, o, allowed)
    ensures Cancellable(s, o, allowed) ==> BecomesCancelled(s, Cancel(s, o, allowed).next, o)
  {
    hide Reachable, ReturnStock, FinishCancel, RoomFor, ShelvesMoved, GivesBack;
    ReturnedExactly(start, s, o);
    if Cancellable(s, o, allowed) {
      assert Cancel(s, o, allowed).next.orders[o].status == Cancelled;
    }
  }

  /** A customer cancels exactly an own order, until it is confirmed. */
  lemma CustomerCancelsExactly(start: map<Key, int>, s: State, user: Id, o: Id)
    requires Reachable(start, s)
    ensures CustomerCancel(s, user, o).next != s <==>
              PaymentKnown(s, o) && s.orders[o].user == user &&
              Cancellable(s, o, {PendingPayment, PaymentFailed, Pending})
    ensures CustomerCancel(s, user, o).next != s ==> BecomesCancelled(s, CustomerCancel(s, user, o).next, o)
  {
    hide Reachable, Cancel, Cancellable, BecomesCancelled;
    if PaymentKnown(s, o) {
      CancelExactly(start, s, o, {PendingPayment, PaymentFailed, Pending});
    }
  }

  /** Staff cancel exactly an order of their branch, until it is shipped. */
  lemma StaffCancelExactly(start: map<Key, int>, s: State, permitted: bool, branch: Id, o: Id)
    requires Reachable(start, s)
    ensures AdminCancel(s, permitted, branch, o).next != s <==>
              permitted && PaymentKnown(s, o) && s.orders[o].branch == branch &&
              Cancellable(s, o, {PendingPayment, PaymentFailed, Pending, Confirmed, Packing})
    ensures AdminCancel(s, permitted, branch, o).next != s ==>
              BecomesCancelled(s, AdminCancel(s, permitted, branch, o).next, o)
  {
    hide Reachable, Cancel, Cancellable, BecomesCancelled;
    if PaymentKnown(s, o) {
      CancelExactly(start, s, o, {PendingPayment, PaymentFailed, Pending, Confirmed, Packing});
    }
  }

  /** A refusal says why: a status too far on, in words of the one who asked, or a payment that needs a refund. */
  lemma CancelRefusals(s: State, user: Id, branch: Id, o: Id)
    requires PaymentKnown(s, o) && s.orders[o].user == user && s.orders[o].branch == branch
    ensures var status := s.orders[o].status;
            var mine, theirs := CustomerCancel(s, user, o).reply, AdminCancel(s, true, branch, o).reply;
            && (status == Cancelled ==> mine == OK && theirs == OK)
            && (status in {Confirmed, Packing} ==> mine == "ORDER_CANNOT_BE_CANCELLED")
            && (status in {Shipping, Completed, Returned} ==>
                  mine == "ORDER_CANNOT_BE_CANCELLED" && theirs == "ORDER_CANCEL_NOT_ALLOWED")
            && (s.payments[o].paymentMethod == Vnpay && s.payments[o].status == PayPaid && status != Cancelled ==>
                  && (status in {PendingPayment, PaymentFailed, Pending} ==>
                        mine == "ORDER_CANCELLATION_REQUIRES_REFUND")
                  && (status in {PendingPayment, PaymentFailed, Pending, Confirmed, Packing} ==>
                        theirs == "ORDER_CANCELLATION_REQUIRES_REFUND"))
  {
    hide ReturnStock, FinishCancel;
    assert Packing in ADMIN_CANCELLABLE && Packing !in CUSTOMER_CANCELLABLE;
  }

  // ---- Fulfilment ----

  /** The next station of an order on its way to the customer. */
  predicate Follows(from: OrderStatus, to: OrderStatus)
  {
    (from, to) in {(Pending, Confirmed), (Confirmed, Packing), (Packing, Shipping), (Shipping, Completed)}
  }

  /** Staff move an order of their branch exactly one station on, to the last one only once it has been received. */
  lemma MovesExactly(s: State, permitted: bool, branch: Id, o: Id, target: OrderStatus)
    ensures Transition(s, permitted, branch, o, target).next != s <==>
              permitted && PaymentKnown(s, o) && s.orders[o].branch == branch &&
              Follows(s.orders[o].status, target) && (target == Completed ==> s.orders[o].received)
    ensures var s' := Transition(s, permitted, branch, o, target).next;
            s' != s ==>
              && s'.books == s.books && s'.attempts == s.attempts
              && s'.orders == s.orders[o := s.orders[o].(status := target)]
              && s'.payments == s.payments[o := s.payments[o].(status :=
                   if target == Completed && s.payments[o] == Payment(Cod, Unpaid, s.payments[o].amount)
                   then PayPaid else s.payments[o].status)]
              && s'.history == s.history + [StatusChanged(o, Some(s.orders[o].status), target)]
  {
    var s' := Transition(s, permitted, branch, o, target).next;
    if PaymentKnown(s, o) {
      assert s.payments[o := s.payments[o]] == s.payments;
      if s' != s {
        assert s'.orders[o].status == target;
      }
      if permitted && s.orders[o].branch == branch && Follows(s.orders[o].status, target) &&
         (target == Completed ==> s.orders[o].received)
      {
        assert |s'.history| == |s.history| + 1;
      }
    }
  }

  /** Receipt is confirmed by the customer of an order exactly once, while it is being shipped. */
  lemma ReceivesExactly(s: State, user: Id, o: Id)
    ensures ConfirmReceived(s, user, o).next != s <==>
              o in s.orders && s.orders[o].user == user && s.orders[o].status == Shipping && !s.orders[o].received
    ensures var s' := ConfirmReceived(s, user, o).next;
            s' != s ==> s' == s.(orders := s.orders[o := s.orders[o].(received := true)],
                                 history := s.history + [ReceiptConfirmed(o)])
  {
    if ConfirmReceived(s, user, o).next != s {
      assert ConfirmReceived(s, user, o).next.orders[o].received;
    }
    if o in s.orders && s.orders[o].user == user && s.orders[o].status == Shipping && !s.orders[o].received {
      assert |ConfirmReceived(s, user, o).next.history| == |s.history| + 1;
    }
  }

  // ---- Manual adjustment ----

  /** What an adjustment of 1 to 1000 copies leaves: more if it adds, less if it takes away. */
  function Counted(d: Adjustment): int
  {
    if d.increase then d.expected + d.quantity else d.expected - d.quantity
  }

  /** An adjustment is made exactly on the quantity it expects, within the column, and written with its movement. */
  lemma AdjustsExactly(s: State, available: bool, k: Key, d: Adjustment, receipt: Id)
    ensures Adjust(s, available, k, d, receipt).next != s <==>
              && available && 1 <= d.quantity <= 1000
              && d.expected == At(s.books.stock, k)
              && 0 <= d.expected <= 0x7fff_ffff && 0 <= Counted(d) <= 0x7fff_ffff
              && forall m :: m in s.books.ledger ==> m.source != FromAdjustment(receipt)
    ensures var s' := Adjust(s, available, k, d, receipt).next;
            s' != s ==>
              s' == s.(books := Books(s.books.stock[k := Counted(d)],
                                      s.books.ledger + [Movement(k, Adjusted, Counted(d) - d.expected,
                                                                 d.expected, Counted(d), FromAdjustment(receipt))]))
  {
    var s' := Adjust(s, available, k, d, receipt).next;
    if s' != s {
      assert s.books.stock[k := 0][k := Counted(d)] == s.books.stock[k := Counted(d)];
    }
    if s'.books != s.books {
      assert |s'.books.ledger| == |s.books.ledger| + 1;
    }
    if available && ValidAdjustment(d) && d.expected == At(s.books.stock, k) && 0 <= Counted(d) <= 0x7fff_ffff &&
       forall m :: m in s.books.ledger ==> m.source != FromAdjustment(receipt)
    {
      assert |s'.books.ledger| == |s.books.ledger| + 1;
    }
  }

  // ---- For whom ----

  /** The request is made on an order by somebody whose order it is not, or whose branch. */
  predicate Foreign(s: State, r: Request)
  {
    match r
    case GetStatus(user, o, now) => o in s.orders && s.orders[o].user != user
    case RetryPayment(user, o, id, key, now, later) => o in s.orders && s.orders[o].user != user
    case CancelByCustomer(user, o) => o in s.orders && s.orders[o].user != user
    case ConfirmReceipt(user, o) => o in s.orders && s.orders[o].user != user
    case CancelByAdmin(permitted, branch, o) => !permitted || (o in s.orders && s.orders[o].branch != branch)
    case MoveOn(permitted, branch, o, target) => !permitted || (o in s.orders && s.orders[o].branch != branch)
    case _ => false
  }

  /** It changes nothing. */
  lemma ForeignChangesNothing(s: State, r: Request)
    requires Foreign(s, r)
    ensures Apply(s, r).next == s
    ensures Apply(s, r).reply in
            {"PAYMENT_NOT_FOUND", "ORDER_NOT_FOUND", "ADMIN_ORDER_NOT_FOUND", "ADMIN_ORDER_MUTATION_FORBIDDEN"}
  {
  }
}
