/**
 The runs in which the orders of paid attempts stay live, exactly: those without a retry that goes through on a
 stale read of a paid order. There the status of a VNPAY order alone decides whether its stock is out.
 */
module OrderAtomic {
  import opened OrderTypes
  import opened StockLedger
  import opened OrderProtocol
  import opened OrderInvariant
  import opened OrderSteps
  import opened OrderRuns
  import opened OrderGuarantees
  import opened OrderCallbacks

  /** A paid attempt's order has not left the statuses from PENDING to COMPLETED. */
  ghost predicate PaidStaysLive(s: State)
  {
    forall a :: a in s.attempts && s.attempts[a].consumed ==>
      s.attempts[a].order in s.orders && Live(s.orders[s.attempts[a].order].status)
  }

  /** Only VNPAY orders have attempts. */
  ghost predicate CodUnretried(s: State)
  {
    forall a :: a in s.attempts ==>
      s.attempts[a].order in s.payments && s.payments[s.attempts[a].order].paymentMethod == Vnpay
  }

  ghost predicate Prompt(r: Request)
  {
    !r.CommitStaleRetry?
  }

  /** No retry of a COD payment: retry itself does not check the method. */
  ghost predicate RetriesVnpay(s: State, r: Request)
  {
    r.RetryPayment? ==> r.order in s.payments ==> s.payments[r.order].paymentMethod == Vnpay
  }

  // ---- A paid VNPAY order only moves forward ----

  lemma LiveIsPaid(s: State, o: Id)
    requires OrderInv(s, o) && Live(s.orders[o].status) && s.payments[o].paymentMethod == Vnpay
    ensures s.payments[o].status == PayPaid
  {
    hide OrderAccount, ItemsOk, Unique, AttemptOk;
  }

  lemma PendingIsNotLive(s: State, a: Id, o: Id)
    requires OrderInv(s, o) && PendingAttempt(s, a, o)
    ensures !Live(s.orders[o].status)
  {
    assert AttemptOk(s.attempts[a], s.orders[o], s.payments[o]);
  }

  lemma CloseStatus(s: State, id: Id, o: Id, x: Id, status: AttemptStatus, paid: PaymentStatus)
    requires AttemptOf(s, id, o) && PaymentKnown(s, o) && ReleaseHold(s, id).Some? && x in s.orders && x != o
    ensures var s' := CloseAttempt(ReleaseHold(s, id).value, id, status, paid);
            x in s'.orders && s'.orders[x].status == s.orders[x].status
  {
    hide ReleaseHold;
  }

  lemma CancelStatus(s: State, o: Id, allowed: set<OrderStatus>, x: Id)
    requires PaymentKnown(s, o) && x in s.orders
    ensures x in Cancel(s, o, allowed).next.orders
    ensures x != o || (s.payments[o].paymentMethod == Vnpay && s.payments[o].status == PayPaid) ==>
              Cancel(s, o, allowed).next.orders[x].status == s.orders[x].status
  {
    hide ReleaseHold, Restore;
  }

  lemma IpnLeavesLive(start: map<Key, int>, s: State, id: Id, cb: Callback, o: Id)
    requires Inv(start, s) && o in s.orders && Live(s.orders[o].status)
    ensures o in HandleIpn(s, id, cb).next.orders && Live(HandleIpn(s, id, cb).next.orders[o].status)
  {
    hide Inv, OrderInv, ReleaseHold, CloseAttempt, SuccessVerdict;
    if id in s.attempts && PaymentKnown(s, s.attempts[id].order) && s.attempts[id].status == TxPending &&
       ReleaseHold(s, id).Some? {
      Parts(start, s, s.attempts[id].order);
      PendingIsNotLive(s, id, s.attempts[id].order);
      CloseStatus(s, id, s.attempts[id].order, o, TxCancelled, PayCancelled);
      CloseStatus(s, id, s.attempts[id].order, o, TxFailed, PayFailed);
    }
  }

  lemma ExpiryLeavesLive(start: map<Key, int>, s: State, user: Id, x: Id, now: int, o: Id)
    requires Inv(start, s) && o in s.orders && Live(s.orders[o].status)
    ensures o in Expire(s, user, x, now).next.orders && Live(Expire(s, user, x, now).next.orders[o].status)
  {
    hide Inv, OrderInv, ReleaseHold, CloseAttempt;
    if PaymentKnown(s, x) && HasExpired(s, x, now) && ReleaseHold(s, FindExpired(s, x, now)).Some? {
      Parts(start, s, x);
      PendingIsNotLive(s, FindExpired(s, x, now), x);
      CloseStatus(s, FindExpired(s, x, now), x, o, TxExpired, PayExpired);
    }
  }

  lemma SuccessLeavesLive(s: State, id: Id, cb: Callback, o: Id)
    requires o in s.orders && Live(s.orders[o].status)
    ensures o in ApplySuccess(s, id, cb).orders && Live(ApplySuccess(s, id, cb).orders[o].status)
  {
    hide SuccessVerdict;
  }

  lemma RetryStatus(s: State, x: Id, seen: OrderStatus, id: Id, key: Id, now: int, later: int, o: Id)
    requires o in s.orders
    ensures var step := RetryCommit(s, x, seen, id, key, now, later);
            && o in step.next.orders
            && step.next.orders[o].status == if x == o && step.next != s then PendingPayment else s.orders[o].status
  {
    hide Deduct, ByVariant, HasPending, AttemptKeyTaken, FreshId;
  }

  lemma PlacingKeepsOrder(s: State, r: Request, o: Id)
    requires (r.PlaceCodOrder? || r.PlaceVnpayOrder?) && o in s.orders
    ensures o in Apply(s, r).next.orders && Apply(s, r).next.orders[o] == s.orders[o]
  {
    hide Deduct, ByVariant, CheckoutError, Subtotal, DistinctVariants, OwnAttemptExists, OwnOrderExists, OrderKeyTaken,
      AttemptKeyTaken;
  }

  /** A live VNPAY order stays live under every request but a stale retry of its own. */
  lemma LiveVnpayStays(start: map<Key, int>, s: State, r: Request, o: Id)
    requires Inv(start, s) && o in s.orders && PaymentKnown(s, o)
    requires r.CommitStaleRetry? && r.order == o ==> Apply(s, r).next == s
    requires Live(s.orders[o].status) && s.payments[o].paymentMethod == Vnpay
    ensures o in Apply(s, r).next.orders && Live(Apply(s, r).next.orders[o].status)
  {
    hide Inv, OrderInv, HandleIpn, ReturnRead, ApplySuccess, Expire, Cancel, RetryCommit, PlaceCod, PlaceVnpay,
      SuccessVerdict;
    Parts(start, s, o);
    LiveIsPaid(s, o);
    match r
    case PlaceCodOrder(b, x) => PlacingKeepsOrder(s, r, o);
    case PlaceVnpayOrder(b, x, id, now, later) => PlacingKeepsOrder(s, r, o);
    case Ipn(id, cb) => IpnLeavesLive(start, s, id, cb, o);
    case Return(id, cb) => SuccessLeavesLive(s, id, cb, o);
    case GetStatus(user, x, now) => ExpiryLeavesLive(start, s, user, x, now, o);
    case RetryPayment(user, x, id, key, now, later) =>
      if x in s.orders {
        RetryStatus(s, x, s.orders[x].status, id, key, now, later, o);
      }
    case CommitStaleRetry(x, seen, id, key, now, later) => RetryStatus(s, x, seen, id, key, now, later, o);
    case CancelByCustomer(user, x) =>
      if PaymentKnown(s, x) {
        CancelStatus(s, x, CUSTOMER_CANCELLABLE, o);
      }
    case CancelByAdmin(permitted, branch, x) =>
      if PaymentKnown(s, x) {
        CancelStatus(s, x, ADMIN_CANCELLABLE, o);
      }
    case MoveOn(permitted, branch, x, target) =>
    case ConfirmReceipt(user, x) =>
    case AdjustStock(available, k, d, receipt) =>
  }

  lemma CloseAttempts(s: State, id: Id, status: AttemptStatus, paid: PaymentStatus)
    requires id in s.attempts && PaymentKnown(s, s.attempts[id].order) && ReleaseHold(s, id).Some?
    ensures var s' := CloseAttempt(ReleaseHold(s, id).value, id, status, paid);
            s'.attempts.Keys == s.attempts.Keys &&
            forall a :: a in s.attempts ==> s'.attempts[a].consumed == s.attempts[a].consumed
  {
    hide Restore;
  }

  lemma CancelAttempts(s: State, o: Id, allowed: set<OrderStatus>)
    requires PaymentKnown(s, o)
    ensures var s' := Cancel(s, o, allowed).next;
            s'.attempts.Keys == s.attempts.Keys &&
            forall a :: a in s.attempts ==> s'.attempts[a].consumed == s.attempts[a].consumed
  {
    hide Restore;
  }

  lemma PlacingConsumesNothing(s: State, r: Request, a: Id)
    requires (r.PlaceCodOrder? || r.PlaceVnpayOrder?) && a in Apply(s, r).next.attempts
    ensures Apply(s, r).next.attempts[a].consumed ==> a in s.attempts && s.attempts[a].consumed
  {
    hide Deduct, ByVariant, CheckoutError, Subtotal, DistinctVariants, OwnAttemptExists, OwnOrderExists, OrderKeyTaken,
      AttemptKeyTaken;
  }

  /** A request that consumes a hold also makes its order PENDING; other requests consume nothing. */
  lemma ConsumedOrigin(s: State, r: Request, a: Id)
    requires a in Apply(s, r).next.attempts && Apply(s, r).next.attempts[a].consumed
    ensures (a in s.attempts && s.attempts[a].consumed) ||
            (Apply(s, r).next.attempts[a].order in Apply(s, r).next.orders &&
             Apply(s, r).next.orders[Apply(s, r).next.attempts[a].order].status == Pending)
  {
    hide ReleaseHold, CloseAttempt, Cancel, Deduct, ByVariant, PlaceCod, PlaceVnpay, Superseded, AttemptKeyTaken,
      HasPending, FreshId, Verified, ValidAmount, IpnRead, ReturnRead;
    match r
    case PlaceCodOrder(b, x) => PlacingConsumesNothing(s, r, a);
    case PlaceVnpayOrder(b, x, id, now, later) => PlacingConsumesNothing(s, r, a);
    case Ipn(id, cb) =>
      if id in s.attempts && PaymentKnown(s, s.attempts[id].order) && ReleaseHold(s, id).Some? {
        CloseAttempts(s, id, TxCancelled, PayCancelled);
        CloseAttempts(s, id, TxFailed, PayFailed);
      }
    case GetStatus(user, x, now) =>
      if PaymentKnown(s, x) && HasExpired(s, x, now) && ReleaseHold(s, FindExpired(s, x, now)).Some? {
        CloseAttempts(s, FindExpired(s, x, now), TxExpired, PayExpired);
      }
    case CancelByCustomer(user, x) =>
      if PaymentKnown(s, x) {
        CancelAttempts(s, x, CUSTOMER_CANCELLABLE);
      }
    case CancelByAdmin(permitted, branch, x) =>
      if PaymentKnown(s, x) {
        CancelAttempts(s, x, ADMIN_CANCELLABLE);
      }
    case _ =>
  }

  /** New attempts belong to VNPAY payments unless a COD payment is retried. */
  lemma AttemptOrigin(s: State, r: Request, a: Id)
    requires Prompt(r) && RetriesVnpay(s, r) && a in Apply(s, r).next.attempts && a !in s.attempts
    ensures Apply(s, r).next.attempts[a].order in Apply(s, r).next.payments
    ensures Apply(s, r).next.payments[Apply(s, r).next.attempts[a].order].paymentMethod == Vnpay
  {
    hide ReleaseHold, CloseAttempt, Cancel, Deduct, ByVariant, CheckoutError, Subtotal, Superseded,
      OwnAttemptExists, OwnOrderExists, OrderKeyTaken, AttemptKeyTaken, HasPending, FreshId, DistinctVariants,
      Verified, ValidAmount;
    match r
    case Ipn(id, cb) =>
      if id in s.attempts && PaymentKnown(s, s.attempts[id].order) && ReleaseHold(s, id).Some? {
        CloseAttempts(s, id, TxCancelled, PayCancelled);
        CloseAttempts(s, id, TxFailed, PayFailed);
      }
    case GetStatus(user, x, now) =>
      if PaymentKnown(s, x) && HasExpired(s, x, now) && ReleaseHold(s, FindExpired(s, x, now)).Some? {
        CloseAttempts(s, FindExpired(s, x, now), TxExpired, PayExpired);
      }
    case CancelByCustomer(user, x) =>
      if PaymentKnown(s, x) {
        CancelAttempts(s, x, CUSTOMER_CANCELLABLE);
      }
    case CancelByAdmin(permitted, branch, x) =>
      if PaymentKnown(s, x) {
        CancelAttempts(s, x, ADMIN_CANCELLABLE);
      }
    case _ =>
  }

  lemma ConsumedIsVnpay(start: map<Key, int>, s: State, a: Id)
    requires Inv(start, s) && a in s.attempts && s.attempts[a].consumed
    ensures PaymentKnown(s, s.attempts[a].order) && s.payments[s.attempts[a].order].paymentMethod == Vnpay
  {
    hide Sound, IndexHolds, NoStrays, OrderAccount, OrderOk, ItemsOk, Unique;
    assert OrderInv(s, s.attempts[a].order);
    assert AttemptOf(s, a, s.attempts[a].order);
  }

  // ---- And one that has left never comes back ----

  /** A second payment of an order is refused, so its status moves on no account of one. */
  lemma PaidRefusesSuccess(start: map<Key, int>, s: State, a: Id, id: Id, cb: Callback)
    requires Inv(start, s) && a in s.attempts && s.attempts[a].consumed && id in s.attempts
    requires s.attempts[id].order == s.attempts[a].order
    ensures SuccessVerdict(s, id, cb) != Applied
  {
    hide Sound, IndexHolds, NoStrays, OrderAccount, OrderOk, ItemsOk, Unique, Verified, ValidAmount;
    assert OrderInv(s, s.attempts[a].order);
    assert AttemptOf(s, a, s.attempts[a].order);
    assert AttemptOk(s.attempts[a], s.orders[s.attempts[a].order], s.payments[s.attempts[a].order]);
  }

  lemma ApplyLeavesOther(s: State, id: Id, cb: Callback, o: Id)
    requires o in s.orders
    requires SuccessVerdict(s, id, cb) == Applied ==> s.attempts[id].order != o
    ensures o in ApplySuccess(s, id, cb).orders && ApplySuccess(s, id, cb).orders[o].status == s.orders[o].status
  {
    hide SuccessVerdict;
  }

  lemma SuccessStaysShut(start: map<Key, int>, s: State, a: Id, id: Id, cb: Callback, o: Id)
    requires Inv(start, s) && o in s.orders && a in s.attempts && ConsumedAttempt(s, a, o)
    ensures o in ApplySuccess(s, id, cb).orders && ApplySuccess(s, id, cb).orders[o].status == s.orders[o].status
  {
    hide Inv, ApplySuccess, Verified, ValidAmount;
    if id in s.attempts && s.attempts[id].order == o {
      PaidRefusesSuccess(start, s, a, id, cb);
    }
    ApplyLeavesOther(s, id, cb, o);
  }

  lemma ClosingStaysShut(s: State, id: Id, status: AttemptStatus, paid: PaymentStatus, o: Id)
    requires id in s.attempts && PaymentKnown(s, s.attempts[id].order) && ReleaseHold(s, id).Some?
    requires o in s.orders && !Live(s.orders[o].status)
    ensures var s' := CloseAttempt(ReleaseHold(s, id).value, id, status, paid);
            o in s'.orders && !Live(s'.orders[o].status)
  {
    hide ReleaseHold;
  }

  lemma IpnStaysShut(start: map<Key, int>, s: State, a: Id, id: Id, cb: Callback, o: Id)
    requires Inv(start, s) && o in s.orders && a in s.attempts && ConsumedAttempt(s, a, o)
    requires !Live(s.orders[o].status)
    ensures o in HandleIpn(s, id, cb).next.orders && !Live(HandleIpn(s, id, cb).next.orders[o].status)
  {
    hide Inv, ReleaseHold, CloseAttempt, SuccessVerdict, ApplySuccess, IpnRead;
    SuccessStaysShut(start, s, a, id, cb, o);
    if id in s.attempts && PaymentKnown(s, s.attempts[id].order) && ReleaseHold(s, id).Some? {
      ClosingStaysShut(s, id, TxCancelled, PayCancelled, o);
      ClosingStaysShut(s, id, TxFailed, PayFailed, o);
    }
  }

  lemma ExpiryStaysShut(s: State, user: Id, x: Id, now: int, o: Id)
    requires o in s.orders && !Live(s.orders[o].status)
    ensures o in Expire(s, user, x, now).next.orders && !Live(Expire(s, user, x, now).next.orders[o].status)
  {
    hide ReleaseHold, CloseAttempt;
    if PaymentKnown(s, x) && HasExpired(s, x, now) && ReleaseHold(s, FindExpired(s, x, now)).Some? {
      ClosingStaysShut(s, FindExpired(s, x, now), TxExpired, PayExpired, o);
    }
  }

  lemma CancelStaysShut(s: State, x: Id, allowed: set<OrderStatus>, o: Id)
    requires PaymentKnown(s, x) && o in s.orders && !Live(s.orders[o].status)
    ensures o in Cancel(s, x, allowed).next.orders && !Live(Cancel(s, x, allowed).next.orders[o].status)
  {
    hide ReleaseHold, Restore;
  }

  /** An order with a paid attempt that is not live stays so under every request. */
  lemma PaidStaysShut(start: map<Key, int>, s: State, r: Request, a: Id, o: Id)
    requires Inv(start, s) && o in s.orders && a in s.attempts && ConsumedAttempt(s, a, o)
    requires !Live(s.orders[o].status)
    ensures o in Apply(s, r).next.orders && !Live(Apply(s, r).next.orders[o].status)
  {
    hide Inv, HandleIpn, ApplySuccess, ReturnRead, Expire, Cancel, RetryCommit, PlaceCod, PlaceVnpay, SuccessVerdict;
    match r
    case PlaceCodOrder(b, x) => PlacingKeepsOrder(s, r, o);
    case PlaceVnpayOrder(b, x, id, now, later) => PlacingKeepsOrder(s, r, o);
    case Ipn(id, cb) => IpnStaysShut(start, s, a, id, cb, o);
    case Return(id, cb) => SuccessStaysShut(start, s, a, id, cb, o);
    case GetStatus(user, x, now) => ExpiryStaysShut(s, user, x, now, o);
    case RetryPayment(user, x, id, key, now, later) =>
      if x in s.orders {
        RetryStatus(s, x, s.orders[x].status, id, key, now, later, o);
      }
    case CommitStaleRetry(x, seen, id, key, now, later) => RetryStatus(s, x, seen, id, key, now, later, o);
    case CancelByCustomer(user, x) =>
      if PaymentKnown(s, x) {
        CancelStaysShut(s, x, CUSTOMER_CANCELLABLE, o);
      }
    case CancelByAdmin(permitted, branch, x) =>
      if PaymentKnown(s, x) {
        CancelStaysShut(s, x, ADMIN_CANCELLABLE, o);
      }
    case MoveOn(permitted, branch, x, target) =>
    case ConfirmReceipt(user, x) =>
    case AdjustStock(available, k, d, receipt) =>
  }

  // ---- Exactly which step lets a paid order go ----

  /** A retry on a stale read that goes through although an attempt of its order has been paid. */
  ghost predicate TakesPaid(s: State, r: Request)
  {
    r.CommitStaleRetry? && Apply(s, r).next != s && HasConsumed(s, r.order)
  }

  lemma NotTakenStaysLive(start: map<Key, int>, s: State, r: Request)
    requires Inv(start, s) && PaidStaysLive(s) && !TakesPaid(s, r)
    ensures PaidStaysLive(Apply(s, r).next)
  {
    hide Inv, Apply;
    var s' := Apply(s, r).next;
    RequestPersists(s, r);
    forall a | a in s'.attempts && s'.attempts[a].consumed
      ensures s'.attempts[a].order in s'.orders && Live(s'.orders[s'.attempts[a].order].status)
    {
      ConsumedOrigin(s, r, a);
      if a in s.attempts && s.attempts[a].consumed {
        ConsumedIsVnpay(start, s, a);
        assert AttemptPersists(s.attempts[a], s'.attempts[a]);
        assert ConsumedAttempt(s, a, s.attempts[a].order);
        LiveVnpayStays(start, s, r, s.attempts[a].order);
      }
    }
  }

  lemma ShutStays(start: map<Key, int>, s: State, r: Request)
    requires Inv(start, s) && !PaidStaysLive(s)
    ensures !PaidStaysLive(Apply(s, r).next)
  {
    hide Inv, Apply;
    RequestPersists(s, r);
    var a :| a in s.attempts && s.attempts[a].consumed &&
             !(s.attempts[a].order in s.orders && Live(s.orders[s.attempts[a].order].status));
    ConsumedIsVnpay(start, s, a);
    PaidStaysShut(start, s, r, a, s.attempts[a].order);
    assert AttemptPersists(s.attempts[a], Apply(s, r).next.attempts[a]);
  }

  lemma TakingShuts(s: State, r: Request)
    requires TakesPaid(s, r) && r.order in s.orders
    ensures !PaidStaysLive(Apply(s, r).next)
  {
    hide RetryCommit;
    RequestPersists(s, r);
    var a :| a in s.attempts && ConsumedAttempt(s, a, r.order);
    RetryStatus(s, r.order, r.seen, r.attemptId, r.key, r.now, r.expireAfter, r.order);
    assert AttemptPersists(s.attempts[a], Apply(s, r).next.attempts[a]);
  }

  /** Paid attempts' orders are live after a request exactly when they were before and it is not such a retry. */
  lemma PaidStaysLiveExactly(start: map<Key, int>, s: State, r: Request)
    requires Inv(start, s)
    ensures PaidStaysLive(Apply(s, r).next) <==> PaidStaysLive(s) && !TakesPaid(s, r)
  {
    hide Inv, Apply, PaidStaysLive;
    if !PaidStaysLive(s) {
      ShutStays(start, s, r);
    } else if TakesPaid(s, r) {
      var a :| a in s.attempts && ConsumedAttempt(s, a, r.order);
      ConsumedIsVnpay(start, s, a);
      TakingShuts(s, r);
    } else {
      NotTakenStaysLive(start, s, r);
    }
  }

  lemma CodUnretriedKept(s: State, r: Request)
    requires CodUnretried(s) && Prompt(r) && RetriesVnpay(s, r)
    ensures CodUnretried(Apply(s, r).next)
  {
    hide Apply, Prompt, RetriesVnpay;
    var s' := Apply(s, r).next;
    RequestPersists(s, r);
    forall a | a in s'.attempts
      ensures s'.attempts[a].order in s'.payments && s'.payments[s'.attempts[a].order].paymentMethod == Vnpay
    {
      if a in s.attempts {
        assert AttemptPersists(s.attempts[a], s'.attempts[a]);
        assert PaymentPersists(s.payments[s.attempts[a].order], s'.payments[s.attempts[a].order]);
      } else {
        AttemptOrigin(s, r, a);
      }
    }
  }

  // ---- Runs ----

  /** Every retry reads and commits in one step. */
  ghost predicate PromptRun(rs: seq<Request>)
  {
    forall i :: 0 <= i < |rs| ==> Prompt(rs[i])
  }

  /** No retry of the run is made on a COD payment. */
  ghost predicate VnpayRetriesOnly(s: State, rs: seq<Request>)
  {
    forall i :: 0 <= i < |rs| ==> RetriesVnpay(Run(s, rs[..i]), rs[i])
  }

  /** No retry on a stale read goes through for an order that has been paid. */
  ghost predicate NoneTaken(s: State, rs: seq<Request>)
  {
    forall i :: 0 <= i < |rs| ==> !TakesPaid(Run(s, rs[..i]), rs[i])
  }

  lemma NoneTakenStep(s: State, rs: seq<Request>)
    requires |rs| > 0
    ensures var front, last := rs[..|rs| - 1], rs[|rs| - 1];
            NoneTaken(s, rs) <==> NoneTaken(s, front) && !TakesPaid(Run(s, front), last)
  {
    hide Run, TakesPaid;
    var front := rs[..|rs| - 1];
    assert forall i :: 0 <= i < |front| ==> rs[..i] == front[..i] && rs[i] == front[i];
  }

  /** At the end of any run the orders of paid attempts are all between PENDING and COMPLETED exactly then. */
  lemma {:induction false} RunKeepsExactly(start: map<Key, int>, rs: seq<Request>)
    requires InRange(start)
    ensures PaidStaysLive(Run(Initial(start), rs)) <==> NoneTaken(Initial(start), rs)
  {
    hide Inv, Apply, PaidStaysLive, TakesPaid;
    if |rs| == 0 {
      InitialQuiet(start);
    } else {
      hide NoneTaken;
      var front, last := rs[..|rs| - 1], rs[|rs| - 1];
      RunKeepsExactly(start, front);
      EveryRunKeeps(start, front);
      PaidStaysLiveExactly(start, Run(Initial(start), front), last);
      NoneTakenStep(Initial(start), rs);
    }
  }

  lemma PromptRunKeeps(start: map<Key, int>, rs: seq<Request>)
    requires InRange(start) && PromptRun(rs)
    ensures PaidStaysLive(Run(Initial(start), rs))
  {
    hide Run, PaidStaysLive;
    RunKeepsExactly(start, rs);
  }

  lemma InitialQuiet(start: map<Key, int>)
    ensures PaidStaysLive(Initial(start)) && CodUnretried(Initial(start))
  {
  }

  lemma {:induction false} CodRunKeeps(start: map<Key, int>, rs: seq<Request>)
    requires InRange(start) && PromptRun(rs) && VnpayRetriesOnly(Initial(start), rs)
    ensures CodUnretried(Run(Initial(start), rs))
  {
    hide Inv, Apply, CodUnretried, RetriesVnpay;
    if |rs| == 0 {
      InitialQuiet(start);
    } else {
      var front := rs[..|rs| - 1];
      forall i | 0 <= i < |front| ensures RetriesVnpay(Run(Initial(start), front[..i]), front[i]) {
        assert front[..i] == rs[..i];
      }
      CodRunKeeps(start, front);
      assert rs[..|rs| - 1] == front;
      CodUnretriedKept(Run(Initial(start), front), rs[|rs| - 1]);
    }
  }

  // ---- The status of a VNPAY order decides its stock ----

  /** The statuses in which an order's goods are out. */
  predicate Holds(status: OrderStatus)
  {
    status == PendingPayment || Live(status)
  }

  lemma UnreleasedIsActiveOrPaid(start: map<Key, int>, s: State, a: Id, o: Id)
    requires Reachable(start, s) && AttemptOf(s, a, o)
    ensures s.attempts[a].released || s.attempts[a].consumed || Active(s.attempts[a])
    ensures Active(s.attempts[a]) ==> o in s.orders && s.orders[o].status == PendingPayment
  {
    hide Reachable, OrderAccount, OrderOk, Unique, ItemsOk;
    AttemptFacts(start, s, a);
    assert AttemptOk(s.attempts[a], s.orders[o], s.payments[o]);
  }

  /**
   In PENDING_PAYMENT and from PENDING to COMPLETED exactly one attempt of a VNPAY order is unreleased;
   in PAYMENT_FAILED and CANCELLED none is.
   */
  lemma StatusDecidesStock(start: map<Key, int>, s: State, o: Id)
    requires Reachable(start, s) && PaidStaysLive(s)
    requires PaymentKnown(s, o) && s.payments[o].paymentMethod == Vnpay
    ensures s.orders[o].status in {PendingPayment, PaymentFailed, Cancelled} || Live(s.orders[o].status)
    ensures Holds(s.orders[o].status) <==> exists a :: AttemptOf(s, a, o) && !s.attempts[a].released
    ensures forall a, b ::
              AttemptOf(s, a, o) && AttemptOf(s, b, o) && !s.attempts[a].released &&
              !s.attempts[b].released ==>
                a == b
  {
    hide Reachable, OrderInv;
    OrderFacts(start, s, o);
    forall a, b | AttemptOf(s, a, o) && AttemptOf(s, b, o) && !s.attempts[a].released && !s.attempts[b].released
      ensures a == b
    {
      UnreleasedIsActiveOrPaid(start, s, a, o);
      UnreleasedIsActiveOrPaid(start, s, b, o);
      AttemptStates(start, s, a);
      AttemptStates(start, s, b);
      AttemptsAreUnique(start, s, a, b);
    }
    forall a | AttemptOf(s, a, o) && !s.attempts[a].released ensures Holds(s.orders[o].status) {
      UnreleasedIsActiveOrPaid(start, s, a, o);
    }
    StatusGivesHold(s, o);
  }

  lemma StatusGivesHold(s: State, o: Id)
    requires OrderInv(s, o) && s.payments[o].paymentMethod == Vnpay
    ensures s.orders[o].status != Returned
    ensures Holds(s.orders[o].status) ==> exists a :: AttemptOf(s, a, o) && !s.attempts[a].released
  {
    hide OrderAccount, ItemsOk, Unique;
    if s.orders[o].status == PendingPayment {
      var a :| a in s.attempts && ActiveHold(s, a, o);
      assert AttemptOf(s, a, o) && !s.attempts[a].released;
    } else if Live(s.orders[o].status) {
      var a :| a in s.attempts && ConsumedAttempt(s, a, o);
      assert AttemptOk(s.attempts[a], s.orders[o], s.payments[o]);
      assert AttemptOf(s, a, o) && !s.attempts[a].released;
    }
  }
}
