/** Callbacks: which of them act, that the first one to act wins, and what later requests cannot undo. */
module OrderCallbacks {
  import opened Wrappers
  import opened OrderTypes
  import opened StockLedger
  import opened ProductWeight
  import opened OrderProtocol
  import opened OrderInvariant
  import opened OrderRuns
  import opened OrderGuarantees

  // ---- The first effective callback wins ----

  /** A callback reaches the server by VNPAY's own notification or by the payer's browser. */
  datatype Delivery = ByIpn(callback: Callback) | ByReturn(callback: Callback)

  function Deliver(s: State, id: Id, d: Delivery): State
  {
    match d
    case ByIpn(cb) => HandleIpn(s, id, cb).next
    case ByReturn(cb) => BuildReturn(s, id, cb).next
  }

  function DeliverAll(s: State, id: Id, ds: seq<Delivery>): State
  {
    if |ds| == 0 then s else Deliver(DeliverAll(s, id, ds[..|ds| - 1]), id, ds[|ds| - 1])
  }

  lemma ClosedIgnores(s: State, id: Id, d: Delivery)
    requires id in s.attempts && s.attempts[id].status != TxPending
    ensures Deliver(s, id, d) == s
  {
  }

  lemma EffectiveCloses(s: State, id: Id, d: Delivery)
    requires Deliver(s, id, d) != s
    ensures id in Deliver(s, id, d).attempts && Deliver(s, id, d).attempts[id].status != TxPending
  {
    hide Restore;
  }

  /** After any sequence of callbacks for one attempt, the state is the one the first effective callback left. */
  lemma {:induction false} FirstCallbackWins(s: State, id: Id, ds: seq<Delivery>)
    ensures (forall i :: 0 <= i < |ds| ==> Deliver(s, id, ds[i]) == s) ==> DeliverAll(s, id, ds) == s
    ensures forall n ::
              0 <= n < |ds| && Deliver(s, id, ds[n]) != s &&
              (forall i :: 0 <= i < n ==> Deliver(s, id, ds[i]) == s) ==>
              DeliverAll(s, id, ds) == Deliver(s, id, ds[n])
  {
    hide Deliver;
    if |ds| > 0 {
      var front, last := ds[..|ds| - 1], ds[|ds| - 1];
      FirstCallbackWins(s, id, front);
      assert forall i :: 0 <= i < |front| ==> front[i] == ds[i];
      forall n | 0 <= n < |ds| && Deliver(s, id, ds[n]) != s && (forall i :: 0 <= i < n ==> Deliver(s, id, ds[i]) == s)
        ensures DeliverAll(s, id, ds) == Deliver(s, id, ds[n])
      {
        if n < |front| {
          assert Deliver(s, id, front[n]) != s;
          EffectiveCloses(s, id, ds[n]);
          ClosedIgnores(Deliver(s, id, ds[n]), id, last);
        } else {
          assert forall i :: 0 <= i < |front| ==> Deliver(s, id, front[i]) == s;
        }
      }
    }
  }

  // ---- What no later request undoes ----

  /** Rows are never deleted, their fixed columns never change, and an attempt's closing columns never reopen. */
  ghost predicate Persists(s: State, s': State)
  {
    && (forall o :: o in s.orders ==> o in s'.orders && OrderPersists(s.orders[o], s'.orders[o]))
    && (forall o :: o in s.payments ==> o in s'.payments && PaymentPersists(s.payments[o], s'.payments[o]))
    && (forall a :: a in s.attempts ==> a in s'.attempts && AttemptPersists(s.attempts[a], s'.attempts[a]))
    && s.books.stock.Keys <= s'.books.stock.Keys
    && s.history <= s'.history
  }

  ghost predicate OrderPersists(o: Order, o': Order)
  {
    && o'.(status := o.status, stockDeducted := o.stockDeducted, stockRestored := o.stockRestored,
           received := o.received) == o
    && (o.received ==> o'.received)
  }

  ghost predicate PaymentPersists(p: Payment, p': Payment)
  {
    p'.(status := p.status) == p
  }

  ghost predicate AttemptPersists(a: Attempt, a': Attempt)
  {
    && a'.(status := a.status, released := a.released, consumed := a.consumed) == a
    && (a.released ==> a'.released)
    && (a.consumed ==> a'.consumed)
    && (a.status != TxPending ==> a'.status == a.status)
  }

  lemma ReleasePersists(s: State, id: Id)
    requires id in s.attempts && s.attempts[id].order in s.orders && ReleaseHold(s, id).Some?
    ensures Persists(s, ReleaseHold(s, id).value)
  {
    hide Restore;
    var order := s.orders[s.attempts[id].order];
    if Active(s.attempts[id]) {
      RestoreKeys(s.books, order.branch, order.items, FromOrder(id));
    }
  }

  lemma {:induction false} RestoreKeys(b: Books, branch: Id, items: seq<Item>, source: Source)
    requires Restore(b, branch, items, source).Some?
    ensures Restore(b, branch, items, source).value.stock.Keys == b.stock.Keys
  {
    if |items| > 0 {
      RestoreKeys(b, branch, items[..|items| - 1], source);
    }
  }

  lemma ClosePersists(s: State, id: Id, status: AttemptStatus, paid: PaymentStatus)
    requires id in s.attempts && PaymentKnown(s, s.attempts[id].order) && s.attempts[id].status == TxPending
    requires ReleaseHold(s, id).Some?
    ensures Persists(s, CloseAttempt(ReleaseHold(s, id).value, id, status, paid))
  {
    hide Restore, Persists;
    ReleasePersists(s, id);
    var s1 := ReleaseHold(s, id).value;
    ClosePersistsStep(s1, id, status, paid);
    PersistsTrans(s, s1, CloseAttempt(s1, id, status, paid));
  }

  lemma ClosePersistsStep(s: State, id: Id, status: AttemptStatus, paid: PaymentStatus)
    requires id in s.attempts && PaymentKnown(s, s.attempts[id].order) && s.attempts[id].status == TxPending
    ensures Persists(s, CloseAttempt(s, id, status, paid))
  {
  }

  lemma PersistsTrans(s: State, t: State, u: State)
    requires Persists(s, t) && Persists(t, u)
    ensures Persists(s, u)
  {
  }

  lemma FinishPersists(s: State, o: Id)
    requires PaymentKnown(s, o)
    ensures Persists(s, FinishCancel(s, o))
  {
  }

  lemma ReturnPersists(s: State, o: Id)
    requires PaymentKnown(s, o) && ReturnStock(s, o).Some?
    ensures Persists(s, ReturnStock(s, o).value) && PaymentKnown(ReturnStock(s, o).value, o)
  {
    hide Restore, ReleaseHold;
    if HasActive(s, o) {
      ReleasePersists(s, FindActive(s, o));
    } else if Restore(s.books, s.orders[o].branch, s.orders[o].items, FromOrder(o)).Some? {
      RestoreKeys(s.books, s.orders[o].branch, s.orders[o].items, FromOrder(o));
    }
  }

  lemma CancelPersists(s: State, o: Id, allowed: set<OrderStatus>)
    requires PaymentKnown(s, o)
    ensures Persists(s, Cancel(s, o, allowed).next)
  {
    hide Persists, ReturnStock, FinishCancel;
    PersistsSelf(s);
    if ReturnStock(s, o).Some? {
      ReturnPersists(s, o);
      var s1 := ReturnStock(s, o).value;
      FinishPersists(s1, o);
      PersistsTrans(s, s1, FinishCancel(s1, o));
    }
  }

  lemma PlaceCodPersists(s: State, b: Basket, o: Id)
    ensures Persists(s, PlaceCod(s, b, o).next)
  {
    hide Deduct, ByVariant, TotalWeight, Subtotal;
    if Deduct(s.books, b.branch, ByVariant(ItemsOf(b.lines)), FromOrder(o)).Some? {
      DeductRows(s.books, b.branch, ByVariant(ItemsOf(b.lines)), FromOrder(o));
    }
  }

  lemma PlaceVnpayPersists(s: State, b: Basket, o: Id, id: Id, now: int, later: int)
    ensures Persists(s, PlaceVnpay(s, b, o, id, now, later).next)
  {
    hide Deduct, ByVariant, TotalWeight, Subtotal, CheckoutError, OwnAttemptExists, OwnOrderExists, OrderKeyTaken,
      AttemptKeyTaken, DistinctVariants;
    if Deduct(s.books, b.branch, ByVariant(ItemsOf(b.lines)), FromOrder(id)).Some? {
      DeductRows(s.books, b.branch, ByVariant(ItemsOf(b.lines)), FromOrder(id));
    }
  }

  lemma RetryPersists(s: State, o: Id, seen: OrderStatus, id: Id, key: Id, now: int, later: int)
    ensures Persists(s, RetryCommit(s, o, seen, id, key, now, later).next)
  {
    hide Deduct, ByVariant;
    if o in s.orders && Deduct(s.books, s.orders[o].branch, ByVariant(s.orders[o].items), FromOrder(id)).Some? {
      DeductRows(s.books, s.orders[o].branch, ByVariant(s.orders[o].items), FromOrder(id));
    }
  }

  lemma SuccessPersists(s: State, id: Id, cb: Callback)
    ensures Persists(s, ApplySuccess(s, id, cb))
  {
  }

  lemma IpnPersists(s: State, id: Id, cb: Callback)
    ensures Persists(s, HandleIpn(s, id, cb).next)
  {
    hide Persists, ReleaseHold, CloseAttempt, ApplySuccess, SuccessVerdict;
    PersistsSelf(s);
    SuccessPersists(s, id, cb);
    if id in s.attempts && PaymentKnown(s, s.attempts[id].order) && s.attempts[id].status == TxPending &&
       ReleaseHold(s, id).Some? {
      ClosePersists(s, id, TxCancelled, PayCancelled);
      ClosePersists(s, id, TxFailed, PayFailed);
    }
  }

  lemma ExpirePersists(s: State, user: Id, o: Id, now: int)
    ensures Persists(s, Expire(s, user, o, now).next)
  {
    hide Persists, ReleaseHold, CloseAttempt;
    PersistsSelf(s);
    if PaymentKnown(s, o) && HasExpired(s, o, now) && ReleaseHold(s, FindExpired(s, o, now)).Some? {
      ClosePersists(s, FindExpired(s, o, now), TxExpired, PayExpired);
    }
  }

  lemma SettersPersist(s: State, o: Id, to: OrderStatus, paid: PaymentStatus)
    requires PaymentKnown(s, o)
    ensures Persists(s, SetStatus(s, o, to))
    ensures Persists(s, SetPayment(s, o, paid)) && PaymentKnown(SetPayment(s, o, paid), o)
  {
  }

  lemma TransitionPersists(s: State, permitted: bool, branch: Id, o: Id, target: OrderStatus)
    ensures Persists(s, Transition(s, permitted, branch, o, target).next)
  {
    hide Persists, SetStatus, SetPayment;
    PersistsSelf(s);
    if PaymentKnown(s, o) {
      SettersPersist(s, o, target, PayPaid);
      var s1 := SetPayment(s, o, PayPaid);
      SettersPersist(s1, o, target, PayPaid);
      PersistsTrans(s, s1, SetStatus(s1, o, target));
    }
  }

  lemma ConfirmPersists(s: State, user: Id, o: Id)
    ensures Persists(s, ConfirmReceived(s, user, o).next)
  {
  }

  lemma AdjustPersists(s: State, available: bool, k: Key, d: Adjustment, receipt: Id)
    ensures Persists(s, Adjust(s, available, k, d, receipt).next)
  {
  }

  lemma RequestPersists(s: State, r: Request)
    ensures Persists(s, Apply(s, r).next)
  {
    hide Persists, PlaceCod, PlaceVnpay, HandleIpn, ApplySuccess, SuccessVerdict, Expire, RetryCommit, Cancel,
      Transition, ConfirmReceived, Adjust;
    PersistsSelf(s);
    match r
    case PlaceCodOrder(b, o) => PlaceCodPersists(s, b, o);
    case PlaceVnpayOrder(b, o, id, now, later) => PlaceVnpayPersists(s, b, o, id, now, later);
    case Ipn(id, cb) => IpnPersists(s, id, cb);
    case Return(id, cb) => SuccessPersists(s, id, cb);
    case GetStatus(user, o, now) => ExpirePersists(s, user, o, now);
    case RetryPayment(user, o, id, key, now, later) =>
      if o in s.orders {
        RetryPersists(s, o, s.orders[o].status, id, key, now, later);
      }
    case CommitStaleRetry(o, seen, id, key, now, later) => RetryPersists(s, o, seen, id, key, now, later);
    case CancelByCustomer(user, o) =>
      if PaymentKnown(s, o) {
        CancelPersists(s, o, CUSTOMER_CANCELLABLE);
      }
    case CancelByAdmin(permitted, branch, o) =>
      if PaymentKnown(s, o) {
        CancelPersists(s, o, ADMIN_CANCELLABLE);
      }
    case MoveOn(permitted, branch, o, target) => TransitionPersists(s, permitted, branch, o, target);
    case ConfirmReceipt(user, o) => ConfirmPersists(s, user, o);
    case AdjustStock(available, k, d, receipt) => AdjustPersists(s, available, k, d, receipt);
  }

  lemma {:induction false} RunPersists(s: State, rs: seq<Request>)
    ensures Persists(s, Run(s, rs))
  {
    hide Persists, Apply;
    if |rs| == 0 {
      PersistsSelf(s);
    } else {
      RunPersists(s, rs[..|rs| - 1]);
      var mid := Run(s, rs[..|rs| - 1]);
      RequestPersists(mid, rs[|rs| - 1]);
      PersistsTrans(s, mid, Apply(mid, rs[|rs| - 1]).next);
    }
  }

  lemma PersistsSelf(s: State)
    ensures Persists(s, s)
  {
  }

  /** Once an attempt is closed, no callback for it ever acts again, whatever happens in between. */
  lemma ClosedForever(s: State, rs: seq<Request>, id: Id, d: Delivery)
    requires id in s.attempts && s.attempts[id].status != TxPending
    ensures Deliver(Run(s, rs), id, d) == Run(s, rs)
  {
    hide Run, Deliver;
    RunPersists(s, rs);
    ClosedIgnores(Run(s, rs), id, d);
  }

  /** Once a hold is released, by failure, expiry or cancellation, a success callback never acts again. */
  lemma LateSuccessIsIgnored(s: State, rs: seq<Request>, id: Id, d: Delivery)
    requires id in s.attempts && s.attempts[id].released && Succeeded(d.callback)
    ensures Deliver(Run(s, rs), id, d) == Run(s, rs)
  {
    hide Run;
    RunPersists(s, rs);
    assert AttemptPersists(s.attempts[id], Run(s, rs).attempts[id]);
  }

  // ---- Exactly when a success acts ----

  /** In a reachable state a success acts exactly when it is verified for the current hold and nothing supersedes it. */
  lemma SuccessActsExactly(start: map<Key, int>, s: State, id: Id, cb: Callback)
    requires Reachable(start, s) && id in s.attempts
    ensures SuccessVerdict(s, id, cb) == Applied <==>
              && Succeeded(cb) && cb.signatureValid && cb.merchantFieldsValid
              && cb.amount.Some? && ValidAmount(cb, s.attempts[id])
              && s.attempts[id].order in s.payments && s.payments[s.attempts[id].order].paymentMethod == Vnpay
              && Active(s.attempts[id]) && !Superseded(s, id)
  {
    hide Reachable, Superseded, OrderAccount, ItemsOk, Unique;
    var o := s.attempts[id].order;
    AttemptFacts(start, s, id);
    assert AttemptOk(s.attempts[id], s.orders[o], s.payments[o]);
  }

  // ---- What the customer is offered ----

  /** Where a retry is offered, the only refusals left are the stock itself and a clash of new ids. */
  lemma OfferedRetryIsAllowed(start: map<Key, int>, s: State, o: Id, id: Id, key: Id, now: int, later: int)
    requires Reachable(start, s) && OffersRetry(s, o)
    ensures RetryError(s, s.orders[o].user, o) == None
    ensures Retry(s, s.orders[o].user, o, id, key, now, later).reply in
            {OK, "VNPAY_RETRY_REVALIDATION_CHANGED", "UNIQUE_VIOLATION"}
    ensures FreshId(s, id) ==>
              (Retry(s, s.orders[o].user, o, id, key, now, later).reply == OK <==>
               AttemptKeyTaken(s, key) ||
               Deduct(s.books, s.orders[o].branch, ByVariant(s.orders[o].items), FromOrder(id)).Some?)
  {
    hide Reachable, OrderAccount, ItemsOk, Unique, Deduct, ByVariant;
    OrderFacts(start, s, o);
    forall a ensures !PendingAttempt(s, a, o) {
      if AttemptOf(s, a, o) {
        assert AttemptOk(s.attempts[a], s.orders[o], s.payments[o]);
      }
    }
  }

  // ---- Reads that are stale by the time of the transaction ----

  /** A notification whose read saw an earlier state. */
  function StaleIpn(seen: State, s: State, id: Id, cb: Callback): Step
  {
    match IpnRead(seen, id, cb)
    case Some(code) => Step(s, code)
    case None => IpnCommit(s, id, cb)
  }

  function StaleReturn(seen: State, s: State, id: Id, cb: Callback): Step
  {
    match ReturnRead(seen, id, cb)
    case Some(result) => Step(s, result)
    case None => ReturnCommit(s, id, cb)
  }

  /** getStatus, with the query for an expired attempt made on an earlier state. */
  ghost function StaleExpiry(seen: State, s: State, user: Id, o: Id, now: int): Step
  {
    if !PaymentKnown(seen, o) || seen.orders[o].user != user then Step(s, "PAYMENT_NOT_FOUND")
    else if !HasExpired(seen, o, now) then Step(s, OK)
    else ExpireCommit(s, FindExpired(seen, o, now))
  }

  lemma VerifiedPersists(seen: State, s: State, id: Id, cb: Callback)
    requires Persists(seen, s) && id in seen.attempts && Verified(seen, cb, seen.attempts[id])
    ensures id in s.attempts && Verified(s, cb, s.attempts[id])
    ensures ValidAmount(cb, s.attempts[id]) == ValidAmount(cb, seen.attempts[id])
  {
    var o := seen.attempts[id].order;
    assert AttemptPersists(seen.attempts[id], s.attempts[id]);
    assert OrderPersists(seen.orders[o], s.orders[o]) && PaymentPersists(seen.payments[o], s.payments[o]);
  }

  /**
   However much happens between a notification's read and its transaction, it does to the tables what it
   would do now, or nothing if its read answered. Only a failure that finds its attempt closed answers "00".
   */
  lemma StaleNotification(seen: State, rs: seq<Request>, id: Id, cb: Callback)
    ensures var s := Run(seen, rs); var stale, prompt := StaleIpn(seen, s, id, cb), HandleIpn(s, id, cb);
            if IpnRead(seen, id, cb).Some? then stale == Step(s, IpnRead(seen, id, cb).value)
            else stale.next == prompt.next &&
                 stale.reply == if !Succeeded(cb) && prompt.reply == "02" then "00" else prompt.reply
  {
    hide Run, Persists, ApplyFailure, Verified, ValidAmount;
    var s := Run(seen, rs);
    RunPersists(seen, rs);
    if IpnRead(seen, id, cb).None? {
      VerifiedPersists(seen, s, id, cb);
      KnownPersists(s, id, cb);
      FailureReply(s, id, cb);
    }
  }

  lemma KnownPersists(s: State, id: Id, cb: Callback)
    requires id in s.attempts && Verified(s, cb, s.attempts[id])
    ensures PaymentKnown(s, s.attempts[id].order)
  {
  }

  lemma FailureReply(s: State, id: Id, cb: Callback)
    requires id in s.attempts && PaymentKnown(s, s.attempts[id].order)
    ensures ApplyFailure(s, id, cb).reply != "02"
  {
    hide ReleaseHold;
  }

  /** The same of the browser's return. */
  lemma StaleRedirect(seen: State, rs: seq<Request>, id: Id, cb: Callback)
    ensures var s := Run(seen, rs);
            StaleReturn(seen, s, id, cb) ==
            if ReturnRead(seen, id, cb).Some? then Step(s, ReturnRead(seen, id, cb).value) else BuildReturn(s, id, cb)
  {
    hide Run, Persists, ApplySuccess, SuccessVerdict, Verified, ValidAmount;
    RunPersists(seen, rs);
    if ReturnRead(seen, id, cb).None? {
      VerifiedPersists(seen, Run(seen, rs), id, cb);
    }
  }

  /** And of expiry: the attempt it found expires now, as it would now, or was closed meanwhile and nothing happens. */
  lemma StaleExpiryActs(start: map<Key, int>, seen: State, rs: seq<Request>, user: Id, o: Id, now: int)
    requires Reachable(start, seen)
    ensures var s := Run(seen, rs);
            StaleExpiry(seen, s, user, o, now).next ==
            if PaymentKnown(seen, o) && seen.orders[o].user == user && HasExpired(seen, o, now) &&
               PendingAttempt(s, FindExpired(seen, o, now), o)
            then Expire(s, user, o, now).next else s
  {
    hide Run, Persists, ExpireCommit, Reachable;
    var s := Run(seen, rs);
    RunPersists(seen, rs);
    ReachableRun(start, seen, rs);
    if PaymentKnown(seen, o) && seen.orders[o].user == user && HasExpired(seen, o, now) {
      var id := FindExpired(seen, o, now);
      SameExpiry(start, seen, s, id, user, o, now);
      if !PendingAttempt(s, id, o) {
        IdleExpiry(s, id);
      }
    }
  }

  lemma IdleExpiry(s: State, id: Id)
    requires id !in s.attempts || s.attempts[id].status != TxPending
    ensures ExpireCommit(s, id) == Step(s, OK)
  {
  }

  lemma SameExpiry(start: map<Key, int>, seen: State, s: State, id: Id, user: Id, o: Id, now: int)
    requires Persists(seen, s) && Reachable(start, s) && PaymentKnown(seen, o) && seen.orders[o].user == user
    requires id in seen.attempts && ExpiredAttempt(seen, id, o, now)
    ensures id in s.attempts && s.attempts[id].order == o && PaymentKnown(s, o) && s.orders[o].user == user
    ensures PendingAttempt(s, id, o) ==> HasExpired(s, o, now) && FindExpired(s, o, now) == id
  {
    hide Reachable;
    assert AttemptPersists(seen.attempts[id], s.attempts[id]) && OrderPersists(seen.orders[o], s.orders[o]);
    if PendingAttempt(s, id, o) {
      assert ExpiredAttempt(s, id, o, now);
      AttemptsAreUnique(start, s, id, FindExpired(s, o, now));
    }
  }
}
