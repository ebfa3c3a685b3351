/** Runs of requests, and what every reachable state guarantees. */
module OrderRuns {
  import opened OrderTypes
  import opened StockLedger
  import opened OrderProtocol
  import opened OrderInvariant
  import opened OrderSteps

  datatype Request =
    | PlaceCodOrder(basket: Basket, orderId: Id)
    | PlaceVnpayOrder(basket: Basket, orderId: Id, attemptId: Id, now: int, expireAfter: int)
    | Ipn(attempt: Id, callback: Callback)
    | Return(attempt: Id, callback: Callback)
    | GetStatus(user: Id, order: Id, now: int)
    | RetryPayment(user: Id, order: Id, attemptId: Id, key: Id, now: int, expireAfter: int)
    | CommitStaleRetry(order: Id, seen: OrderStatus, attemptId: Id, key: Id, now: int, expireAfter: int)
    | CancelByCustomer(user: Id, order: Id)
    | CancelByAdmin(permitted: bool, branch: Id, order: Id)
    | MoveOn(permitted: bool, branch: Id, order: Id, target: OrderStatus)
    | ConfirmReceipt(user: Id, order: Id)
    | AdjustStock(available: bool, row: Key, adjustment: Adjustment, receiptId: Id)

  ghost function Apply(s: State, r: Request): Step
  {
    match r
    case PlaceCodOrder(b, o) => PlaceCod(s, b, o)
    case PlaceVnpayOrder(b, o, id, now, later) => PlaceVnpay(s, b, o, id, now, later)
    case Ipn(id, cb) => HandleIpn(s, id, cb)
    case Return(id, cb) => BuildReturn(s, id, cb)
    case GetStatus(user, o, now) => Expire(s, user, o, now)
    case RetryPayment(user, o, id, key, now, later) => Retry(s, user, o, id, key, now, later)
    case CommitStaleRetry(o, seen, id, key, now, later) => RetryCommit(s, o, seen, id, key, now, later)
    case CancelByCustomer(user, o) => CustomerCancel(s, user, o)
    case CancelByAdmin(permitted, branch, o) => AdminCancel(s, permitted, branch, o)
    case MoveOn(permitted, branch, o, target) => Transition(s, permitted, branch, o, target)
    case ConfirmReceipt(user, o) => ConfirmReceived(s, user, o)
    case AdjustStock(available, k, d, receipt) => Adjust(s, available, k, d, receipt)
  }

  ghost function Run(s: State, rs: seq<Request>): State
  {
    if |rs| == 0 then s
    else Apply(Run(s, rs[..|rs| - 1]), rs[|rs| - 1]).next
  }

  ghost predicate InRange(start: map<Key, int>)
  {
    forall k :: k in start ==> 0 <= start[k] <= MAX_QUANTITY
  }

  function Initial(start: map<Key, int>): State
  {
    State(Books(start, []), map[], map[], map[], [])
  }

  // ---- The invariant over every run ----

  lemma InitialOk(start: map<Key, int>)
    requires InRange(start)
    ensures Inv(start, Initial(start))
  {
    assert forall k :: Balance([], k) == 0;
  }

  lemma FailureKeeps(start: map<Key, int>, s: State, id: Id, cb: Callback)
    requires Inv(start, s) && id in s.attempts && PaymentKnown(s, s.attempts[id].order) &&
             s.attempts[id].status == TxPending
    ensures Inv(start, ApplyFailure(s, id, cb).next)
  {
    hide Inv, ReleaseHold, CloseAttempt;
    if ReleaseHold(s, id).Some? {
      CloseKeeps(start, s, id, s.attempts[id].order,
                 if cb.responseCode == "24" then TxCancelled else TxFailed,
                 if cb.responseCode == "24" then PayCancelled else PayFailed);
    }
  }

  lemma IpnCommitKeeps(start: map<Key, int>, s: State, id: Id, cb: Callback)
    requires Inv(start, s)
    ensures Inv(start, IpnCommit(s, id, cb).next)
  {
    hide Inv, ApplySuccess, ApplyFailure, SuccessVerdict;
    SuccessKeeps(start, s, id, cb);
    if id in s.attempts && PaymentKnown(s, s.attempts[id].order) && s.attempts[id].status == TxPending {
      FailureKeeps(start, s, id, cb);
    }
  }

  lemma IpnKeeps(start: map<Key, int>, s: State, id: Id, cb: Callback)
    requires Inv(start, s)
    ensures Inv(start, HandleIpn(s, id, cb).next)
  {
    hide Inv, IpnRead, IpnCommit;
    IpnCommitKeeps(start, s, id, cb);
  }

  lemma ExpireKeeps(start: map<Key, int>, s: State, user: Id, o: Id, now: int)
    requires Inv(start, s)
    ensures Inv(start, Expire(s, user, o, now).next)
  {
    hide Inv, ReleaseHold, CloseAttempt;
    if PaymentKnown(s, o) && HasExpired(s, o, now) && ReleaseHold(s, FindExpired(s, o, now)).Some? {
      CloseKeeps(start, s, FindExpired(s, o, now), o, TxExpired, PayExpired);
    }
  }

  lemma RequestKeeps(start: map<Key, int>, s: State, r: Request)
    requires Inv(start, s)
    ensures Inv(start, Apply(s, r).next)
  {
    hide Inv, PlaceCod, PlaceVnpay, HandleIpn, ApplySuccess, SuccessVerdict, Expire, RetryCommit, Cancel, Transition,
      ConfirmReceived, Adjust;
    match r
    case PlaceCodOrder(b, o) => PlaceCodKeeps(start, s, b, o);
    case PlaceVnpayOrder(b, o, id, now, later) => PlaceVnpayKeeps(start, s, b, o, id, now, later);
    case Ipn(id, cb) => IpnKeeps(start, s, id, cb);
    case Return(id, cb) => SuccessKeeps(start, s, id, cb);
    case GetStatus(user, o, now) => ExpireKeeps(start, s, user, o, now);
    case RetryPayment(user, o, id, key, now, later) =>
      if o in s.orders {
        RetryCommitKeeps(start, s, o, s.orders[o].status, id, key, now, later);
      }
    case CommitStaleRetry(o, seen, id, key, now, later) => RetryCommitKeeps(start, s, o, seen, id, key, now, later);
    case CancelByCustomer(user, o) =>
      if PaymentKnown(s, o) {
        CancelKeeps(start, s, o, CUSTOMER_CANCELLABLE);
      }
    case CancelByAdmin(permitted, branch, o) =>
      if PaymentKnown(s, o) {
        CancelKeeps(start, s, o, ADMIN_CANCELLABLE);
      }
    case MoveOn(permitted, branch, o, target) => TransitionKeeps(start, s, permitted, branch, o, target);
    case ConfirmReceipt(user, o) => ConfirmKeeps(start, s, user, o);
    case AdjustStock(available, k, d, receipt) => AdjustKeeps(start, s, available, k, d, receipt);
  }

  /** Whatever requests arrive, in whatever order and however stale a retry's read, the invariant holds. */
  lemma {:induction false} EveryRunKeeps(start: map<Key, int>, rs: seq<Request>)
    requires InRange(start)
    ensures Inv(start, Run(Initial(start), rs))
  {
    hide Inv, Apply;
    if |rs| == 0 {
      InitialOk(start);
    } else {
      EveryRunKeeps(start, rs[..|rs| - 1]);
      RequestKeeps(start, Run(Initial(start), rs[..|rs| - 1]), rs[|rs| - 1]);
    }
  }

  /** Some run of requests leads from a database with these stock rows and no orders to s. */
  ghost predicate Reachable(start: map<Key, int>, s: State)
  {
    InRange(start) && exists rs :: s == Run(Initial(start), rs)
  }

  lemma ReachableInv(start: map<Key, int>, s: State)
    requires Reachable(start, s)
    ensures Inv(start, s)
  {
    hide Inv, Run;
    var rs :| s == Run(Initial(start), rs);
    EveryRunKeeps(start, rs);
  }

  lemma {:induction false} RunConcat(s: State, a: seq<Request>, b: seq<Request>)
    ensures Run(Run(s, a), b) == Run(s, a + b)
  {
    hide Apply;
    if |b| == 0 {
      assert a + b == a;
    } else {
      RunConcat(s, a, b[..|b| - 1]);
      assert (a + b)[..|a + b| - 1] == a + b[..|b| - 1];
    }
  }

  /** Whatever a reachable state runs to is reachable. */
  lemma ReachableRun(start: map<Key, int>, s: State, rs: seq<Request>)
    requires Reachable(start, s)
    ensures Reachable(start, Run(s, rs))
  {
    hide Run;
    var before :| s == Run(Initial(start), before);
    RunConcat(Initial(start), before, rs);
  }
}
