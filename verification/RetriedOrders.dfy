/**
 Orders that are retried. A retry checks neither the payment method nor the order, and its transaction no
 status but that of the attempts; this says exactly what is out afterwards, in every reachable state.
 */
module RetriedOrders {
  import opened Wrappers
  import opened OrderTypes
  import opened StockLedger
  import opened OrderProtocol
  import opened OrderInvariant
  import opened OrderRuns
  import opened OrderGuarantees
  import opened OrderCallbacks
  import opened StockEquation

  // ---- What a retry takes ----

  /** retry looks at neither the method nor the order, so a COD order is open to it until it is completed. */
  lemma CodRetryIsOpen(start: map<Key, int>, s: State, o: Id)
    requires Reachable(start, s) && PaymentKnown(s, o) && s.payments[o].paymentMethod == Cod && Live(s.orders[o].status)
    ensures RetryError(s, s.orders[o].user, o) == None <==> s.orders[o].status != Completed
  {
    hide Reachable, OrderAccount, ItemsOk, Unique, AttemptOk;
    OrderFacts(start, s, o);
    assert forall a :: !AttemptOf(s, a, o);
  }

  /** A retry consumes nothing and writes nothing under the order's own id. */
  lemma RetryLeavesStillOut(s: State, o: Id, seen: OrderStatus, id: Id, key: Id, now: int, later: int)
    requires PaymentKnown(s, o) && o !in s.attempts
    requires RetryCommit(s, o, seen, id, key, now, later).next != s
    ensures var s' := RetryCommit(s, o, seen, id, key, now, later).next;
            && PaymentKnown(s', o) && s'.orders[o].status == PendingPayment
            && s'.orders[o].branch == s.orders[o].branch && s'.orders[o].items == s.orders[o].items
            && StillOut(s', o) == StillOut(s, o)
  {
    hide Deduct, ByVariant, GrewWithout, NoneOfKind;
    var s' := RetryCommit(s, o, seen, id, key, now, later).next;
    assert forall a :: a in s.attempts ==> s'.attempts[a] == s.attempts[a];
    assert forall a :: ConsumedAttempt(s', a, o) <==> ConsumedAttempt(s, a, o);
    RetriedElsewhere(s, o, seen, id, key, now, later, o);
    GrewWithoutKind(s.books.ledger, s'.books.ledger, o);
  }

  /** After a retry the order has its quantities out once, and once more if they were out for good. */
  lemma RetryAdds(start: map<Key, int>, s: State, o: Id, seen: OrderStatus, id: Id, key: Id, now: int, later: int,
                  k: Key)
    requires Reachable(start, s) && PaymentKnown(s, o)
    requires RetryCommit(s, o, seen, id, key, now, later).next != s
    ensures var s' := RetryCommit(s, o, seen, id, key, now, later).next;
            var taken := QtyAt(s.orders[o].branch, s.orders[o].items, k);
            SumNet(s'.books.ledger, Slice(s', o), k) == if StillOut(s, o) then -taken - taken else -taken
  {
    hide Reachable, StillOut, RetryCommit, SumNet, Slice;
    var r := CommitStaleRetry(o, seen, id, key, now, later);
    OrderIsNoAttempt(start, s, o);
    RetryLeavesStillOut(s, o, seen, id, key, now, later);
    StepIsReachable(start, s, r);
    OutExactly(start, Apply(s, r).next, o, k);
  }

  /**
   In every reachable state, however stale its read, a retry of a VNPAY order leaves the quantities out
   twice exactly when an attempt of the order has been paid.
   */
  lemma StaleRetryTakesAgain(start: map<Key, int>, s: State, o: Id, seen: OrderStatus, id: Id, key: Id, now: int,
                             later: int, k: Key)
    requires Reachable(start, s) && PaymentKnown(s, o) && s.payments[o].paymentMethod == Vnpay
    requires RetryCommit(s, o, seen, id, key, now, later).next != s
    ensures var s' := RetryCommit(s, o, seen, id, key, now, later).next;
            var taken := QtyAt(s.orders[o].branch, s.orders[o].items, k);
            SumNet(s'.books.ledger, Slice(s', o), k) == if HasConsumed(s, o) then -taken - taken else -taken
  {
    hide Reachable, RetryCommit, SumNet, Slice;
    RetryAdds(start, s, o, seen, id, key, now, later, k);
  }

  /**
   And a retry of a COD order, the first or a later one, exactly when the order's own movements never gave them back.
   */
  lemma CodRetryTakesAgain(start: map<Key, int>, s: State, o: Id, seen: OrderStatus, id: Id, key: Id, now: int,
                           later: int, k: Key)
    requires Reachable(start, s) && PaymentKnown(s, o) && s.payments[o].paymentMethod == Cod
    requires RetryCommit(s, o, seen, id, key, now, later).next != s
    ensures var s' := RetryCommit(s, o, seen, id, key, now, later).next;
            var taken := QtyAt(s.orders[o].branch, s.orders[o].items, k);
            SumNet(s'.books.ledger, Slice(s', o), k) == if GaveBack(s, o) then -taken else -taken - taken
  {
    hide Reachable, RetryCommit, SumNet, Slice, GaveBack;
    RetryAdds(start, s, o, seen, id, key, now, later, k);
  }

  // ---- A COD order's own movements stop at its first retry ----

  /** The ledger only grew, and by nothing that this order wrote itself. */
  ghost predicate GrewWithout(l: seq<Movement>, l': seq<Movement>, o: Id)
  {
    && |l| <= |l'| && l'[..|l|] == l
    && forall i :: |l| <= i < |l'| ==> l'[i].source != FromOrder(o)
  }

  lemma {:induction false} GrewWithoutNet(l: seq<Movement>, l': seq<Movement>, o: Id, k: Key)
    requires GrewWithout(l, l', o)
    ensures Net(l', FromOrder(o), k) == Net(l, FromOrder(o), k)
    decreases |l'|
  {
    if |l'| == |l| {
      assert l' == l;
    } else {
      var front := l'[..|l'| - 1];
      assert front[..|l|] == l;
      GrewWithoutNet(l, front, o, k);
    }
  }

  lemma GrewWithoutKind(l: seq<Movement>, l': seq<Movement>, o: Id)
    requires GrewWithout(l, l', o)
    ensures forall kind :: NoneOfKind(l', FromOrder(o), kind) <==> NoneOfKind(l, FromOrder(o), kind)
  {
    assert forall i :: 0 <= i < |l| ==> l'[i] == l[i];
  }

  lemma GrewElsewhere(b: Books, b': Books, source: Id, kind: MovementKind, o: Id)
    requires Grew(b, b', FromOrder(source), kind) && source != o
    ensures GrewWithout(b.ledger, b'.ledger, o)
  {
  }

  lemma ReleaseElsewhere(s: State, id: Id, o: Id)
    requires id in s.attempts && s.attempts[id].order in s.orders && ReleaseHold(s, id).Some? && id != o
    ensures GrewWithout(s.books.ledger, ReleaseHold(s, id).value.books.ledger, o)
  {
    hide Restore;
    var order := s.orders[s.attempts[id].order];
    if Active(s.attempts[id]) {
      RestoreRows(s.books, order.branch, order.items, FromOrder(id));
      GrewElsewhere(s.books, ReleaseHold(s, id).value.books, id, Restored, o);
    }
  }

  lemma CancelElsewhere(start: map<Key, int>, s: State, x: Id, allowed: set<OrderStatus>, o: Id)
    requires Inv(start, s) && PaymentKnown(s, x) && PaymentKnown(s, o) && s.payments[o].paymentMethod == Cod &&
             HasAttempt(s, o)
    ensures GrewWithout(s.books.ledger, Cancel(s, x, allowed).next.books.ledger, o)
  {
    hide Restore, ReleaseHold, GrewWithout, Inv, OrderInv;
    NothingGrew(s.books.ledger, o);
    if HasActive(s, x) {
      var id := FindActive(s, x);
      NotAnAttempt(start, s, o, id);
      if ReleaseHold(s, id).Some? {
        ReleaseElsewhere(s, id, o);
      }
    } else if x == o {
      RetriedIsRestored(start, s, o);
    } else if Restore(s.books, s.orders[x].branch, s.orders[x].items, FromOrder(x)).Some? {
      var b' := Restore(s.books, s.orders[x].branch, s.orders[x].items, FromOrder(x)).value;
      RestoreRows(s.books, s.orders[x].branch, s.orders[x].items, FromOrder(x));
      GrewElsewhere(s.books, b', x, Restored, o);
    }
  }

  lemma NothingGrew(l: seq<Movement>, o: Id)
    ensures GrewWithout(l, l, o)
  {
  }

  lemma NotAnAttempt(start: map<Key, int>, s: State, o: Id, id: Id)
    requires Inv(start, s) && o in s.orders && id in s.attempts
    ensures id != o && s.attempts[id].order in s.orders
  {
    hide Sound, IndexHolds, NoStrays, OrderInv;
    assert o in s.orders.Keys && id in s.attempts.Keys;
  }

  lemma RetriedIsRestored(start: map<Key, int>, s: State, o: Id)
    requires Inv(start, s) && PaymentKnown(s, o) && s.payments[o].paymentMethod == Cod && HasAttempt(s, o)
    ensures s.orders[o].stockRestored || HasActive(s, o)
  {
    hide Sound, IndexHolds, NoStrays, OrderAccount, ItemsOk, Unique, AttemptOk;
    assert OrderInv(s, o);
  }

  lemma DeductElsewhere(b: Books, branch: Id, items: seq<Item>, source: Id, o: Id)
    requires Deduct(b, branch, items, FromOrder(source)).Some? && source != o
    ensures GrewWithout(b.ledger, Deduct(b, branch, items, FromOrder(source)).value.ledger, o)
  {
    DeductRows(b, branch, items, FromOrder(source));
    GrewElsewhere(b, Deduct(b, branch, items, FromOrder(source)).value, source, Deducted, o);
  }

  lemma PlacedElsewhere(s: State, r: Request, o: Id)
    requires o in s.orders && (r.PlaceCodOrder? || r.PlaceVnpayOrder?)
    ensures GrewWithout(s.books.ledger, Apply(s, r).next.books.ledger, o)
  {
    hide Deduct, ByVariant, CheckoutError, Subtotal, DistinctVariants, OwnAttemptExists, OwnOrderExists, OrderKeyTaken,
      AttemptKeyTaken, GrewWithout;
    NothingGrew(s.books.ledger, o);
    var source := if r.PlaceCodOrder? then r.orderId else r.attemptId;
    var items := ByVariant(ItemsOf(r.basket.lines));
    if source != o && Deduct(s.books, r.basket.branch, items, FromOrder(source)).Some? {
      DeductElsewhere(s.books, r.basket.branch, items, source, o);
    }
  }

  lemma RetriedElsewhere(s: State, x: Id, seen: OrderStatus, id: Id, key: Id, now: int, later: int, o: Id)
    requires o in s.orders
    ensures GrewWithout(s.books.ledger, RetryCommit(s, x, seen, id, key, now, later).next.books.ledger, o)
  {
    hide Deduct, ByVariant, HasPending, AttemptKeyTaken, GrewWithout;
    NothingGrew(s.books.ledger, o);
    if x in s.orders && id != o &&
       Deduct(s.books, s.orders[x].branch, ByVariant(s.orders[x].items), FromOrder(id)).Some?
    {
      DeductElsewhere(s.books, s.orders[x].branch, ByVariant(s.orders[x].items), id, o);
    }
  }

  lemma IpnElsewhere(start: map<Key, int>, s: State, id: Id, cb: Callback, o: Id)
    requires Inv(start, s) && o in s.orders
    ensures GrewWithout(s.books.ledger, HandleIpn(s, id, cb).next.books.ledger, o)
  {
    hide Inv, ReleaseHold, SuccessVerdict, IpnRead, GrewWithout;
    NothingGrew(s.books.ledger, o);
    if id in s.attempts {
      NotAnAttempt(start, s, o, id);
      if ReleaseHold(s, id).Some? {
        ReleaseElsewhere(s, id, o);
      }
    }
  }

  lemma ExpiryElsewhere(start: map<Key, int>, s: State, user: Id, x: Id, now: int, o: Id)
    requires Inv(start, s) && o in s.orders
    ensures GrewWithout(s.books.ledger, Expire(s, user, x, now).next.books.ledger, o)
  {
    hide Inv, ReleaseHold, GrewWithout;
    NothingGrew(s.books.ledger, o);
    if PaymentKnown(s, x) && HasExpired(s, x, now) {
      NotAnAttempt(start, s, o, FindExpired(s, x, now));
      if ReleaseHold(s, FindExpired(s, x, now)).Some? {
        ReleaseElsewhere(s, FindExpired(s, x, now), o);
      }
    }
  }

  lemma AdjustElsewhere(s: State, available: bool, row: Key, d: Adjustment, receipt: Id, o: Id)
    ensures GrewWithout(s.books.ledger, Adjust(s, available, row, d, receipt).next.books.ledger, o)
  {
  }

  /** No request moves stock under a COD order that has been retried. */
  lemma RequestElsewhere(start: map<Key, int>, s: State, r: Request, o: Id)
    requires Inv(start, s) && PaymentKnown(s, o) && s.payments[o].paymentMethod == Cod && HasAttempt(s, o)
    ensures GrewWithout(s.books.ledger, Apply(s, r).next.books.ledger, o)
  {
    hide Inv, HandleIpn, Expire, Cancel, RetryCommit, Adjust, GrewWithout, PlaceCod, PlaceVnpay, SuccessVerdict;
    NothingGrew(s.books.ledger, o);
    match r
    case PlaceCodOrder(b, x) => PlacedElsewhere(s, r, o);
    case PlaceVnpayOrder(b, x, id, now, later) => PlacedElsewhere(s, r, o);
    case Ipn(id, cb) => IpnElsewhere(start, s, id, cb, o);
    case Return(id, cb) =>
    case GetStatus(user, x, now) => ExpiryElsewhere(start, s, user, x, now, o);
    case RetryPayment(user, x, id, key, now, later) =>
      if x in s.orders {
        RetriedElsewhere(s, x, s.orders[x].status, id, key, now, later, o);
      }
    case CommitStaleRetry(x, seen, id, key, now, later) => RetriedElsewhere(s, x, seen, id, key, now, later, o);
    case CancelByCustomer(user, x) =>
      if PaymentKnown(s, x) {
        CancelElsewhere(start, s, x, CUSTOMER_CANCELLABLE, o);
      }
    case CancelByAdmin(permitted, branch, x) =>
      if PaymentKnown(s, x) {
        CancelElsewhere(start, s, x, ADMIN_CANCELLABLE, o);
      }
    case MoveOn(permitted, branch, x, target) =>
    case ConfirmReceipt(user, x) =>
    case AdjustStock(available, row, d, receipt) => AdjustElsewhere(s, available, row, d, receipt, o);
  }

  lemma AttemptStays(s: State, s': State, o: Id)
    requires Persists(s, s') && PaymentKnown(s, o) && HasAttempt(s, o)
    ensures PaymentKnown(s', o) && HasAttempt(s', o) && s'.payments[o].paymentMethod == s.payments[o].paymentMethod
    ensures s'.orders[o].branch == s.orders[o].branch && s'.orders[o].items == s.orders[o].items
  {
    var a :| a in s.attempts && AttemptOf(s, a, o);
    assert AttemptPersists(s.attempts[a], s'.attempts[a]);
    assert AttemptOf(s', a, o);
    assert OrderPersists(s.orders[o], s'.orders[o]) && PaymentPersists(s.payments[o], s'.payments[o]);
  }

  /** Once a COD order has an attempt, what its own movements hold never changes again, in any run. */
  lemma {:induction false} CodNetIsFrozen(start: map<Key, int>, s: State, rs: seq<Request>, o: Id, k: Key)
    requires Reachable(start, s) && PaymentKnown(s, o) && s.payments[o].paymentMethod == Cod && HasAttempt(s, o)
    ensures Net(Run(s, rs).books.ledger, FromOrder(o), k) == Net(s.books.ledger, FromOrder(o), k)
  {
    hide Reachable, Apply, Persists, HasAttempt;
    if |rs| > 0 {
      var front, last := rs[..|rs| - 1], rs[|rs| - 1];
      CodNetIsFrozen(start, s, front, o, k);
      var mid := Run(s, front);
      RunPersists(s, front);
      AttemptStays(s, mid, o);
      ReachableRun(start, s, front);
      ReachableInv(start, mid);
      RequestElsewhere(start, mid, last, o);
      GrewWithoutNet(mid.books.ledger, Apply(mid, last).next.books.ledger, o, k);
    }
  }

  /** A retry of this order that went through. */
  ghost predicate Retries(s: State, r: Request, o: Id)
  {
    (r.RetryPayment? || r.CommitStaleRetry?) && r.order == o && Apply(s, r).next != s
  }

  /**
   The first retry of a COD order decides for ever what the order's own movements hold: its quantities if it
   came while the order was live, and nothing if it came after the order was cancelled.
   */
  lemma FirstRetryDecides(start: map<Key, int>, s: State, r: Request, rs: seq<Request>, o: Id, k: Key)
    requires Reachable(start, s) && PaymentKnown(s, o) && s.payments[o].paymentMethod == Cod && !HasAttempt(s, o)
    requires Retries(s, r, o)
    ensures Net(Run(Apply(s, r).next, rs).books.ledger, FromOrder(o), k)
            == if Live(s.orders[o].status) then -QtyAt(s.orders[o].branch, s.orders[o].items, k) else 0
  {
    hide Reachable, Run, RetryCommit;
    var s' := Apply(s, r).next;
    var seen := if r.RetryPayment? then s.orders[o].status else r.seen;
    assert s' == RetryCommit(s, o, seen, r.attemptId, r.key, r.now, r.expireAfter).next;
    UnretriedCod(start, s, o, k);
    RetriedElsewhere(s, o, seen, r.attemptId, r.key, r.now, r.expireAfter, o);
    GrewWithoutNet(s.books.ledger, s'.books.ledger, o, k);
    RetryMakesAttempt(s, o, seen, r.attemptId, r.key, r.now, r.expireAfter);
    StepIsReachable(start, s, r);
    CodNetIsFrozen(start, s', rs, o, k);
  }

  lemma RetryMakesAttempt(s: State, o: Id, seen: OrderStatus, id: Id, key: Id, now: int, later: int)
    requires PaymentKnown(s, o) && RetryCommit(s, o, seen, id, key, now, later).next != s
    ensures var s' := RetryCommit(s, o, seen, id, key, now, later).next;
            PaymentKnown(s', o) && HasAttempt(s', o) && s'.payments[o].paymentMethod == s.payments[o].paymentMethod
  {
    hide Deduct, ByVariant;
    assert AttemptOf(RetryCommit(s, o, seen, id, key, now, later).next, id, o);
  }

  lemma StepIsReachable(start: map<Key, int>, s: State, r: Request)
    requires Reachable(start, s)
    ensures Reachable(start, Apply(s, r).next)
  {
    hide Reachable, Apply;
    ReachableRun(start, s, [r]);
    assert [r][..0] == [];
    assert Run(s, [r][..0]) == s;
  }

  // ---- What a cancelled order has out ----

  /** A cancelled order of either method has its quantities out exactly if they are out for good, and else nothing. */
  lemma CancelledNet(start: map<Key, int>, s: State, o: Id, k: Key)
    requires Reachable(start, s) && PaymentKnown(s, o) && s.orders[o].status == Cancelled
    ensures SumNet(s.books.ledger, Slice(s, o), k)
            == if StillOut(s, o) then -QtyAt(s.orders[o].branch, s.orders[o].items, k) else 0
  {
    hide Reachable, StillOut, SumNet, Slice;
    OutExactly(start, s, o, k);
  }

  lemma {:induction false} FirstLineCounts(items: seq<Item>)
    requires Positive(items) && |items| > 0 && items[0].variant.Some?
    ensures Qty(items, items[0].variant.value) > 0
  {
    if |items| == 1 {
      assert items[..0] == [];
    } else {
      FirstLineCounts(items[..|items| - 1]);
    }
  }

  lemma OrderTakesSomething(start: map<Key, int>, s: State, o: Id) returns (k: Key)
    requires Reachable(start, s) && PaymentKnown(s, o)
    ensures QtyAt(s.orders[o].branch, s.orders[o].items, k) > 0
  {
    hide Reachable, OrderAccount, Unique, OrderOk, AttemptOk;
    OrderFacts(start, s, o);
    FirstLineCounts(s.orders[o].items);
    k := Key(s.orders[o].branch, s.orders[o].items[0].variant.value);
  }

  /** So it has nothing out of any row exactly when they are not. */
  lemma CancelledHasNothingOutExactly(start: map<Key, int>, s: State, o: Id)
    requires Reachable(start, s) && PaymentKnown(s, o) && s.orders[o].status == Cancelled
    ensures (forall k :: SumNet(s.books.ledger, Slice(s, o), k) == 0) <==> !StillOut(s, o)
  {
    hide Reachable, StillOut, SumNet, Slice;
    forall k ensures SumNet(s.books.ledger, Slice(s, o), k)
                     == if StillOut(s, o) then -QtyAt(s.orders[o].branch, s.orders[o].items, k) else 0
    {
      CancelledNet(start, s, o, k);
    }
    var k := OrderTakesSomething(start, s, o);
    assert SumNet(s.books.ledger, Slice(s, o), k) == 0 <==> !StillOut(s, o);
  }

  // ---- What a cancellation gives back ----

  /** A cancellation of this order that went through. */
  ghost predicate Cancels(s: State, r: Request, o: Id)
  {
    (r.CancelByCustomer? || r.CancelByAdmin?) && r.order == o && Apply(s, r).next != s
  }

  lemma CancelKeepsAttempts(s: State, r: Request, o: Id)
    requires PaymentKnown(s, o) && Cancels(s, r, o)
    ensures var s' := Apply(s, r).next;
            && PaymentKnown(s', o) && s'.orders[o].status == Cancelled
            && s'.orders[o].branch == s.orders[o].branch && s'.orders[o].items == s.orders[o].items
            && s'.payments[o].paymentMethod == s.payments[o].paymentMethod
            && s'.attempts.Keys == s.attempts.Keys
            && forall a :: a in s.attempts ==>
                 s'.attempts[a].consumed == s.attempts[a].consumed && s'.attempts[a].order == s.attempts[a].order
  {
    hide Restore;
  }

  /** What will stay out, by what can be checked before the cancellation. */
  ghost predicate CancelLeavesOut(s: State, o: Id)
    requires PaymentKnown(s, o)
  {
    if s.payments[o].paymentMethod == Vnpay then HasConsumed(s, o) else HasAttempt(s, o) && !GaveBack(s, o)
  }

  /**
   A cancellation gives back all that the order has out exactly unless an attempt of a VNPAY order has been
   paid, or a COD order was retried before it had given anything back.
   */
  lemma CancellationGivesBackExactly(start: map<Key, int>, s: State, r: Request, o: Id, k: Key)
    requires Reachable(start, s) && PaymentKnown(s, o) && Cancels(s, r, o)
    ensures var s' := Apply(s, r).next;
            SumNet(s'.books.ledger, Slice(s', o), k)
            == if CancelLeavesOut(s, o) then -QtyAt(s.orders[o].branch, s.orders[o].items, k) else 0
  {
    hide Reachable, Apply, Cancels, SumNet, Slice, GaveBack;
    var s' := Apply(s, r).next;
    CancelKeepsAttempts(s, r, o);
    StepIsReachable(start, s, r);
    CancelledNet(start, s', o, k);
    if s.payments[o].paymentMethod == Vnpay {
      assert forall a :: ConsumedAttempt(s', a, o) <==> ConsumedAttempt(s, a, o);
    } else {
      CodOwnNet(start, s', o, k);
      CodOwnNet(start, s, o, k);
      assert forall a :: AttemptOf(s', a, o) <==> AttemptOf(s, a, o);
      if HasAttempt(s, o) {
        ReachableInv(start, s);
        RequestElsewhere(start, s, r, o);
        GrewWithoutNet(s.books.ledger, s'.books.ledger, o, k);
      } else {
        UnretriedCod(start, s', o, k);
      }
    }
  }

  /** So when a retried COD order ends up cancelled, its goods are out exactly if the first retry found it live. */
  lemma CancelledAfterRetry(start: map<Key, int>, s: State, r: Request, rs: seq<Request>, o: Id, k: Key)
    requires Reachable(start, s) && PaymentKnown(s, o) && s.payments[o].paymentMethod == Cod && !HasAttempt(s, o)
    requires Retries(s, r, o)
    requires var s' := Run(Apply(s, r).next, rs); o in s'.orders && s'.orders[o].status == Cancelled
    ensures var s' := Run(Apply(s, r).next, rs);
            SumNet(s'.books.ledger, Slice(s', o), k)
            == if Live(s.orders[o].status) then -QtyAt(s.orders[o].branch, s.orders[o].items, k) else 0
  {
    hide Reachable, Run, Apply, Retries, SumNet, Slice, Persists;
    var s' := Run(Apply(s, r).next, rs);
    StepIsReachable(start, s, r);
    ReachableRun(start, Apply(s, r).next, rs);
    RunPersists(s, [r]);
    assert Run(s, [r]) == Apply(s, r).next by {
      OneRequest(s, r);
    }
    RunPersists(Apply(s, r).next, rs);
    PersistsTrans(s, Apply(s, r).next, s');
    MethodPersists(s, s', o);
    CancelledNet(start, s', o, k);
    CodOwnNet(start, s', o, k);
    FirstRetryDecides(start, s, r, rs, o, k);
  }

  lemma OneRequest(s: State, r: Request)
    ensures Run(s, [r]) == Apply(s, r).next
  {
    hide Apply;
    assert [r][..0] == [];
    assert Run(s, [r][..0]) == s;
  }

  lemma MethodPersists(s: State, s': State, o: Id)
    requires Persists(s, s') && PaymentKnown(s, o)
    ensures PaymentKnown(s', o) && s'.payments[o].paymentMethod == s.payments[o].paymentMethod
  {
    assert PaymentPersists(s.payments[o], s'.payments[o]);
  }
}
