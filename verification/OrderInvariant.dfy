/** What every reachable state of the order protocol satisfies, with the retry's read as stale as it likes. */
module OrderInvariant {
  import opened OrderTypes
  import opened StockLedger
  import opened OrderProtocol

  // ---- The rows of one order ----

  ghost predicate AttemptOk(a: Attempt, order: Order, payment: Payment)
  {
    && a.reserved
    && !(a.consumed && a.released)
    && (a.status == TxPaid <==> a.consumed)
    && (a.status in {TxFailed, TxCancelled, TxExpired} ==> a.released)
    && (a.consumed ==> payment.paymentMethod == Vnpay)
    && (a.status == TxPending ==> if a.released then order.status == Cancelled else order.status == PendingPayment)
    && a.amount == payment.amount
  }

  ghost predicate ItemsOk(branch: Id, items: seq<Item>, stock: map<Key, int>)
  {
    && |items| > 0
    && Positive(items)
    && DistinctVariants(items)
    && (forall i :: 0 <= i < |items| ==> items[i].variant.Some? && Key(branch, items[i].variant.value) in stock)
  }

  ghost predicate ConsumedAttempt(s: State, a: Id, o: Id)
  {
    AttemptOf(s, a, o) && s.attempts[a].consumed
  }

  ghost predicate HasConsumed(s: State, o: Id)
  {
    exists a :: a in s.attempts && ConsumedAttempt(s, a, o)
  }

  ghost predicate OrderOk(order: Order, payment: Payment, attempted: bool, active: bool, consumed: bool)
  {
    && order.status != Returned
    && payment.amount == order.total
    && (order.status == PendingPayment ==> active && payment.status == PayPending)
    && (order.status == PaymentFailed ==> payment.status in {PayFailed, PayCancelled, PayExpired})
    && (order.status == Completed ==> order.received)
    && (Live(order.status) && payment.paymentMethod == Vnpay ==> payment.status == PayPaid && consumed)
    && (Live(order.status) && payment.paymentMethod == Cod ==>
          && payment.status == (if order.status == Completed then PayPaid else Unpaid)
          && !order.stockRestored && !attempted)
    && (payment.paymentMethod == Cod ==> order.stockDeducted)
    && (payment.paymentMethod == Cod && attempted ==> order.stockRestored || active)
    && (payment.paymentMethod == Cod && !attempted ==> Live(order.status) || order.status == Cancelled)
  }

  /** At most one attempt of the order is pending, and at most one is paid. */
  ghost predicate Unique(s: State, o: Id)
  {
    forall a, b :: AttemptOf(s, a, o) && AttemptOf(s, b, o) && a != b && s.attempts[a].status in {TxPending, TxPaid} ==>
                     s.attempts[a].status != s.attempts[b].status
  }

  ghost predicate OrderRows(s: State, o: Id)
    requires PaymentKnown(s, o)
  {
    && Unique(s, o)
    && (forall a :: AttemptOf(s, a, o) ==> AttemptOk(s.attempts[a], s.orders[o], s.payments[o]))
    && OrderOk(s.orders[o], s.payments[o], HasAttempt(s, o), HasActive(s, o), HasConsumed(s, o))
    && ItemsOk(s.orders[o].branch, s.orders[o].items, s.books.stock)
  }

  // ---- The ledger, source by source ----

  /** The source has taken exactly the order's quantities and given nothing back. */
  ghost predicate Held(ledger: seq<Movement>, id: Id, branch: Id, items: seq<Item>)
  {
    && (forall k :: Net(ledger, FromOrder(id), k) == -QtyAt(branch, items, k))
    && NoneOfKind(ledger, FromOrder(id), Restored)
  }

  /** The source has given back exactly what it took. */
  ghost predicate Settled(ledger: seq<Movement>, id: Id)
  {
    forall k :: Net(ledger, FromOrder(id), k) == 0
  }

  /** A source that has never written a restoration still holds what it took. */
  ghost predicate Marked(ledger: seq<Movement>, id: Id, branch: Id, items: seq<Item>)
  {
    NoneOfKind(ledger, FromOrder(id), Restored) ==> Held(ledger, id, branch, items)
  }

  ghost predicate AttemptAccount(ledger: seq<Movement>, id: Id, a: Attempt, order: Order)
  {
    if a.released then Settled(ledger, id) else Held(ledger, id, order.branch, order.items)
  }

  ghost predicate CodAccount(ledger: seq<Movement>, o: Id, order: Order, attempted: bool, active: bool)
  {
    && (Held(ledger, o, order.branch, order.items) || (Settled(ledger, o) && (order.stockRestored || active)))
    && (order.status == Cancelled && !attempted ==> Settled(ledger, o))
    && Marked(ledger, o, order.branch, order.items)
  }

  ghost predicate OrderAccount(s: State, o: Id)
    requires PaymentKnown(s, o)
  {
    && (forall a :: AttemptOf(s, a, o) ==> AttemptAccount(s.books.ledger, a, s.attempts[a], s.orders[o]))
    && (s.payments[o].paymentMethod == Vnpay ==> Unused(s.books.ledger, FromOrder(o)))
    && (s.payments[o].paymentMethod == Cod ==>
          CodAccount(s.books.ledger, o, s.orders[o], HasAttempt(s, o), HasActive(s, o)))
  }

  ghost predicate OrderInv(s: State, o: Id)
  {
    PaymentKnown(s, o) && OrderRows(s, o) && OrderAccount(s, o)
  }

  // ---- The whole state ----

  ghost predicate Tables(s: State)
  {
    && s.payments.Keys == s.orders.Keys
    && s.attempts.Keys !! s.orders.Keys
    && (forall id :: id in s.attempts ==> s.attempts[id].order in s.orders)
  }

  /** An id that no row carries has written no movement. */
  ghost predicate NoStrays(s: State)
  {
    forall id :: id !in s.orders && id !in s.attempts ==> Unused(s.books.ledger, FromOrder(id))
  }

  ghost predicate Inv(start: map<Key, int>, s: State)
  {
    && Sound(start, s.books)
    && IndexHolds(s.books.ledger)
    && Tables(s)
    && NoStrays(s)
    && (forall o :: o in s.orders ==> OrderInv(s, o))
  }

  // ---- What one source's movements leave alone ----

  ghost predicate SourceKept(l: seq<Movement>, l': seq<Movement>, id: Id)
  {
    && (forall k :: Net(l', FromOrder(id), k) == Net(l, FromOrder(id), k))
    && (NoneOfKind(l, FromOrder(id), Restored) <==> NoneOfKind(l', FromOrder(id), Restored))
    && (Unused(l, FromOrder(id)) ==> Unused(l', FromOrder(id)))
  }

  lemma OthersKept(b: Books, b': Books, branch: Id, items: seq<Item>, source: Id, sign: int, kind: MovementKind)
    requires Moved(b, b', branch, items, FromOrder(source), sign) && Grew(b, b', FromOrder(source), kind)
    ensures forall id :: id != source ==> SourceKept(b.ledger, b'.ledger, id)
  {
    forall id | id != source ensures SourceKept(b.ledger, b'.ledger, id) {
      assert forall i :: 0 <= i < |b.ledger| ==> b'.ledger[i] == b.ledger[i];
      forall i | 0 <= i < |b'.ledger|
        ensures b'.ledger[i].source == FromOrder(id) ==> i < |b.ledger| && b'.ledger[i] == b.ledger[i]
      {
      }
    }
  }

  /** Everything about order x is as it was. */
  ghost predicate SliceKept(s: State, s': State, x: Id)
  {
    && PaymentKnown(s, x) && PaymentKnown(s', x)
    && s'.orders[x] == s.orders[x] && s'.payments[x] == s.payments[x]
    && (forall a :: AttemptOf(s', a, x) <==> AttemptOf(s, a, x))
    && (forall a :: AttemptOf(s, a, x) ==>
          s'.attempts[a] == s.attempts[a] && SourceKept(s.books.ledger, s'.books.ledger, a))
    && SourceKept(s.books.ledger, s'.books.ledger, x)
    && s.books.stock.Keys <= s'.books.stock.Keys
  }

  lemma SameAttempts(s: State, s': State, x: Id)
    requires forall a :: AttemptOf(s', a, x) <==> AttemptOf(s, a, x)
    requires forall a :: AttemptOf(s, a, x) && AttemptOf(s', a, x) ==> s'.attempts[a] == s.attempts[a]
    ensures HasAttempt(s', x) == HasAttempt(s, x)
    ensures HasActive(s', x) == HasActive(s, x)
    ensures HasConsumed(s', x) == HasConsumed(s, x)
    ensures HasPending(s', x) == HasPending(s, x)
  {
    assert forall a :: ActiveHold(s', a, x) <==> ActiveHold(s, a, x);
    assert forall a :: ConsumedAttempt(s', a, x) <==> ConsumedAttempt(s, a, x);
    assert forall a :: PendingAttempt(s', a, x) <==> PendingAttempt(s, a, x);
  }

  lemma HeldKept(l: seq<Movement>, l': seq<Movement>, id: Id)
    requires SourceKept(l, l', id)
    ensures forall branch, items :: Held(l, id, branch, items) ==> Held(l', id, branch, items)
    ensures Settled(l, id) ==> Settled(l', id)
    ensures forall branch, items :: Marked(l, id, branch, items) ==> Marked(l', id, branch, items)
  {
  }

  lemma FrameOrder(s: State, s': State, x: Id)
    requires OrderInv(s, x) && SliceKept(s, s', x)
    ensures OrderInv(s', x)
  {
    SameAttempts(s, s', x);
    HeldKept(s.books.ledger, s'.books.ledger, x);
    assert OrderRows(s', x);
    forall a | AttemptOf(s', a, x)
      ensures AttemptAccount(s'.books.ledger, a, s'.attempts[a], s'.orders[x])
    {
      HeldKept(s.books.ledger, s'.books.ledger, a);
      assert AttemptAccount(s.books.ledger, a, s.attempts[a], s.orders[x]);
    }
  }

  // ---- Holds of one order ----

  /** An active hold is a pending attempt of an order that waits for its payment. */
  lemma ActiveIsPending(s: State, a: Id, o: Id)
    requires OrderInv(s, o) && ActiveHold(s, a, o)
    ensures s.attempts[a].status == TxPending && s.orders[o].status == PendingPayment
  {
    assert AttemptOk(s.attempts[a], s.orders[o], s.payments[o]);
  }

  lemma OneActive(s: State, a: Id, b: Id, o: Id)
    requires OrderInv(s, o) && ActiveHold(s, a, o) && ActiveHold(s, b, o)
    ensures a == b
  {
    ActiveIsPending(s, a, o);
    ActiveIsPending(s, b, o);
  }

  lemma {:induction false} UnusedNet(ledger: seq<Movement>, source: Source)
    requires Unused(ledger, source)
    ensures forall k :: Net(ledger, source, k) == 0
  {
    if |ledger| > 0 {
      UnusedNet(ledger[..|ledger| - 1], source);
    }
  }

  /** Taking lines under an unused source makes that source hold them. */
  lemma TakingHolds(b: Books, b': Books, branch: Id, items: seq<Item>, id: Id)
    requires Unused(b.ledger, FromOrder(id))
    requires Moved(b, b', branch, items, FromOrder(id), -1) && Grew(b, b', FromOrder(id), Deducted)
    ensures Held(b'.ledger, id, branch, items)
  {
    UnusedNet(b.ledger, FromOrder(id));
    forall i | 0 <= i < |b'.ledger| ensures !(b'.ledger[i].source == FromOrder(id) && b'.ledger[i].kind == Restored) {
      assert i < |b.ledger| ==> b'.ledger[i] == b.ledger[i];
    }
  }

  /** Putting them back settles the source. */
  lemma ReturningSettles(b: Books, b': Books, branch: Id, items: seq<Item>, id: Id)
    requires Held(b.ledger, id, branch, items)
    requires Moved(b, b', branch, items, FromOrder(id), 1)
    ensures Settled(b'.ledger, id)
  {
  }

  /** A source whose lines were put back without a movement had no lines. */
  lemma ReturningMarks(b: Books, branch: Id, items: seq<Item>, id: Id)
    requires Held(b.ledger, id, branch, items) && Restore(b, branch, items, FromOrder(id)).Some?
    requires forall i :: 0 <= i < |items| ==> items[i].variant.Some?
    ensures Marked(Restore(b, branch, items, FromOrder(id)).value.ledger, id, branch, items)
  {
    if |items| > 0 {
      var after := Restore(b, branch, items, FromOrder(id)).value.ledger;
      assert after[|after| - 1].source == FromOrder(id) && after[|after| - 1].kind == Restored;
    }
  }

  lemma StraysKept(s: State, s': State, source: Id)
    requires NoStrays(s) && forall id :: id != source ==> SourceKept(s.books.ledger, s'.books.ledger, id)
    requires forall id :: id in s.orders || id in s.attempts ==> id in s'.orders || id in s'.attempts
    requires source in s'.orders || source in s'.attempts
    ensures NoStrays(s')
  {
    forall id | id !in s'.orders && id !in s'.attempts ensures Unused(s'.books.ledger, FromOrder(id)) {
      assert SourceKept(s.books.ledger, s'.books.ledger, id);
    }
  }
}
