/** Every request keeps the invariant. */
module OrderSteps {
  import opened OrderTypes
  import opened StockLedger
  import opened ProductWeight
  import opened OrderProtocol
  import opened OrderInvariant

  /** A request that writes no movement and touches only order o. */
  ghost predicate OnlyRows(s: State, s': State, o: Id)
  {
    && PaymentKnown(s, o)
    && s'.books == s.books
    && s'.orders.Keys == s.orders.Keys && s'.payments.Keys == s.payments.Keys && s'.attempts.Keys == s.attempts.Keys
    && (forall x :: x in s.orders && x != o ==> s'.orders[x] == s.orders[x])
    && (forall x :: x in s.payments && x != o ==> s'.payments[x] == s.payments[x])
    && (forall a :: a in s.attempts ==> s'.attempts[a].order == s.attempts[a].order)
    && (forall a :: a in s.attempts && s.attempts[a].order != o ==> s'.attempts[a] == s.attempts[a])
  }

  lemma OnlyRowsSlice(s: State, s': State, o: Id, x: Id)
    requires OnlyRows(s, s', o) && PaymentKnown(s, x) && x != o
    ensures SliceKept(s, s', x)
  {
  }

  lemma OnlyRowsKeeps(start: map<Key, int>, s: State, s': State, o: Id)
    requires Inv(start, s) && OnlyRows(s, s', o) && OrderInv(s', o)
    ensures Inv(start, s')
  {
    hide OrderInv, Sound, IndexHolds;
    forall x | x in s'.orders ensures OrderInv(s', x) {
      if x != o {
        assert OrderInv(s, x);
        OnlyRowsSlice(s, s', o, x);
        FrameOrder(s, s', x);
      }
    }
  }

  /** Moving an order along without touching its attempts keeps its accounts. */
  lemma SameAttemptsAccount(s: State, s': State, o: Id)
    requires PaymentKnown(s, o) && PaymentKnown(s', o) && OrderAccount(s, o)
    requires s'.attempts == s.attempts && s'.books.ledger == s.books.ledger
    requires s'.payments[o].paymentMethod == s.payments[o].paymentMethod
    requires s'.orders[o].(status := s.orders[o].status, received := s.orders[o].received) == s.orders[o]
    requires s'.orders[o].status == Cancelled ==> s.orders[o].status == Cancelled
    ensures OrderAccount(s', o)
  {
    hide Held, Settled, Marked, Unused;
    SameAttempts(s, s', o);
  }

  lemma ConfirmRows(s: State, user: Id, o: Id)
    requires PaymentKnown(s, o) && OrderRows(s, o)
    ensures OrderRows(ConfirmReceived(s, user, o).next, o)
  {
    hide ItemsOk;
    SameAttempts(s, ConfirmReceived(s, user, o).next, o);
  }

  lemma ConfirmKeeps(start: map<Key, int>, s: State, user: Id, o: Id)
    requires Inv(start, s)
    ensures Inv(start, ConfirmReceived(s, user, o).next)
  {
    hide Sound, IndexHolds, OrderRows, OrderAccount;
    var s' := ConfirmReceived(s, user, o).next;
    if s' != s {
      assert OrderInv(s, o);
      ConfirmRows(s, user, o);
      SameAttemptsAccount(s, s', o);
      OnlyRowsKeeps(start, s, s', o);
    }
  }

  lemma TransitionRows(s: State, permitted: bool, branch: Id, o: Id, target: OrderStatus)
    requires PaymentKnown(s, o) && OrderRows(s, o)
    ensures OrderRows(Transition(s, permitted, branch, o, target).next, o)
  {
    hide ItemsOk;
    SameAttempts(s, Transition(s, permitted, branch, o, target).next, o);
  }

  lemma TransitionKeeps(start: map<Key, int>, s: State, permitted: bool, branch: Id, o: Id, target: OrderStatus)
    requires Inv(start, s)
    ensures Inv(start, Transition(s, permitted, branch, o, target).next)
  {
    hide Sound, IndexHolds, OrderRows, OrderAccount;
    var s' := Transition(s, permitted, branch, o, target).next;
    if s' != s {
      assert OrderInv(s, o);
      TransitionRows(s, permitted, branch, o, target);
      SameAttemptsAccount(s, s', o);
      OnlyRowsKeeps(start, s, s', o);
    }
  }

  lemma SuccessRows(s: State, id: Id, cb: Callback, o: Id)
    requires SuccessVerdict(s, id, cb) == Applied && o == s.attempts[id].order
    requires PaymentKnown(s, o) && OrderRows(s, o)
    ensures PaymentKnown(ApplySuccess(s, id, cb), o) && OrderRows(ApplySuccess(s, id, cb), o)
  {
    hide ItemsOk;
    var s' := ApplySuccess(s, id, cb);
    assert ConsumedAttempt(s', id, o);
    forall a | AttemptOf(s', a, o) && a != id
      ensures AttemptOf(s, a, o) && s'.attempts[a] == s.attempts[a] && s.attempts[a].status !in {TxPending, TxPaid}
    {
    }
    assert Unique(s', o);
  }

  lemma SuccessAccount(s: State, id: Id, cb: Callback, o: Id)
    requires SuccessVerdict(s, id, cb) == Applied && o == s.attempts[id].order
    requires OrderInv(s, o) && PaymentKnown(ApplySuccess(s, id, cb), o)
    ensures OrderAccount(ApplySuccess(s, id, cb), o)
  {
    hide OrderRows, Held, Settled, Marked, Unused;
    var s' := ApplySuccess(s, id, cb);
    forall a | AttemptOf(s', a, o)
      ensures AttemptAccount(s'.books.ledger, a, s'.attempts[a], s'.orders[o])
    {
      assert AttemptOf(s, a, o);
      assert AttemptAccount(s.books.ledger, a, s.attempts[a], s.orders[o]);
    }
  }

  lemma SuccessKeeps(start: map<Key, int>, s: State, id: Id, cb: Callback)
    requires Inv(start, s)
    ensures Inv(start, ApplySuccess(s, id, cb))
  {
    hide Sound, IndexHolds, OrderRows, OrderAccount;
    var s' := ApplySuccess(s, id, cb);
    if SuccessVerdict(s, id, cb) == Applied {
      var o := s.attempts[id].order;
      assert OrderInv(s, o);
      SuccessRows(s, id, cb, o);
      SuccessAccount(s, id, cb, o);
      OnlyRowsKeeps(start, s, s', o);
    }
  }

  // ---- Requests that move stock ----

  /** A request that touches only order o and writes movements only under one source of o. */
  ghost predicate OnlyOrder(s: State, s': State, o: Id, source: Id)
  {
    && PaymentKnown(s', o)
    && s.orders.Keys <= s'.orders.Keys <= s.orders.Keys + {o}
    && (forall x :: x in s.orders && x != o ==> s'.orders[x] == s.orders[x])
    && s.payments.Keys <= s'.payments.Keys
    && (forall x :: x in s.payments && x != o ==> s'.payments[x] == s.payments[x])
    && s.attempts.Keys <= s'.attempts.Keys
    && (forall a, x :: x != o && AttemptOf(s', a, x) ==> AttemptOf(s, a, x))
    && (forall a, x :: x != o && AttemptOf(s, a, x) ==> s'.attempts[a] == s.attempts[a])
    && s.books.stock.Keys <= s'.books.stock.Keys
    && (source == o || AttemptOf(s', source, o))
    && (forall id :: id != source ==> SourceKept(s.books.ledger, s'.books.ledger, id))
  }

  lemma OnlyOrderSlice(s: State, s': State, o: Id, source: Id, x: Id)
    requires OnlyOrder(s, s', o, source) && Tables(s') && PaymentKnown(s, x) && x != o
    ensures SliceKept(s, s', x)
  {
    hide SourceKept;
  }

  lemma OnlyOrderKeeps(start: map<Key, int>, s: State, s': State, o: Id, source: Id)
    requires Inv(start, s) && Sound(start, s'.books) && IndexHolds(s'.books.ledger) && Tables(s')
    requires OnlyOrder(s, s', o, source) && OrderInv(s', o)
    ensures Inv(start, s')
  {
    hide OrderInv, Sound, IndexHolds, SourceKept;
    forall x | x in s'.orders ensures OrderInv(s', x) {
      if x != o {
        assert OrderInv(s, x);
        OnlyOrderSlice(s, s', o, source, x);
        FrameOrder(s, s', x);
      }
    }
    StraysKept(s, s', source);
  }

  lemma FreshIsUnused(s: State, id: Id)
    requires FreshId(s, id)
    ensures Unused(s.books.ledger, FromOrder(id))
  {
  }

  lemma LinesPositive(lines: seq<Line>)
    requires TotalWeight(lines).Some? && |lines| > 0
    ensures Positive(ItemsOf(lines)) && |ItemsOf(lines)| > 0
  {
    TotalWeightExact(lines);
  }

  /** What a fresh deduction of a checked basket or of an order's lines establishes. */
  lemma Taken(start: map<Key, int>, b: Books, branch: Id, items: seq<Item>, id: Id)
    requires Sound(start, b) && IndexHolds(b.ledger) && Unused(b.ledger, FromOrder(id))
    requires |items| > 0 && Positive(items) && DistinctVariants(items)
    requires Deduct(b, branch, ByVariant(items), FromOrder(id)).Some?
    ensures var b' := Deduct(b, branch, ByVariant(items), FromOrder(id)).value;
            && Sound(start, b') && IndexHolds(b'.ledger) && b'.stock.Keys == b.stock.Keys
            && Held(b'.ledger, id, branch, items)
            && ItemsOk(branch, items, b'.stock)
            && (forall x :: x != id ==> SourceKept(b.ledger, b'.ledger, x))
  {
    DeductAll(start, b, branch, items, FromOrder(id));
    var b' := Deduct(b, branch, ByVariant(items), FromOrder(id)).value;
    OthersKept(b, b', branch, items, id, -1, Deducted);
    TakingHolds(b, b', branch, items, id);
  }

  lemma PlaceCodKeeps(start: map<Key, int>, s: State, b: Basket, o: Id)
    requires Inv(start, s)
    ensures Inv(start, PlaceCod(s, b, o).next)
  {
    hide Sound, IndexHolds, OrderInv, Held, Unused, ItemsOk, SourceKept, Deduct, ByVariant, TotalWeight, Subtotal,
      DistinctVariants, Positive;
    var s' := PlaceCod(s, b, o).next;
    if s' != s {
      FreshIsUnused(s, o);
      LinesPositive(b.lines);
      Taken(start, s.books, b.branch, ItemsOf(b.lines), o);
      assert forall a :: !AttemptOf(s', a, o);
      assert OrderInv(s', o) by {
        NewCodOrder(s', b, o);
      }
      OnlyOrderKeeps(start, s, s', o, o);
    }
  }

  lemma NewCodOrder(s: State, b: Basket, o: Id)
    requires PaymentKnown(s, o) && s.orders[o] == NewOrder(b, Pending, true)
    requires s.payments[o] == Payment(Cod, Unpaid, s.orders[o].total)
    requires forall a :: !AttemptOf(s, a, o)
    requires ItemsOk(b.branch, ItemsOf(b.lines), s.books.stock) && Held(s.books.ledger, o, b.branch, ItemsOf(b.lines))
    ensures OrderInv(s, o)
  {
    hide ItemsOk, Held, Settled, Unused;
  }

  lemma PlaceVnpayKeeps(start: map<Key, int>, s: State, b: Basket, o: Id, id: Id, now: int, expireAfter: int)
    requires Inv(start, s)
    ensures Inv(start, PlaceVnpay(s, b, o, id, now, expireAfter).next)
  {
    hide Sound, IndexHolds, OrderInv, Held, Unused, ItemsOk, SourceKept, Deduct, ByVariant, TotalWeight, Subtotal,
      DistinctVariants, Positive;
    var s' := PlaceVnpay(s, b, o, id, now, expireAfter).next;
    if s' != s {
      FreshIsUnused(s, o);
      FreshIsUnused(s, id);
      LinesPositive(b.lines);
      Taken(start, s.books, b.branch, ItemsOf(b.lines), id);
      assert Unused(s'.books.ledger, FromOrder(o)) by {
        UnusedKept(s.books.ledger, s'.books.ledger, o);
      }
      AddedOrder(s, s', o, id);
      NewVnpayOrder(s', b, o, id);
      OnlyOrderKeeps(start, s, s', o, id);
    }
  }

  lemma AddedOrder(s: State, s': State, o: Id, id: Id)
    requires Tables(s) && o != id && o !in s.orders && o !in s.attempts && id !in s.orders && id !in s.attempts
    requires o in s'.orders && s'.orders == s.orders[o := s'.orders[o]]
    requires o in s'.payments && s'.payments == s.payments[o := s'.payments[o]]
    requires id in s'.attempts && s'.attempts == s.attempts[id := s'.attempts[id]] && s'.attempts[id].order == o
    requires s'.books.stock.Keys == s.books.stock.Keys
    requires forall x :: x != id ==> SourceKept(s.books.ledger, s'.books.ledger, x)
    ensures Tables(s') && OnlyOrder(s, s', o, id)
    ensures forall a :: AttemptOf(s', a, o) <==> a == id
  {
    hide SourceKept;
  }

  lemma UnusedKept(l: seq<Movement>, l': seq<Movement>, id: Id)
    requires SourceKept(l, l', id) && Unused(l, FromOrder(id))
    ensures Unused(l', FromOrder(id))
  {
  }

  lemma NewVnpayOrder(s: State, b: Basket, o: Id, id: Id)
    requires PaymentKnown(s, o) && s.orders[o] == NewOrder(b, PendingPayment, false)
    requires s.payments[o] == Payment(Vnpay, PayPending, s.orders[o].total)
    requires forall a :: AttemptOf(s, a, o) <==> a == id
    requires id in s.attempts && exists now, later ::
               s.attempts[id] == NewAttempt(o, b.key, s.orders[o].total, now, later)
    requires ItemsOk(b.branch, ItemsOf(b.lines), s.books.stock) && Held(s.books.ledger, id, b.branch, ItemsOf(b.lines))
    requires Unused(s.books.ledger, FromOrder(o))
    ensures OrderInv(s, o)
  {
    hide ItemsOk, Held, Settled, Unused;
    assert AttemptOf(s, id, o);
    assert ActiveHold(s, id, o);
    assert OrderRows(s, o);
  }

  // ---- Retry ----

  lemma AddedAttempt(s: State, s': State, o: Id, id: Id)
    requires Tables(s) && PaymentKnown(s, o) && id !in s.orders && id !in s.attempts
    requires o in s'.orders && s'.orders == s.orders[o := s'.orders[o]]
    requires o in s'.payments && s'.payments == s.payments[o := s'.payments[o]]
    requires id in s'.attempts && s'.attempts == s.attempts[id := s'.attempts[id]] && s'.attempts[id].order == o
    requires s'.books.stock.Keys == s.books.stock.Keys
    requires forall x :: x != id ==> SourceKept(s.books.ledger, s'.books.ledger, x)
    ensures Tables(s') && OnlyOrder(s, s', o, id)
    ensures forall a :: AttemptOf(s', a, o) <==> a == id || AttemptOf(s, a, o)
  {
    hide SourceKept;
  }

  lemma RetryOrder(s: State, s': State, o: Id, id: Id, key: Id, now: int, later: int)
    requires OrderInv(s, o) && !HasPending(s, o) && PaymentKnown(s', o) && id !in s.attempts
    requires s'.orders[o] == s.orders[o].(status := PendingPayment, stockRestored := false)
    requires s'.payments[o] == s.payments[o].(status := PayPending)
    requires s'.attempts == s.attempts[id := NewAttempt(o, key, s.payments[o].amount, now, later)]
    requires forall a :: AttemptOf(s', a, o) <==> a == id || AttemptOf(s, a, o)
    requires s'.books.stock.Keys == s.books.stock.Keys
    ensures OrderRows(s', o)
  {
    hide Held, Settled, Unused, OrderAccount, DistinctVariants, Positive;
    assert AttemptOf(s', id, o);
    assert ActiveHold(s', id, o);
    forall a | AttemptOf(s, a, o) ensures s'.attempts[a] == s.attempts[a] && s.attempts[a].status != TxPending {
      assert !PendingAttempt(s, a, o);
    }
    assert Unique(s', o);
  }

  lemma RetryAccount(s: State, s': State, o: Id, id: Id)
    requires OrderInv(s, o) && PaymentKnown(s', o) && ActiveHold(s', id, o) && id != o
    requires s'.orders[o] == s.orders[o].(status := PendingPayment, stockRestored := false)
    requires s'.payments[o].paymentMethod == s.payments[o].paymentMethod
    requires forall a :: AttemptOf(s', a, o) <==> a == id || AttemptOf(s, a, o)
    requires forall a :: AttemptOf(s, a, o) && a != id ==> a in s'.attempts && s'.attempts[a] == s.attempts[a]
    requires Held(s'.books.ledger, id, s.orders[o].branch, s.orders[o].items)
    requires forall x :: x != id ==> SourceKept(s.books.ledger, s'.books.ledger, x)
    ensures OrderAccount(s', o)
  {
    hide OrderRows, Held, Settled, Marked, Unused, SourceKept;
    HeldKept(s.books.ledger, s'.books.ledger, o);
    UnusedStays(s.books.ledger, s'.books.ledger, o);
    forall a | AttemptOf(s', a, o) ensures AttemptAccount(s'.books.ledger, a, s'.attempts[a], s'.orders[o]) {
      if a != id {
        HeldKept(s.books.ledger, s'.books.ledger, a);
        assert AttemptAccount(s.books.ledger, a, s.attempts[a], s.orders[o]);
      }
    }
  }

  lemma UnusedStays(l: seq<Movement>, l': seq<Movement>, id: Id)
    requires SourceKept(l, l', id)
    ensures Unused(l, FromOrder(id)) ==> Unused(l', FromOrder(id))
  {
  }

  lemma RetryBooks(start: map<Key, int>, s: State, o: Id, id: Id)
    requires Inv(start, s) && o in s.orders && FreshId(s, id)
    requires Deduct(s.books, s.orders[o].branch, ByVariant(s.orders[o].items), FromOrder(id)).Some?
    ensures var b' := Deduct(s.books, s.orders[o].branch, ByVariant(s.orders[o].items), FromOrder(id)).value;
            && Sound(start, b') && IndexHolds(b'.ledger) && b'.stock.Keys == s.books.stock.Keys
            && Held(b'.ledger, id, s.orders[o].branch, s.orders[o].items)
            && (forall x :: x != id ==> SourceKept(s.books.ledger, b'.ledger, x))
  {
    hide Inv, Sound, IndexHolds, Held, Unused, SourceKept, OrderAccount, Unique, OrderOk, AttemptOk, ItemsOk, Deduct,
      ByVariant, Positive, DistinctVariants;
    Parts(start, s, o);
    BooksParts(start, s);
    FreshIsUnused(s, id);
    ItemsParts(s.orders[o].branch, s.orders[o].items, s.books.stock);
    Taken(start, s.books, s.orders[o].branch, s.orders[o].items, id);
  }

  lemma BooksParts(start: map<Key, int>, s: State)
    requires Inv(start, s)
    ensures Sound(start, s.books) && IndexHolds(s.books.ledger)
  {
  }

  lemma RetryCommitKeeps(start: map<Key, int>, s: State, o: Id, seen: OrderStatus, id: Id, key: Id, now: int,
                         later: int)
    requires Inv(start, s)
    ensures Inv(start, RetryCommit(s, o, seen, id, key, now, later).next)
  {
    hide Inv, Sound, IndexHolds, OrderAccount, OrderRows, Held, SourceKept, OnlyOrder, Deduct, ByVariant;
    var s' := RetryCommit(s, o, seen, id, key, now, later).next;
    if s' != s {
      Parts(start, s, o);
      RetryBooks(start, s, o, id);
      AddedAttempt(s, s', o, id);
      RetryOrder(s, s', o, id, key, now, later);
      assert ActiveHold(s', id, o);
      RetryAccount(s, s', o, id);
      OnlyOrderKeeps(start, s, s', o, id);
    }
  }

  lemma ItemsParts(branch: Id, items: seq<Item>, stock: map<Key, int>)
    requires ItemsOk(branch, items, stock)
    ensures |items| > 0 && Positive(items) && DistinctVariants(items)
  {
  }

  // ---- Releasing a hold ----

  /** A source that holds an order's lines settles when they are put back. */
  lemma Returned(start: map<Key, int>, b: Books, branch: Id, items: seq<Item>, id: Id)
    requires Sound(start, b) && IndexHolds(b.ledger) && Held(b.ledger, id, branch, items)
    requires Positive(items) && DistinctVariants(items)
    requires Restore(b, branch, items, FromOrder(id)).Some?
    ensures var b' := Restore(b, branch, items, FromOrder(id)).value;
            && Sound(start, b') && IndexHolds(b'.ledger) && b'.stock.Keys == b.stock.Keys
            && Settled(b'.ledger, id)
            && (forall x :: x != id ==> SourceKept(b.ledger, b'.ledger, x))
  {
    RestoreAll(start, b, branch, items, FromOrder(id));
    var b' := Restore(b, branch, items, FromOrder(id)).value;
    OthersKept(b, b', branch, items, id, 1, Restored);
    ReturningSettles(b, b', branch, items, id);
  }

  /** What ReleaseHold leaves behind, whether or not there was a hold to claim. */
  lemma Released(start: map<Key, int>, s: State, id: Id, o: Id)
    requires Inv(start, s) && AttemptOf(s, id, o) && o in s.orders && ReleaseHold(s, id).Some?
    requires Active(s.attempts[id]) || s.attempts[id].released
    ensures var s1 := ReleaseHold(s, id).value;
            && Sound(start, s1.books) && IndexHolds(s1.books.ledger) && s1.books.stock.Keys == s.books.stock.Keys
            && s1 == s.(books := s1.books, attempts := s.attempts[id := s.attempts[id].(released := true)])
            && Settled(s1.books.ledger, id)
            && (forall x :: x != id ==> SourceKept(s.books.ledger, s1.books.ledger, x))
  {
    hide Sound, IndexHolds, SourceKept, Held, Settled, Restore, Positive, DistinctVariants, Unique, OrderOk,
      AttemptOk, CodAccount;
    assert OrderInv(s, o);
    assert AttemptAccount(s.books.ledger, id, s.attempts[id], s.orders[o]);
    ItemsParts(s.orders[o].branch, s.orders[o].items, s.books.stock);
    if Active(s.attempts[id]) {
      Returned(start, s.books, s.orders[o].branch, s.orders[o].items, id);
    } else {
      assert s.attempts[id] == s.attempts[id].(released := true);
      assert s.attempts == s.attempts[id := s.attempts[id]];
      SourceUnchanged(s.books.ledger);
    }
  }

  lemma SourceUnchanged(l: seq<Movement>)
    ensures forall x :: SourceKept(l, l, x)
  {
  }

  /** The rows of s' are those of s but for order o, its payment and its attempt id. */
  ghost predicate ChangedAttempt(s: State, s': State, o: Id, id: Id)
  {
    && AttemptOf(s, id, o) && PaymentKnown(s, o)
    && s'.orders.Keys == s.orders.Keys && s'.payments.Keys == s.payments.Keys && s'.attempts.Keys == s.attempts.Keys
    && (forall x :: x in s.orders && x != o ==> s'.orders[x] == s.orders[x])
    && (forall x :: x in s.payments && x != o ==> s'.payments[x] == s.payments[x])
    && (forall a :: a in s.attempts && a != id ==> s'.attempts[a] == s.attempts[a])
    && s'.attempts[id].order == o
    && s'.books.stock.Keys == s.books.stock.Keys
    && (forall x :: x != id ==> SourceKept(s.books.ledger, s'.books.ledger, x))
  }

  lemma ChangedAttemptOnly(s: State, s': State, o: Id, id: Id)
    requires ChangedAttempt(s, s', o, id) && Tables(s)
    ensures OnlyOrder(s, s', o, id) && Tables(s')
    ensures forall a :: AttemptOf(s', a, o) <==> AttemptOf(s, a, o)
  {
    hide SourceKept;
  }

  /** Accounts of an order one of whose attempts has just been released. */
  lemma ReleasedAccount(s: State, s': State, o: Id, id: Id)
    requires OrderInv(s, o) && ChangedAttempt(s, s', o, id) && id != o
    requires s'.orders[o].branch == s.orders[o].branch && s'.orders[o].items == s.orders[o].items
    requires s'.orders[o].stockRestored
    requires s'.payments[o].paymentMethod == s.payments[o].paymentMethod
    requires s'.attempts[id].released && Settled(s'.books.ledger, id)
    ensures OrderAccount(s', o)
  {
    hide OrderRows, Held, Settled, Marked, Unused, SourceKept;
    HeldKept(s.books.ledger, s'.books.ledger, o);
    UnusedStays(s.books.ledger, s'.books.ledger, o);
    assert AttemptOf(s', id, o);
    forall a | AttemptOf(s', a, o) ensures AttemptAccount(s'.books.ledger, a, s'.attempts[a], s'.orders[o]) {
      if a != id {
        assert AttemptOf(s, a, o);
        HeldKept(s.books.ledger, s'.books.ledger, a);
        assert AttemptAccount(s.books.ledger, a, s.attempts[a], s.orders[o]);
      }
    }
  }

  /** Closing the one pending attempt leaves the attempts of an order unique. */
  lemma ClosedUnique(s: State, s': State, o: Id, id: Id)
    requires Unique(s, o) && ChangedAttempt(s, s', o, id) && s.attempts[id].status == TxPending
    requires s'.attempts[id].status != TxPaid
    ensures Unique(s', o)
    ensures forall a :: AttemptOf(s', a, o) && a != id ==>
              AttemptOf(s, a, o) && s'.attempts[a] == s.attempts[a] && s.attempts[a].status != TxPending
    ensures AttemptOf(s', id, o)
  {
    hide SourceKept;
  }

  lemma ClosedRows(s: State, s': State, o: Id, id: Id, status: AttemptStatus, paid: PaymentStatus)
    requires OrderInv(s, o) && ChangedAttempt(s, s', o, id) && s.attempts[id].status == TxPending
    requires status in {TxFailed, TxCancelled, TxExpired} && paid in {PayFailed, PayCancelled, PayExpired}
    requires s'.orders[o] == s.orders[o].(status := PaymentFailed, stockRestored := true)
    requires s'.payments[o] == s.payments[o].(status := paid)
    requires s'.attempts[id] == s.attempts[id].(status := status, released := true)
    ensures OrderRows(s', o)
  {
    hide OrderAccount, Positive, DistinctVariants, SourceKept, Unique;
    ClosedUnique(s, s', o, id);
    assert AttemptOk(s.attempts[id], s.orders[o], s.payments[o]);
  }

  lemma Parts(start: map<Key, int>, s: State, o: Id)
    requires Inv(start, s) && o in s.orders
    ensures OrderInv(s, o) && Tables(s)
  {
  }

  lemma PendingIsHeldOrReleased(s: State, id: Id, o: Id)
    requires OrderInv(s, o) && AttemptOf(s, id, o) && s.attempts[id].status == TxPending
    ensures Active(s.attempts[id]) || s.attempts[id].released
  {
    assert AttemptOk(s.attempts[id], s.orders[o], s.payments[o]);
  }

  lemma CloseChanges(s: State, s1: State, o: Id, id: Id, status: AttemptStatus, paid: PaymentStatus)
    requires AttemptOf(s, id, o) && PaymentKnown(s, o)
    requires s1 == s.(books := s1.books, attempts := s.attempts[id := s.attempts[id].(released := true)])
    requires s1.books.stock.Keys == s.books.stock.Keys
    requires forall x :: x != id ==> SourceKept(s.books.ledger, s1.books.ledger, x)
    ensures var s' := CloseAttempt(s1, id, status, paid);
            && ChangedAttempt(s, s', o, id) && s'.books == s1.books
            && s'.orders[o] == s.orders[o].(status := PaymentFailed, stockRestored := true)
            && s'.payments[o] == s.payments[o].(status := paid)
            && s'.attempts[id] == s.attempts[id].(status := status, released := true)
  {
    hide SourceKept;
  }

  /** An attempt was released and closed together with its order. */
  lemma ClosedKeeps(start: map<Key, int>, s: State, s': State, o: Id, id: Id, status: AttemptStatus,
                    paid: PaymentStatus)
    requires Inv(start, s) && ChangedAttempt(s, s', o, id) && s.attempts[id].status == TxPending
    requires Sound(start, s'.books) && IndexHolds(s'.books.ledger) && Settled(s'.books.ledger, id)
    requires status in {TxFailed, TxCancelled, TxExpired} && paid in {PayFailed, PayCancelled, PayExpired}
    requires s'.orders[o] == s.orders[o].(status := PaymentFailed, stockRestored := true)
    requires s'.payments[o] == s.payments[o].(status := paid)
    requires s'.attempts[id] == s.attempts[id].(status := status, released := true)
    ensures Inv(start, s')
  {
    hide Inv, Sound, IndexHolds, SourceKept, Settled, OrderRows, OrderAccount, OnlyOrder;
    Parts(start, s, o);
    ChangedAttemptOnly(s, s', o, id);
    ClosedRows(s, s', o, id, status, paid);
    ReleasedAccount(s, s', o, id);
    OnlyOrderKeeps(start, s, s', o, id);
  }

  /** Failure, cancellation by the payer and expiry of a pending attempt. */
  lemma CloseKeeps(start: map<Key, int>, s: State, id: Id, o: Id, status: AttemptStatus, paid: PaymentStatus)
    requires Inv(start, s) && AttemptOf(s, id, o) && PaymentKnown(s, o) && s.attempts[id].status == TxPending
    requires status in {TxFailed, TxCancelled, TxExpired} && paid in {PayFailed, PayCancelled, PayExpired}
    requires ReleaseHold(s, id).Some?
    ensures Inv(start, CloseAttempt(ReleaseHold(s, id).value, id, status, paid))
  {
    hide Inv, OrderInv, Sound, IndexHolds, SourceKept, Settled, ReleaseHold, CloseAttempt, ChangedAttempt;
    var s1 := ReleaseHold(s, id).value;
    Parts(start, s, o);
    PendingIsHeldOrReleased(s, id, o);
    Released(start, s, id, o);
    CloseChanges(s, s1, o, id, status, paid);
    ClosedKeeps(start, s, CloseAttempt(s1, id, status, paid), o, id, status, paid);
  }

  // ---- Cancelling ----

  ghost predicate Cancellable(s: State, o: Id)
  {
    && PaymentKnown(s, o)
    && s.orders[o].status in ADMIN_CANCELLABLE
    && !(s.payments[o].paymentMethod == Vnpay && s.payments[o].status == PayPaid)
  }

  lemma CancelledWithHoldRows(s: State, s': State, o: Id, id: Id)
    requires OrderInv(s, o) && Cancellable(s, o) && ActiveHold(s, id, o) && ChangedAttempt(s, s', o, id)
    requires s'.orders[o] == s.orders[o].(status := Cancelled, stockRestored := true)
    requires s'.payments[o].(status := s.payments[o].status) == s.payments[o]
    requires s'.attempts[id] == s.attempts[id].(released := true)
    ensures OrderRows(s', o)
  {
    hide OrderAccount, Positive, DistinctVariants, SourceKept, Unique;
    ActiveIsPending(s, id, o);
    ClosedUnique(s, s', o, id);
    assert AttemptOk(s.attempts[id], s.orders[o], s.payments[o]);
  }

  lemma CancelChanges(s: State, s1: State, o: Id, id: Id)
    requires AttemptOf(s, id, o) && PaymentKnown(s, o)
    requires s1 == s.(books := s1.books, attempts := s.attempts[id := s.attempts[id].(released := true)])
    requires s1.books.stock.Keys == s.books.stock.Keys
    requires forall x :: x != id ==> SourceKept(s.books.ledger, s1.books.ledger, x)
    ensures var s' := FinishCancel(s1.(orders := s1.orders[o := s1.orders[o].(stockRestored := true)]), o);
            && ChangedAttempt(s, s', o, id) && s'.books == s1.books
            && s'.orders[o] == s.orders[o].(status := Cancelled, stockRestored := true)
            && s'.payments[o].(status := s.payments[o].status) == s.payments[o]
            && s'.attempts[id] == s.attempts[id].(released := true)
  {
    hide SourceKept;
  }

  lemma CancelHoldKeeps(start: map<Key, int>, s: State, o: Id, id: Id)
    requires Inv(start, s) && Cancellable(s, o) && ActiveHold(s, id, o) && ReleaseHold(s, id).Some?
    ensures var s1 := ReleaseHold(s, id).value;
            PaymentKnown(s1, o) &&
            Inv(start, FinishCancel(s1.(orders := s1.orders[o := s1.orders[o].(stockRestored := true)]), o))
  {
    hide Sound, IndexHolds, SourceKept, Settled, NoStrays, OrderRows, OrderAccount, ReleaseHold, FinishCancel,
      ChangedAttempt, OnlyOrder;
    assert OrderInv(s, o);
    Released(start, s, id, o);
    var s1 := ReleaseHold(s, id).value;
    CancelChanges(s, s1, o, id);
    var s' := FinishCancel(s1.(orders := s1.orders[o := s1.orders[o].(stockRestored := true)]), o);
    ChangedAttemptOnly(s, s', o, id);
    CancelledWithHoldRows(s, s', o, id);
    ReleasedAccount(s, s', o, id);
    OnlyOrderKeeps(start, s, s', o, id);
  }

  /** An order without a hold: its attempts stay as they are and none of them is pending. */
  lemma CancelledRows(s: State, s': State, o: Id, restored: bool)
    requires OrderInv(s, o) && Cancellable(s, o) && !HasActive(s, o)
    requires PaymentKnown(s', o) && s'.attempts == s.attempts && s'.books.stock.Keys == s.books.stock.Keys
    requires restored == (s.orders[o].stockRestored || s.payments[o].paymentMethod == Cod)
    requires s'.orders[o] == s.orders[o].(status := Cancelled, stockRestored := restored)
    requires s'.payments[o].(status := s.payments[o].status) == s.payments[o]
    ensures OrderRows(s', o)
  {
    hide OrderAccount, Positive, DistinctVariants;
    SameAttempts(s, s', o);
    forall a | AttemptOf(s', a, o) ensures s.attempts[a].status != TxPending {
      assert AttemptOk(s.attempts[a], s.orders[o], s.payments[o]);
      assert !ActiveHold(s, a, o);
    }
  }

  lemma CodRestoredAccount(s: State, s': State, o: Id)
    requires OrderInv(s, o) && PaymentKnown(s', o) && s.payments[o].paymentMethod == Cod && !HasAttempt(s, o)
    requires s'.attempts == s.attempts && s'.payments[o].paymentMethod == Cod
    requires s'.orders[o] == s.orders[o].(status := Cancelled, stockRestored := true)
    requires Settled(s'.books.ledger, o) && Marked(s'.books.ledger, o, s.orders[o].branch, s.orders[o].items)
    ensures OrderAccount(s', o)
  {
    hide OrderRows, Held, Settled, Unused, Marked;
    SameAttempts(s, s', o);
    assert forall a :: !AttemptOf(s, a, o);
  }

  lemma CodCancelChanges(s: State, books: Books, o: Id)
    requires PaymentKnown(s, o) && books.stock.Keys == s.books.stock.Keys
    ensures var s' := FinishCancel(s.(books := books, orders := s.orders[o := s.orders[o].(stockRestored := true)]), o);
            && PaymentKnown(s', o) && s'.attempts == s.attempts && s'.books == books
            && s'.orders[o] == s.orders[o].(status := Cancelled, stockRestored := true)
            && s'.orders == s.orders[o := s'.orders[o]] && s'.payments == s.payments[o := s'.payments[o]]
            && s'.payments[o].(status := s.payments[o].status) == s.payments[o]
  {
  }

  lemma CancelCodKeeps(start: map<Key, int>, s: State, o: Id)
    requires Inv(start, s) && Cancellable(s, o) && !HasActive(s, o)
    requires s.payments[o].paymentMethod == Cod && !s.orders[o].stockRestored
    requires Restore(s.books, s.orders[o].branch, s.orders[o].items, FromOrder(o)).Some?
    ensures var books := Restore(s.books, s.orders[o].branch, s.orders[o].items, FromOrder(o)).value;
            var marked := s.orders[o].(stockRestored := true);
            Inv(start, FinishCancel(s.(books := books, orders := s.orders[o := marked]), o))
  {
    hide Sound, IndexHolds, SourceKept, Held, Settled, Marked, Unused, Positive, DistinctVariants, Unique, AttemptOk,
      Restore, FinishCancel, OnlyOrder;
    var order := s.orders[o];
    assert OrderInv(s, o);
    ItemsParts(order.branch, order.items, s.books.stock);
    Returned(start, s.books, order.branch, order.items, o);
    ReturningMarks(s.books, order.branch, order.items, o);
    var books := Restore(s.books, order.branch, order.items, FromOrder(o)).value;
    var s' := FinishCancel(s.(books := books, orders := s.orders[o := order.(stockRestored := true)]), o);
    CodCancelChanges(s, books, o);
    CancelledRows(s, s', o, true);
    CodRestoredAccount(s, s', o);
    MovedOwnSource(s, s', o);
    OnlyOrderKeeps(start, s, s', o, o);
  }

  lemma MovedOwnSource(s: State, s': State, o: Id)
    requires Tables(s) && PaymentKnown(s, o) && s'.attempts == s.attempts
    requires o in s'.orders && s'.orders == s.orders[o := s'.orders[o]]
    requires o in s'.payments && s'.payments == s.payments[o := s'.payments[o]]
    requires s'.books.stock.Keys == s.books.stock.Keys
    requires forall x :: x != o ==> SourceKept(s.books.ledger, s'.books.ledger, x)
    ensures OnlyOrder(s, s', o, o) && Tables(s')
  {
    hide SourceKept;
  }

  lemma CancelPlainAccount(s: State, s': State, o: Id)
    requires OrderInv(s, o) && Cancellable(s, o) && !HasActive(s, o) && PaymentKnown(s', o)
    requires s.payments[o].paymentMethod == Cod ==> s.orders[o].stockRestored
    requires s'.books == s.books && s'.attempts == s.attempts
    requires s'.payments[o].paymentMethod == s.payments[o].paymentMethod
    requires s'.orders[o] == s.orders[o].(status := Cancelled)
    ensures OrderAccount(s', o)
  {
    hide Held, Settled, Marked, Unused, ItemsOk, Unique, AttemptOk;
    SameAttempts(s, s', o);
  }

  lemma CancelPlainKeeps(start: map<Key, int>, s: State, o: Id)
    requires Inv(start, s) && Cancellable(s, o) && !HasActive(s, o)
    requires s.payments[o].paymentMethod == Cod ==> s.orders[o].stockRestored
    ensures Inv(start, FinishCancel(s, o))
  {
    hide Sound, IndexHolds, OrderRows, OrderAccount;
    var s' := FinishCancel(s, o);
    assert OrderInv(s, o);
    CancelledRows(s, s', o, s.orders[o].stockRestored);
    CancelPlainAccount(s, s', o);
    OnlyRowsKeeps(start, s, s', o);
  }

  lemma CancelKeeps(start: map<Key, int>, s: State, o: Id, allowed: set<OrderStatus>)
    requires Inv(start, s) && PaymentKnown(s, o) && allowed <= ADMIN_CANCELLABLE
    ensures Inv(start, Cancel(s, o, allowed).next)
  {
    hide Inv, Restore, ReleaseHold, FinishCancel;
    if Cancel(s, o, allowed).next != s {
      assert Cancellable(s, o);
      if HasActive(s, o) {
        CancelHoldKeeps(start, s, o, FindActive(s, o));
      } else if s.payments[o].paymentMethod == Cod && !s.orders[o].stockRestored {
        CodIsDeducted(start, s, o);
        CancelCodKeeps(start, s, o);
      } else {
        CancelPlainKeeps(start, s, o);
      }
    }
  }

  lemma CodIsDeducted(start: map<Key, int>, s: State, o: Id)
    requires Inv(start, s) && PaymentKnown(s, o) && s.payments[o].paymentMethod == Cod
    ensures s.orders[o].stockDeducted
  {
    assert OrderInv(s, o);
  }

  // ---- Adjusting ----

  lemma AdjustBooks(start: map<Key, int>, b: Books, k: Key, change: int, receipt: Id)
    requires Sound(start, b) && IndexHolds(b.ledger) && change != 0 && Unused(b.ledger, FromAdjustment(receipt))
    requires 0 <= At(b.stock, k) + change <= MAX_QUANTITY
    ensures var rows := if k in b.stock then b.stock else b.stock[k := 0];
            var b' := Write(Books(rows, b.ledger), k, Adjusted, change, FromAdjustment(receipt));
            && Sound(start, b') && IndexHolds(b'.ledger) && b.stock.Keys <= b'.stock.Keys
            && (forall x :: SourceKept(b.ledger, b'.ledger, x))
  {
    var rows := if k in b.stock then b.stock else b.stock[k := 0];
    var b1 := Books(rows, b.ledger);
    assert Sound(start, b1) by {
      assert forall j :: At(rows, j) == At(b.stock, j);
      assert forall i :: 0 <= i < |b.ledger| ==> Linked(start, b.ledger, i);
    }
    WriteKeepsSound(start, b1, k, Adjusted, change, FromAdjustment(receipt));
    var b' := Write(b1, k, Adjusted, change, FromAdjustment(receipt));
    Appended(b.ledger, b'.ledger[|b.ledger|]);
  }

  lemma BooksOnlyKeeps(start: map<Key, int>, s: State, books: Books)
    requires Inv(start, s) && Sound(start, books) && IndexHolds(books.ledger)
    requires s.books.stock.Keys <= books.stock.Keys
    requires forall x :: SourceKept(s.books.ledger, books.ledger, x)
    ensures Inv(start, s.(books := books))
  {
    hide OrderInv, Sound, IndexHolds, SourceKept;
    var s' := s.(books := books);
    forall x | x in s'.orders ensures OrderInv(s', x) {
      assert OrderInv(s, x);
      BooksSlice(s, books, x);
      FrameOrder(s, s', x);
    }
    forall id | id !in s'.orders && id !in s'.attempts ensures Unused(s'.books.ledger, FromOrder(id)) {
      UnusedKept(s.books.ledger, books.ledger, id);
    }
  }

  lemma BooksSlice(s: State, books: Books, x: Id)
    requires OrderInv(s, x) && s.books.stock.Keys <= books.stock.Keys
    requires forall id :: SourceKept(s.books.ledger, books.ledger, id)
    ensures SliceKept(s, s.(books := books), x)
  {
    hide OrderRows, OrderAccount, SourceKept;
  }

  lemma AdjustKeeps(start: map<Key, int>, s: State, available: bool, k: Key, d: Adjustment, receiptId: Id)
    requires Inv(start, s)
    ensures Inv(start, Adjust(s, available, k, d, receiptId).next)
  {
    hide OrderInv, Sound, IndexHolds, SourceKept;
    var s' := Adjust(s, available, k, d, receiptId).next;
    if s' != s {
      AdjustBooks(start, s.books, k, if d.increase then d.quantity else -d.quantity, receiptId);
      BooksOnlyKeeps(start, s, s'.books);
    }
  }
}
