/** What a checkout charges, when it is accepted, and what it then stores, column by column. */
module CheckoutEffects {
  import opened Wrappers
  import opened OrderTypes
  import opened StockLedger
  import opened ProductWeight
  import opened OrderProtocol
  import opened OrderInvariant
  import opened OrderRuns

  // ---- What is charged ----

  /** An empty basket costs its shipping, and every line adds its price times its quantity, wherever it stands. */
  lemma {:induction false} TotalLaws(b: Basket, front: seq<Line>, x: Line, back: seq<Line>, status: OrderStatus,
                                     deducted: bool)
    ensures NewOrder(b.(lines := []), status, deducted).total == b.shippingFee
    ensures NewOrder(b.(lines := front + [x] + back), status, deducted).total
            == NewOrder(b.(lines := front + back), status, deducted).total + x.unitPrice * x.quantity
  {
    var longer, shorter := front + [x] + back, front + back;
    if |back| == 0 {
      assert longer[..|longer| - 1] == front && shorter == front;
    } else {
      TotalLaws(b, front, x, back[..|back| - 1], status, deducted);
      assert longer[..|longer| - 1] == front + [x] + back[..|back| - 1];
      assert shorter[..|shorter| - 1] == front + back[..|back| - 1];
    }
  }

  // ---- What the lines take from the shelves ----

  lemma {:induction false} NoLineNoQty(items: seq<Item>, v: VariantId)
    requires forall i :: 0 <= i < |items| ==> items[i].variant != Some(v)
    ensures Qty(items, v) == 0
  {
    if |items| > 0 {
      NoLineNoQty(items[..|items| - 1], v);
    }
  }

  lemma {:induction false} LineQty(items: seq<Item>, i: nat)
    requires DistinctVariants(items) && i < |items| && items[i].variant.Some?
    ensures Qty(items, items[i].variant.value) == items[i].quantity
  {
    var front := items[..|items| - 1];
    if i < |front| {
      LineQty(front, i);
    } else {
      NoLineNoQty(front, items[i].variant.value);
    }
  }

  /** Each line's shelf has lost the line's quantity, and every other row is as it was. */
  ghost predicate ShelvesTaken(s: State, s': State, b: Basket)
  {
    && s'.books.stock.Keys == s.books.stock.Keys
    && (forall i :: 0 <= i < |b.lines| ==>
          var k := Key(b.branch, b.lines[i].variant);
          k in s.books.stock && s'.books.stock[k] == s.books.stock[k] - b.lines[i].quantity)
    && (forall k :: k in s.books.stock && (k.branch != b.branch || !Bought(b, k.variant)) ==>
          s'.books.stock[k] == s.books.stock[k])
  }

  predicate Bought(b: Basket, v: VariantId)
  {
    exists i :: 0 <= i < |b.lines| && b.lines[i].variant == v
  }

  /** What the books must look like for the lines to be taken. */
  ghost predicate Enough(s: State, b: Basket)
  {
    forall i :: 0 <= i < |b.lines| ==>
      var k := Key(b.branch, b.lines[i].variant);
      k in s.books.stock && b.lines[i].quantity <= s.books.stock[k]
  }

  ghost predicate NoVariantTwice(b: Basket)
  {
    forall i, j :: 0 <= i < j < |b.lines| ==> b.lines[i].variant != b.lines[j].variant
  }

  lemma BoughtQty(b: Basket, k: Key)
    requires NoVariantTwice(b)
    ensures k.branch != b.branch || !Bought(b, k.variant) ==> QtyAt(b.branch, ItemsOf(b.lines), k) == 0
    ensures forall i :: 0 <= i < |b.lines| && k == Key(b.branch, b.lines[i].variant) ==>
              QtyAt(b.branch, ItemsOf(b.lines), k) == b.lines[i].quantity
  {
    var items := ItemsOf(b.lines);
    if k.branch == b.branch && !Bought(b, k.variant) {
      NoLineNoQty(items, k.variant);
    }
    forall i | 0 <= i < |b.lines| && k == Key(b.branch, b.lines[i].variant)
      ensures QtyAt(b.branch, items, k) == b.lines[i].quantity
    {
      assert DistinctVariants(items);
      LineQty(items, i);
    }
  }

  lemma DeductTakesShelves(s: State, s': State, b: Basket, source: Source)
    requires NoVariantTwice(b) && AllStocked(s.books, b.branch, ItemsOf(b.lines))
    requires Deduct(s.books, b.branch, ByVariant(ItemsOf(b.lines)), source) == Some(s'.books)
    ensures ShelvesTaken(s, s', b)
  {
    hide Deduct, ByVariant, QtyAt;
    var items := ItemsOf(b.lines);
    DeductMoves(s.books, b.branch, ByVariant(items), source);
    SortKeepsQtyAt(b.branch, items);
    forall k | k in s.books.stock ensures s'.books.stock[k] == s.books.stock[k] - QtyAt(b.branch, items, k) {
      assert QtyAt(b.branch, ByVariant(items), k) == QtyAt(b.branch, items, k);
    }
    forall k: Key ensures k.branch != b.branch || !Bought(b, k.variant) ==> QtyAt(b.branch, items, k) == 0 {
      BoughtQty(b, k);
    }
    forall i | 0 <= i < |b.lines|
      ensures QtyAt(b.branch, items, Key(b.branch, b.lines[i].variant)) == b.lines[i].quantity
      ensures Key(b.branch, b.lines[i].variant) in s.books.stock
    {
      BoughtQty(b, Key(b.branch, b.lines[i].variant));
      assert items[i] == Item(Some(b.lines[i].variant), b.lines[i].quantity);
    }
  }

  lemma {:induction false} StockedSorted(books: Books, branch: Id, items: seq<Item>)
    ensures AllStocked(books, branch, ByVariant(items)) <==> AllStocked(books, branch, items)
  {
    hide ByVariant;
    SortContents(items);
    var sorted := ByVariant(items);
    forall i | 0 <= i < |sorted| ensures sorted[i] in items {
      assert sorted[i] in multiset(sorted);
    }
    forall i | 0 <= i < |items| ensures items[i] in sorted {
      assert items[i] in multiset(items);
    }
  }

  lemma {:induction false} PositiveSorted(items: seq<Item>)
    requires Positive(items)
    ensures Positive(ByVariant(items))
  {
    hide ByVariant;
    SortContents(items);
    var sorted := ByVariant(items);
    forall i | 0 <= i < |sorted| ensures sorted[i].quantity > 0 {
      assert sorted[i] in multiset(sorted);
    }
  }

  lemma EnoughExactly(s: State, b: Basket, source: Source)
    requires NoVariantTwice(b) && Positive(ItemsOf(b.lines))
    requires forall k :: k in s.books.stock ==> s.books.stock[k] >= 0
    ensures Deduct(s.books, b.branch, ByVariant(ItemsOf(b.lines)), source).Some? <==> Enough(s, b)
    ensures Enough(s, b) ==> AllStocked(s.books, b.branch, ItemsOf(b.lines))
  {
    hide Deduct, ByVariant, QtyAt;
    var items := ItemsOf(b.lines);
    StockedSorted(s.books, b.branch, items);
    PositiveSorted(items);
    SortKeepsQtyAt(b.branch, items);
    DeductSucceedsExactly(s.books, b.branch, ByVariant(items), source);
    forall i | 0 <= i < |b.lines|
      ensures QtyAt(b.branch, items, Key(b.branch, b.lines[i].variant)) == b.lines[i].quantity
    {
      BoughtQty(b, Key(b.branch, b.lines[i].variant));
    }
    forall k | k in s.books.stock && !(k.branch == b.branch && Bought(b, k.variant))
      ensures QtyAt(b.branch, items, k) == 0
    {
      BoughtQty(b, k);
    }
    if Enough(s, b) {
      forall k | k in s.books.stock ensures QtyAt(b.branch, ByVariant(items), k) <= s.books.stock[k] {
        if k.branch == b.branch && Bought(b, k.variant) {
          var i :| 0 <= i < |b.lines| && b.lines[i].variant == k.variant;
          assert k == Key(b.branch, b.lines[i].variant);
        }
      }
    }
    if AllStocked(s.books, b.branch, items) &&
       forall k :: k in s.books.stock ==> QtyAt(b.branch, ByVariant(items), k) <= s.books.stock[k]
    {
      forall i | 0 <= i < |b.lines|
        ensures Key(b.branch, b.lines[i].variant) in s.books.stock &&
                b.lines[i].quantity <= s.books.stock[Key(b.branch, b.lines[i].variant)]
      {
        assert items[i] == Item(Some(b.lines[i].variant), b.lines[i].quantity);
      }
    }
  }

  // ---- What is accepted ----

  /** At least one line, every weight and quantity a positive safe integer, and so their total. */
  ghost predicate Weighable(b: Basket)
  {
    && |b.lines| > 0
    && (forall i :: 0 <= i < |b.lines| ==> 0 < b.lines[i].weightGram <= MAX_SAFE && 0 < b.lines[i].quantity <= MAX_SAFE)
    && WeightSum(b.lines) <= MAX_SAFE
  }

  lemma CheckedExactly(b: Basket)
    ensures CheckoutError(b).None? <==> Weighable(b) && b.ready
    ensures Weighable(b) ==> Positive(ItemsOf(b.lines))
  {
    TotalWeightExact(b.lines);
  }

  ghost predicate NewKey(s: State, key: Id)
  {
    forall o :: o in s.orders ==> s.orders[o].key != key
  }

  ghost predicate UnusedId(s: State, id: Id)
  {
    && id !in s.orders && id !in s.payments && id !in s.attempts
    && forall m :: m in s.books.ledger ==> m.source != FromOrder(id)
  }

  /** A COD order is placed exactly when its key and id are new, the basket is in order and every shelf has enough. */
  lemma CodPlacedExactly(start: map<Key, int>, s: State, b: Basket, o: Id)
    requires Reachable(start, s)
    ensures PlaceCod(s, b, o).next != s <==>
              NewKey(s, b.key) && UnusedId(s, o) && Weighable(b) && b.ready && NoVariantTwice(b) && Enough(s, b)
    ensures PlaceCod(s, b, o).next != s ==> PlaceCod(s, b, o).reply == OK
  {
    hide Reachable, Deduct, ByVariant, TotalWeight, Enough;
    ShelvesInRange(start, s);
    CheckedExactly(b);
    KeyExactly(s, b);
    if NoVariantTwice(b) && Weighable(b) {
      EnoughExactly(s, b, FromOrder(o));
    }
    DistinctExactly(b);
    if PlaceCod(s, b, o).next != s {
      assert o in PlaceCod(s, b, o).next.orders;
    }
  }

  lemma ShelvesInRange(start: map<Key, int>, s: State)
    requires Reachable(start, s)
    ensures forall k :: k in s.books.stock ==> s.books.stock[k] >= 0
  {
    hide Reachable, IndexHolds, Tables, NoStrays, OrderInv, Linked;
    ReachableInv(start, s);
  }

  lemma KeyExactly(s: State, b: Basket)
    ensures NewKey(s, b.key) <==> !OrderKeyTaken(s, b.key)
    ensures NewKey(s, b.key) ==> !OwnOrderExists(s, b.user, b.key) && !OwnAttemptExists(s, b.user, b.key)
  {
  }

  lemma DistinctExactly(b: Basket)
    ensures NoVariantTwice(b) <==> DistinctVariants(ItemsOf(b.lines))
  {
    var items := ItemsOf(b.lines);
    assert forall i :: 0 <= i < |items| ==> items[i] == Item(Some(b.lines[i].variant), b.lines[i].quantity);
  }

  /** The same of a VNPAY order, whose attempt needs a new id and a new key too. */
  lemma VnpayPlacedExactly(start: map<Key, int>, s: State, b: Basket, o: Id, id: Id, now: int, later: int)
    requires Reachable(start, s)
    ensures PlaceVnpay(s, b, o, id, now, later).next != s <==>
              NewKey(s, b.key) && UnusedId(s, o) && Weighable(b) && b.ready && NoVariantTwice(b) && Enough(s, b) &&
              o != id && UnusedId(s, id) && forall a :: a in s.attempts ==> s.attempts[a].key != b.key
    ensures PlaceVnpay(s, b, o, id, now, later).next != s ==> PlaceVnpay(s, b, o, id, now, later).reply == OK
  {
    hide Reachable, Deduct, ByVariant, TotalWeight, Enough;
    ShelvesInRange(start, s);
    CheckedExactly(b);
    KeyExactly(s, b);
    if NoVariantTwice(b) && Weighable(b) {
      EnoughExactly(s, b, FromOrder(id));
    }
    DistinctExactly(b);
    if PlaceVnpay(s, b, o, id, now, later).next != s {
      assert o in PlaceVnpay(s, b, o, id, now, later).next.orders;
    }
  }

  // ---- What is stored ----

  /** The customer's lines, at the branch and under the key of the request, and nothing done yet. */
  ghost predicate StoredOrder(order: Order, b: Basket)
  {
    && order.user == b.user && order.branch == b.branch && order.key == b.key
    && |order.items| == |b.lines|
    && (forall i :: 0 <= i < |b.lines| ==>
          order.items[i].variant == Some(b.lines[i].variant) && order.items[i].quantity == b.lines[i].quantity)
    && !order.stockRestored && !order.received
  }

  /** No other order, payment or attempt is touched, and one history entry is written. */
  ghost predicate OnlyNew(s: State, s': State, o: Id, id: Id)
  {
    && (forall x :: x in s.orders ==> x in s'.orders && s'.orders[x] == s.orders[x])
    && (forall x :: x in s.payments ==> x in s'.payments && s'.payments[x] == s.payments[x])
    && (forall x :: x in s.attempts ==> x in s'.attempts && s'.attempts[x] == s.attempts[x])
    && s'.orders.Keys == s.orders.Keys + {o} && s'.payments.Keys == s.payments.Keys + {o}
    && s'.attempts.Keys <= s.attempts.Keys + {id}
  }

  /** A COD order is stored PENDING with an unpaid payment for its total, and its lines are taken at once. */
  lemma CodStores(start: map<Key, int>, s: State, b: Basket, o: Id)
    requires Reachable(start, s) && PlaceCod(s, b, o).next != s
    ensures var s' := PlaceCod(s, b, o).next;
            && OnlyNew(s, s', o, o) && s'.attempts == s.attempts
            && StoredOrder(s'.orders[o], b)
            && s'.orders[o].status == Pending && s'.orders[o].stockDeducted
            && s'.orders[o].total == Subtotal(b.lines) + b.shippingFee
            && s'.payments[o].paymentMethod == Cod && s'.payments[o].status == Unpaid
            && s'.payments[o].amount == s'.orders[o].total
            && s'.history == s.history + [StatusChanged(o, None, Pending)]
            && ShelvesTaken(s, s', b)
  {
    hide Reachable, Deduct, ByVariant, TotalWeight, ShelvesTaken, Enough;
    CodPlacedExactly(start, s, b, o);
    CheckedExactly(b);
    ShelvesInRange(start, s);
    EnoughExactly(s, b, FromOrder(o));
    DeductTakesShelves(s, PlaceCod(s, b, o).next, b, FromOrder(o));
  }

  /** A VNPAY order waits for its payment; its attempt is for the same amount, holds the lines and ends in due time. */
  lemma VnpayStores(start: map<Key, int>, s: State, b: Basket, o: Id, id: Id, now: int, later: int)
    requires Reachable(start, s) && PlaceVnpay(s, b, o, id, now, later).next != s
    ensures var s' := PlaceVnpay(s, b, o, id, now, later).next;
            && OnlyNew(s, s', o, id) && id in s'.attempts
            && StoredOrder(s'.orders[o], b)
            && s'.orders[o].status == PendingPayment && !s'.orders[o].stockDeducted
            && s'.orders[o].total == Subtotal(b.lines) + b.shippingFee
            && s'.payments[o].paymentMethod == Vnpay && s'.payments[o].status == PayPending
            && s'.payments[o].amount == s'.orders[o].total
            && s'.attempts[id].order == o && s'.attempts[id].key == b.key && s'.attempts[id].status == TxPending
            && s'.attempts[id].amount == s'.orders[o].total
            && s'.attempts[id].createdAt == now && s'.attempts[id].expiresAt == now + later
            && s'.attempts[id].reserved && !s'.attempts[id].released && !s'.attempts[id].consumed
            && s'.history == s.history + [StatusChanged(o, None, PendingPayment)]
            && ShelvesTaken(s, s', b)
  {
    hide Reachable, Deduct, ByVariant, TotalWeight, ShelvesTaken, Enough;
    VnpayPlacedExactly(start, s, b, o, id, now, later);
    CheckedExactly(b);
    ShelvesInRange(start, s);
    EnoughExactly(s, b, FromOrder(id));
    DeductTakesShelves(s, PlaceVnpay(s, b, o, id, now, later).next, b, FromOrder(id));
  }

  /** The same request again is answered without a second order, by the same customer only. */
  lemma RepeatedCheckout(s: State, b: Basket, o: Id, id: Id, now: int, later: int, x: Id)
    requires x in s.orders && s.orders[x].key == b.key
    ensures PlaceCod(s, b, o).next == s && PlaceVnpay(s, b, o, id, now, later).next == s
    ensures s.orders[x].user == b.user ==> PlaceCod(s, b, o).reply == OK
    ensures s.orders[x].user == b.user && HasAttempt(s, x) ==> PlaceVnpay(s, b, o, id, now, later).reply == OK
  {
    hide Deduct, ByVariant, TotalWeight, CheckoutError, FreshId;
    assert OrderKeyTaken(s, b.key);
  }
}
