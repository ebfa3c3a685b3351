/** The stock table as an equation over the orders. */
module StockEquation {
  import opened OrderTypes
  import opened StockLedger
  import opened OrderProtocol
  import opened OrderInvariant
  import opened OrderRuns
  import opened OrderGuarantees
  import opened OrderAtomic

  // ---- Sums over sets of ids ----

  ghost function SumNet(ledger: seq<Movement>, ids: set<Id>, k: Key): int
  {
    if ids == {} then 0
    else
      var x :| x in ids;
      Net(ledger, FromOrder(x), k) + SumNet(ledger, ids - {x}, k)
  }

  ghost function Sum(amounts: map<Id, int>, ids: set<Id>): int
    requires ids <= amounts.Keys
  {
    if ids == {} then 0
    else
      var x :| x in ids;
      amounts[x] + Sum(amounts, ids - {x})
  }

  lemma {:induction false} SumNetPick(ledger: seq<Movement>, ids: set<Id>, k: Key, x: Id)
    requires x in ids
    ensures SumNet(ledger, ids, k) == Net(ledger, FromOrder(x), k) + SumNet(ledger, ids - {x}, k)
  {
    var y :| y in ids && SumNet(ledger, ids, k) == Net(ledger, FromOrder(y), k) + SumNet(ledger, ids - {y}, k);
    if x != y {
      SumNetPick(ledger, ids - {y}, k, x);
      SumNetPick(ledger, ids - {x}, k, y);
      assert ids - {y} - {x} == ids - {x} - {y};
    }
  }

  lemma {:induction false} SumPick(amounts: map<Id, int>, ids: set<Id>, x: Id)
    requires ids <= amounts.Keys && x in ids
    ensures Sum(amounts, ids) == amounts[x] + Sum(amounts, ids - {x})
  {
    var y :| y in ids && Sum(amounts, ids) == amounts[y] + Sum(amounts, ids - {y});
    if x != y {
      SumPick(amounts, ids - {y}, x);
      SumPick(amounts, ids - {x}, y);
      assert ids - {y} - {x} == ids - {x} - {y};
    }
  }

  lemma {:induction false} SumNetUnion(ledger: seq<Movement>, a: set<Id>, b: set<Id>, k: Key)
    requires a !! b
    ensures SumNet(ledger, a + b, k) == SumNet(ledger, a, k) + SumNet(ledger, b, k)
  {
    if a == {} {
      assert a + b == b;
    } else {
      var x :| x in a;
      SumNetPick(ledger, a, k, x);
      SumNetPick(ledger, a + b, k, x);
      SumNetUnion(ledger, a - {x}, b, k);
      assert a + b - {x} == (a - {x}) + b;
    }
  }

  lemma {:induction false} SumNetZero(ledger: seq<Movement>, ids: set<Id>, k: Key)
    requires forall x :: x in ids ==> Net(ledger, FromOrder(x), k) == 0
    ensures SumNet(ledger, ids, k) == 0
  {
    if ids != {} {
      var x :| x in ids;
      SumNetPick(ledger, ids, k, x);
      SumNetZero(ledger, ids - {x}, k);
    }
  }

  lemma {:induction false} SumNetAppend(ledger: seq<Movement>, m: Movement, ids: set<Id>, k: Key)
    ensures SumNet(ledger + [m], ids, k)
            == SumNet(ledger, ids, k) + if m.key == k && m.source.FromOrder? && m.source.id in ids then m.change else 0
  {
    if ids != {} {
      var x :| x in ids;
      SumNetPick(ledger, ids, k, x);
      SumNetPick(ledger + [m], ids, k, x);
      SumNetAppend(ledger, m, ids - {x}, k);
      Appended(ledger, m);
    }
  }

  /** A row's balance is its adjustments plus the nets of all sources. */
  lemma {:induction false} BalanceSplits(ledger: seq<Movement>, ids: set<Id>, k: Key)
    requires forall m :: m in ledger && m.source.FromOrder? ==> m.source.id in ids
    ensures Balance(ledger, k) == Adjustments(ledger, k) + SumNet(ledger, ids, k)
  {
    if |ledger| == 0 {
      SumNetZero(ledger, ids, k);
    } else {
      var front, last := ledger[..|ledger| - 1], ledger[|ledger| - 1];
      assert ledger == front + [last];
      assert last in ledger;
      BalanceSplits(front, ids, k);
      SumNetAppend(front, last, ids, k);
      Appended(front, last);
    }
  }

  lemma SourceIsARow(s: State, m: Movement)
    requires NoStrays(s) && m in s.books.ledger && m.source.FromOrder?
    ensures m.source.id in s.orders.Keys + s.attempts.Keys
  {
  }

  // ---- The equation for every run ----

  /**
   In every reachable state each stock row is its opening quantity, plus the manual adjustments, plus what
   the orders and attempts have netted; with the conservation lemmas each of those nets is known.
   */
  lemma StockEquationOfEveryRun(start: map<Key, int>, s: State, k: Key)
    requires Reachable(start, s)
    ensures At(s.books.stock, k)
            == At(start, k) + Adjustments(s.books.ledger, k)
               + SumNet(s.books.ledger, s.orders.Keys + s.attempts.Keys, k)
  {
    hide Reachable, IndexHolds, OrderInv, Linked;
    Facts(start, s);
    forall m | m in s.books.ledger && m.source.FromOrder? ensures m.source.id in s.orders.Keys + s.attempts.Keys {
      SourceIsARow(s, m);
    }
    BalanceSplits(s.books.ledger, s.orders.Keys + s.attempts.Keys, k);
  }

  // ---- What one order has out ----

  /** An order's own id and its attempts. */
  ghost function Slice(s: State, o: Id): set<Id>
  {
    {o} + set a | a in s.attempts && s.attempts[a].order == o
  }

  /** The order's own movements have put its lines back. */
  ghost predicate GaveBack(s: State, o: Id)
  {
    !NoneOfKind(s.books.ledger, FromOrder(o), Restored)
  }

  /** A COD order's own movements hold its quantities exactly until one of them is a restoration. */
  lemma CodOwnNet(start: map<Key, int>, s: State, o: Id, k: Key)
    requires Reachable(start, s) && PaymentKnown(s, o) && s.payments[o].paymentMethod == Cod
    ensures Net(s.books.ledger, FromOrder(o), k)
            == if GaveBack(s, o) then 0 else -QtyAt(s.orders[o].branch, s.orders[o].items, k)
  {
    hide Reachable, OrderRows, AttemptAccount, Unused;
    OrderFacts(start, s, o);
    assert CodAccount(s.books.ledger, o, s.orders[o], HasAttempt(s, o), HasActive(s, o));
  }

  /** The goods of the order are out for good: a paid attempt took them, or a COD order never gave them back. */
  ghost predicate StillOut(s: State, o: Id)
    requires PaymentKnown(s, o)
  {
    if s.payments[o].paymentMethod == Vnpay then HasConsumed(s, o) else !GaveBack(s, o)
  }

  /** What an order has out of one row: its quantity for good, its quantity while it waits for a payment, or both. */
  ghost function OutNow(s: State, o: Id, k: Key): int
    requires PaymentKnown(s, o)
  {
    var quantity := QtyAt(s.orders[o].branch, s.orders[o].items, k);
    (if StillOut(s, o) then quantity else 0) + if s.orders[o].status == PendingPayment then quantity else 0
  }

  /** An order waits for a payment exactly while one of its attempts holds stock. */
  lemma WaitsExactly(start: map<Key, int>, s: State, o: Id)
    requires Reachable(start, s) && PaymentKnown(s, o)
    ensures s.orders[o].status == PendingPayment <==> HasActive(s, o)
  {
    hide Reachable, OrderAccount, ItemsOk, Unique;
    OrderFacts(start, s, o);
    if a :| a in s.attempts && ActiveHold(s, a, o) {
      assert AttemptOk(s.attempts[a], s.orders[o], s.payments[o]);
    }
  }

  /** An attempt without an active hold is released, or paid on VNPAY. */
  lemma InactiveAttempt(start: map<Key, int>, s: State, o: Id, a: Id)
    requires Reachable(start, s) && PaymentKnown(s, o) && AttemptOf(s, a, o) && !Active(s.attempts[a])
    ensures s.attempts[a].released || (s.attempts[a].consumed && s.payments[o].paymentMethod == Vnpay)
  {
    hide Reachable, OrderAccount, OrderOk, Unique, ItemsOk;
    AttemptFacts(start, s, a);
    assert AttemptOk(s.attempts[a], s.orders[o], s.payments[o]);
  }

  /** The sources of an order without the one that holds stock for now. */
  ghost function Inactive(s: State, o: Id): set<Id>
  {
    set x | x in Slice(s, o) && !ActiveHold(s, x, o)
  }

  /** Of those, at most one has anything out: the paid attempt, or the COD order itself. */
  lemma InactiveNet(start: map<Key, int>, s: State, o: Id, k: Key)
    requires Reachable(start, s) && PaymentKnown(s, o)
    ensures SumNet(s.books.ledger, Inactive(s, o), k)
            == if StillOut(s, o) then -QtyAt(s.orders[o].branch, s.orders[o].items, k) else 0
  {
    hide Reachable;
    var ids, ledger := Inactive(s, o), s.books.ledger;
    if s.payments[o].paymentMethod == Cod {
      OrderIsNoAttempt(start, s, o);
      SumNetPick(ledger, ids, k, o);
      CodOwnNet(start, s, o, k);
      forall x | x in ids - {o} ensures Net(ledger, FromOrder(x), k) == 0 {
        InactiveAttempt(start, s, o, x);
        AttemptConserves(start, s, x, k);
      }
      SumNetZero(ledger, ids - {o}, k);
    } else if HasConsumed(s, o) {
      var a :| a in s.attempts && ConsumedAttempt(s, a, o);
      PaidNet(start, s, o, a, k);
    } else {
      forall x | x in ids ensures Net(ledger, FromOrder(x), k) == 0 {
        if x == o {
          VnpayOrderIsSilent(start, s, o, k);
        } else {
          InactiveAttempt(start, s, o, x);
          assert !ConsumedAttempt(s, x, o);
          AttemptConserves(start, s, x, k);
        }
      }
      SumNetZero(ledger, ids, k);
    }
  }

  lemma OrderIsNoAttempt(start: map<Key, int>, s: State, o: Id)
    requires Reachable(start, s) && o in s.orders
    ensures o !in s.attempts
  {
    hide Reachable;
    if o in s.attempts {
      AttemptFacts(start, s, o);
    }
  }

  lemma PaidNet(start: map<Key, int>, s: State, o: Id, a: Id, k: Key)
    requires Reachable(start, s) && PaymentKnown(s, o) && s.payments[o].paymentMethod == Vnpay
    requires ConsumedAttempt(s, a, o)
    ensures SumNet(s.books.ledger, Inactive(s, o), k) == -QtyAt(s.orders[o].branch, s.orders[o].items, k)
  {
    hide Reachable;
    var ids, ledger := Inactive(s, o), s.books.ledger;
    AttemptStates(start, s, a);
    SumNetPick(ledger, ids, k, a);
    AttemptConserves(start, s, a, k);
    forall x | x in ids - {a} ensures Net(ledger, FromOrder(x), k) == 0 {
      if x == o {
        VnpayOrderIsSilent(start, s, o, k);
      } else {
        InactiveAttempt(start, s, o, x);
        AttemptStates(start, s, x);
        AttemptsAreUnique(start, s, a, x);
        AttemptConserves(start, s, x, k);
      }
    }
    SumNetZero(ledger, ids - {a}, k);
  }

  /**
   In every reachable state, an order of either method and in any status has its quantities out, over all its
   sources, once if they are out for good and once more while it waits for a payment; otherwise nothing.
   */
  lemma OutExactly(start: map<Key, int>, s: State, o: Id, k: Key)
    requires Reachable(start, s) && PaymentKnown(s, o)
    ensures SumNet(s.books.ledger, Slice(s, o), k) == -OutNow(s, o, k)
  {
    hide Reachable, StillOut;
    var ids, ledger := Slice(s, o), s.books.ledger;
    InactiveNet(start, s, o, k);
    WaitsExactly(start, s, o);
    if HasActive(s, o) {
      var a :| a in s.attempts && ActiveHold(s, a, o);
      SumNetPick(ledger, ids, k, a);
      AttemptConserves(start, s, a, k);
      forall x | x in ids && ActiveHold(s, x, o) ensures x == a {
        AttemptsAreUnique(start, s, a, x);
      }
      assert ids - {a} == Inactive(s, o);
    } else {
      assert ids == Inactive(s, o);
    }
  }

  // ---- The equation over the orders ----

  ghost function Slices(s: State, orders: set<Id>): set<Id>
  {
    orders + set a | a in s.attempts && s.attempts[a].order in orders
  }

  /** What each order has out of one row. */
  ghost function AllOut(s: State, k: Key): map<Id, int>
  {
    map o | o in s.orders && o in s.payments :: OutNow(s, o, k)
  }

  lemma {:induction false} SlicesNet(start: map<Key, int>, s: State, orders: set<Id>, k: Key)
    requires Reachable(start, s)
    requires Tables(s) && orders <= s.orders.Keys
    ensures orders <= AllOut(s, k).Keys
    ensures SumNet(s.books.ledger, Slices(s, orders), k) == -Sum(AllOut(s, k), orders)
  {
    hide Reachable, OutNow;
    if orders == {} {
      assert Slices(s, orders) == {};
    } else {
      var o :| o in orders;
      SlicesNet(start, s, orders - {o}, k);
      SumPick(AllOut(s, k), orders, o);
      OutExactly(start, s, o, k);
      assert Slices(s, orders) == Slices(s, orders - {o}) + Slice(s, o);
      assert Slices(s, orders - {o}) !! Slice(s, o) by {
        assert s.attempts.Keys !! s.orders.Keys;
      }
      SumNetUnion(s.books.ledger, Slices(s, orders - {o}), Slice(s, o), k);
    }
  }

  /**
   In every reachable state, however stale its retries, each stock row is its opening quantity plus its
   adjustments minus what each order has out.
   */
  lemma StockIsOpeningPlusAdjustmentsMinusOut(start: map<Key, int>, s: State, k: Key)
    requires Reachable(start, s)
    ensures AllOut(s, k).Keys == s.orders.Keys
    ensures At(s.books.stock, k) == At(start, k) + Adjustments(s.books.ledger, k) - Sum(AllOut(s, k), s.orders.Keys)
  {
    hide Reachable, OrderInv, Sound, IndexHolds, NoStrays, OutNow;
    Facts(start, s);
    StockEquationOfEveryRun(start, s, k);
    SlicesNet(start, s, s.orders.Keys, k);
    assert Slices(s, s.orders.Keys) == s.orders.Keys + s.attempts.Keys;
  }

  // ---- The equation by status ----

  /** What the status of each order says it has out of one row. */
  ghost function OutByStatus(s: State, k: Key): map<Id, int>
  {
    map o | o in s.orders ::
      if Holds(s.orders[o].status) then QtyAt(s.orders[o].branch, s.orders[o].items, k) else 0
  }

  /** Where a paid attempt's order stays live and no COD order is retried, the status says what is out. */
  lemma StatusSaysOut(start: map<Key, int>, s: State, o: Id, k: Key)
    requires Reachable(start, s) && PaidStaysLive(s) && PaymentKnown(s, o)
    requires s.payments[o].paymentMethod == Vnpay || CodUnretried(s)
    ensures OutNow(s, o, k)
            == if Holds(s.orders[o].status) then QtyAt(s.orders[o].branch, s.orders[o].items, k) else 0
  {
    hide Reachable, OrderInv, GaveBack;
    if s.payments[o].paymentMethod == Cod {
      assert forall a :: !AttemptOf(s, a, o);
      assert !HasAttempt(s, o) && !HasActive(s, o);
      WaitsExactly(start, s, o);
      UnretriedCod(start, s, o, k);
      CodOwnNet(start, s, o, k);
    } else {
      PaidExactly(start, s, o);
    }
  }

  lemma PaidExactly(start: map<Key, int>, s: State, o: Id)
    requires Reachable(start, s) && PaidStaysLive(s) && PaymentKnown(s, o) && s.payments[o].paymentMethod == Vnpay
    ensures HasConsumed(s, o) <==> Live(s.orders[o].status)
  {
    hide Reachable, OrderAccount, ItemsOk, Unique, AttemptOk;
    OrderFacts(start, s, o);
  }

  /**
   Where retries act on what they read and never on a COD payment, each stock row equals its opening
   quantity plus its adjustments minus the quantities of the orders whose status holds stock.
   */
  lemma StockIsOpeningPlusAdjustmentsMinusOrders(start: map<Key, int>, rs: seq<Request>, k: Key)
    requires InRange(start) && PromptRun(rs) && VnpayRetriesOnly(Initial(start), rs)
    ensures var s := Run(Initial(start), rs);
            At(s.books.stock, k)
            == At(start, k) + Adjustments(s.books.ledger, k) - Sum(OutByStatus(s, k), s.orders.Keys)
  {
    hide Run, PromptRun, VnpayRetriesOnly, Inv, PaidStaysLive, CodUnretried, OutNow, OrderInv, Sound, IndexHolds,
      NoStrays;
    var s := Run(Initial(start), rs);
    PromptRunKeeps(start, rs);
    CodRunKeeps(start, rs);
    assert Reachable(start, s);
    Facts(start, s);
    StockIsOpeningPlusAdjustmentsMinusOut(start, s, k);
    forall o | o in s.orders ensures AllOut(s, k)[o] == OutByStatus(s, k)[o] {
      StatusSaysOut(start, s, o, k);
    }
    assert AllOut(s, k) == OutByStatus(s, k);
  }

  /**
   Where retries act on what they read, the status of a VNPAY order decides: its quantities are out in
   PENDING_PAYMENT and from PENDING to COMPLETED, and nothing is in PAYMENT_FAILED and CANCELLED.
   */
  lemma VnpayStatusDecidesStock(start: map<Key, int>, rs: seq<Request>, o: Id, k: Key)
    requires InRange(start) && PromptRun(rs) && PaymentKnown(Run(Initial(start), rs), o)
    requires Run(Initial(start), rs).payments[o].paymentMethod == Vnpay
    ensures var s := Run(Initial(start), rs); var order := s.orders[o];
            && order.status in
               {PendingPayment, PaymentFailed, Pending, Confirmed, Packing, Shipping, Completed, Cancelled}
            && SumNet(s.books.ledger, Slice(s, o), k)
               == if order.status in {PaymentFailed, Cancelled} then 0 else -QtyAt(order.branch, order.items, k)
  {
    hide Run, PromptRun, PaidStaysLive, OutNow, SumNet, Slice;
    var s := Run(Initial(start), rs);
    PromptRunKeeps(start, rs);
    assert Reachable(start, s);
    StatusDecidesStock(start, s, o);
    OutExactly(start, s, o, k);
    StatusSaysOut(start, s, o, k);
  }
}
