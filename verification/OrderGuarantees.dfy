/** The promises of the order protocol in every reachable state, even when a retry acts on a stale read. */
module OrderGuarantees {
  import opened OrderTypes
  import opened StockLedger
  import opened OrderProtocol
  import opened OrderInvariant
  import opened OrderRuns

  lemma Facts(start: map<Key, int>, s: State)
    requires Reachable(start, s)
    ensures Sound(start, s.books) && IndexHolds(s.books.ledger) && Tables(s) && NoStrays(s)
    ensures forall o :: o in s.orders ==> OrderInv(s, o)
  {
    hide Sound, IndexHolds, Tables, NoStrays, OrderInv, Reachable;
    ReachableInv(start, s);
  }

  lemma AttemptFacts(start: map<Key, int>, s: State, id: Id)
    requires Reachable(start, s) && id in s.attempts
    ensures s.attempts[id].order in s.orders && OrderInv(s, s.attempts[id].order) && id !in s.orders
    ensures AttemptOf(s, id, s.attempts[id].order)
  {
    hide Sound, IndexHolds, NoStrays, OrderInv, Reachable;
    Facts(start, s);
  }

  lemma OrderFacts(start: map<Key, int>, s: State, o: Id)
    requires Reachable(start, s) && o in s.orders
    ensures OrderInv(s, o)
  {
    hide Sound, IndexHolds, Tables, NoStrays, OrderInv, Reachable;
    Facts(start, s);
  }

  // ---- Conservation, source by source ----

  /** An attempt has taken exactly its order's quantities, or, once released, nothing. */
  lemma AttemptConserves(start: map<Key, int>, s: State, id: Id, k: Key)
    requires Reachable(start, s) && id in s.attempts
    ensures s.attempts[id].order in s.orders
    ensures var order := s.orders[s.attempts[id].order];
            Net(s.books.ledger, FromOrder(id), k)
            == if s.attempts[id].released then 0 else -QtyAt(order.branch, order.items, k)
  {
    hide Reachable, OrderRows, CodAccount, Unused;
    AttemptFacts(start, s, id);
    assert AttemptAccount(s.books.ledger, id, s.attempts[id], s.orders[s.attempts[id].order]);
  }

  /** A COD order's own movements have taken its quantities, or nothing on balance; never less than nothing. */
  lemma CodConserves(start: map<Key, int>, s: State, o: Id)
    requires Reachable(start, s) && PaymentKnown(s, o) && s.payments[o].paymentMethod == Cod
    ensures var order := s.orders[o];
            || (forall k :: Net(s.books.ledger, FromOrder(o), k) == -QtyAt(order.branch, order.items, k))
            || (forall k :: Net(s.books.ledger, FromOrder(o), k) == 0)
  {
    hide Reachable, OrderRows, AttemptAccount, Unused;
    OrderFacts(start, s, o);
    assert CodAccount(s.books.ledger, o, s.orders[o], HasAttempt(s, o), HasActive(s, o));
  }

  /** Without a retry, the status of a COD order decides which of the two it is. */
  lemma UnretriedCod(start: map<Key, int>, s: State, o: Id, k: Key)
    requires Reachable(start, s) && PaymentKnown(s, o) && s.payments[o].paymentMethod == Cod && !HasAttempt(s, o)
    ensures Live(s.orders[o].status) || s.orders[o].status == Cancelled
    ensures Net(s.books.ledger, FromOrder(o), k)
            == if s.orders[o].status == Cancelled then 0 else -QtyAt(s.orders[o].branch, s.orders[o].items, k)
  {
    hide Reachable, AttemptAccount, Unused, Unique, ItemsOk, AttemptOk;
    OrderFacts(start, s, o);
    assert CodAccount(s.books.ledger, o, s.orders[o], false, HasActive(s, o));
    assert forall a :: !AttemptOf(s, a, o);
    assert !HasActive(s, o);
  }

  /** A VNPAY order writes nothing under its own id; its attempts do. */
  lemma VnpayOrderIsSilent(start: map<Key, int>, s: State, o: Id, k: Key)
    requires Reachable(start, s) && PaymentKnown(s, o) && s.payments[o].paymentMethod == Vnpay
    ensures Net(s.books.ledger, FromOrder(o), k) == 0
  {
    hide Reachable, OrderRows, AttemptAccount, CodAccount;
    OrderFacts(start, s, o);
    UnusedNet(s.books.ledger, FromOrder(o));
  }

  // ---- The ledger ----

  /** Two movements of one row with none of that row between them fit together. */
  lemma LedgerChains(start: map<Key, int>, s: State, i: nat, j: nat)
    requires Reachable(start, s) && i < j < |s.books.ledger|
    requires s.books.ledger[i].key == s.books.ledger[j].key
    requires forall m :: i < m < j ==> s.books.ledger[m].key != s.books.ledger[j].key
    ensures s.books.ledger[j].before == s.books.ledger[i].after
    ensures s.books.ledger[j].after == s.books.ledger[j].before + s.books.ledger[j].change
  {
    hide Reachable, IndexHolds, Tables, NoStrays, OrderInv;
    Facts(start, s);
    var ledger, k := s.books.ledger, s.books.ledger[j].key;
    assert Linked(start, ledger, i) && Linked(start, ledger, j);
    BalanceUnmoved(ledger[..j], k, i + 1);
    assert ledger[..j][..i + 1] == ledger[..i + 1];
    assert ledger[..i + 1] == ledger[..i] + [ledger[i]];
    Appended(ledger[..i], ledger[i]);
  }

  lemma {:induction false} BalanceUnmoved(ledger: seq<Movement>, k: Key, n: nat)
    requires n <= |ledger| && forall m :: n <= m < |ledger| ==> ledger[m].key != k
    ensures Balance(ledger, k) == Balance(ledger[..n], k)
  {
    if n == |ledger| {
      assert ledger[..n] == ledger;
    } else {
      BalanceUnmoved(ledger[..|ledger| - 1], k, n);
      assert ledger[..|ledger| - 1][..n] == ledger[..n];
    }
  }

  /** The first movement of a row starts from its opening quantity, the last one ends at the stored quantity. */
  lemma LedgerEnds(start: map<Key, int>, s: State, i: nat)
    requires Reachable(start, s) && i < |s.books.ledger|
    ensures 0 <= s.books.ledger[i].before && 0 <= s.books.ledger[i].after
    ensures (forall m :: 0 <= m < i ==> s.books.ledger[m].key != s.books.ledger[i].key) ==>
              s.books.ledger[i].before == At(start, s.books.ledger[i].key)
    ensures (forall m :: i < m < |s.books.ledger| ==> s.books.ledger[m].key != s.books.ledger[i].key) ==>
              At(s.books.stock, s.books.ledger[i].key) == s.books.ledger[i].after
  {
    hide Reachable, IndexHolds, Tables, NoStrays, OrderInv;
    Facts(start, s);
    var ledger, k := s.books.ledger, s.books.ledger[i].key;
    assert Linked(start, ledger, i);
    if forall m :: 0 <= m < i ==> ledger[m].key != k {
      BalanceUnmoved(ledger[..i], k, 0);
      assert ledger[..i][..0] == [];
    }
    if forall m :: i < m < |ledger| ==> ledger[m].key != k {
      BalanceUnmoved(ledger, k, i + 1);
      assert ledger[..i + 1] == ledger[..i] + [ledger[i]];
      Appended(ledger[..i], ledger[i]);
    }
  }

  /** No stock row is ever negative, and no request can violate the ledger's unique index. */
  lemma StockNeverNegative(start: map<Key, int>, s: State)
    requires Reachable(start, s)
    ensures forall k :: k in s.books.stock ==> 0 <= s.books.stock[k] <= MAX_QUANTITY
    ensures IndexHolds(s.books.ledger)
  {
    hide Reachable, IndexHolds, Tables, NoStrays, OrderInv, Linked;
    Facts(start, s);
  }

  // ---- Attempts ----

  /** What the columns of a payment attempt can be. */
  lemma AttemptStates(start: map<Key, int>, s: State, id: Id)
    requires Reachable(start, s) && id in s.attempts
    ensures var a := s.attempts[id];
            && (a.status == TxPaid <==> a.consumed)
            && !(a.consumed && a.released)
            && (a.reserved && !a.consumed && !a.released ==> a.status == TxPending)
            && (a.status in {TxFailed, TxCancelled, TxExpired} ==> a.released)
  {
    hide Reachable, OrderAccount, OrderOk, Unique, ItemsOk;
    AttemptFacts(start, s, id);
    assert AttemptOk(s.attempts[id], s.orders[s.attempts[id].order], s.payments[s.attempts[id].order]);
  }

  /** A payment never has two pending attempts, two paid ones, or two active holds. */
  lemma AttemptsAreUnique(start: map<Key, int>, s: State, a: Id, b: Id)
    requires Reachable(start, s) && a in s.attempts && b in s.attempts && s.attempts[a].order == s.attempts[b].order
    ensures s.attempts[a].status == s.attempts[b].status == TxPending ==> a == b
    ensures s.attempts[a].status == s.attempts[b].status == TxPaid ==> a == b
    ensures Active(s.attempts[a]) && Active(s.attempts[b]) ==> a == b
  {
    hide Reachable, OrderAccount, OrderOk, ItemsOk;
    AttemptFacts(start, s, a);
    AttemptFacts(start, s, b);
    AttemptStates(start, s, a);
    AttemptStates(start, s, b);
    assert Unique(s, s.attempts[a].order);
  }

  // ---- Orders that have left the payment phase ----

  /** The single source under which a live order's goods have left. */
  ghost predicate GoneUnder(s: State, o: Id, source: Id)
    requires PaymentKnown(s, o)
  {
    if source == o then s.payments[o].paymentMethod == Cod && !HasAttempt(s, o)
    else ConsumedAttempt(s, source, o) && s.payments[o].paymentMethod == Vnpay
  }

  /**
   An order from PENDING to COMPLETED has had its quantities taken exactly once: one source holds them,
   every other source of the order nets to nothing, and no attempt still holds stock.
   */
  lemma LiveOrderLeftOnce(start: map<Key, int>, s: State, o: Id)
    requires Reachable(start, s) && PaymentKnown(s, o) && Live(s.orders[o].status)
    ensures !HasActive(s, o)
    ensures exists source :: GoneUnder(s, o, source)
    ensures forall source, k :: GoneUnder(s, o, source) ==>
              Net(s.books.ledger, FromOrder(source), k) == -QtyAt(s.orders[o].branch, s.orders[o].items, k)
    ensures forall source, x, k :: GoneUnder(s, o, source) && (x == o || AttemptOf(s, x, o)) && x != source ==>
              Net(s.books.ledger, FromOrder(x), k) == 0
  {
    hide Reachable, OrderInv, Sound, IndexHolds, NoStrays;
    Facts(start, s);
    LiveHasNoHold(s, o);
    LiveHasSource(s, o);
    forall source, k | GoneUnder(s, o, source)
      ensures Net(s.books.ledger, FromOrder(source), k) == -QtyAt(s.orders[o].branch, s.orders[o].items, k)
    {
      if source == o {
        UnretriedCod(start, s, o, k);
      } else {
        AttemptConserves(start, s, source, k);
        AttemptStates(start, s, source);
      }
    }
    forall source, x, k | GoneUnder(s, o, source) && (x == o || AttemptOf(s, x, o)) && x != source
      ensures Net(s.books.ledger, FromOrder(x), k) == 0
    {
      if x == o {
        VnpayOrderIsSilent(start, s, o, k);
      } else {
        AttemptConserves(start, s, x, k);
        AttemptStates(start, s, x);
        OthersAreReleased(start, s, o, source, x);
      }
    }
  }

  lemma OthersAreReleased(start: map<Key, int>, s: State, o: Id, source: Id, x: Id)
    requires Reachable(start, s) && PaymentKnown(s, o) && GoneUnder(s, o, source) && AttemptOf(s, x, o) &&
             x != source && x != o && !HasActive(s, o)
    ensures s.attempts[x].released
  {
    hide Reachable;
    AttemptStates(start, s, x);
    assert source in s.attempts && AttemptOf(s, source, o);
    AttemptStates(start, s, source);
    AttemptsAreUnique(start, s, x, source);
    AttemptReserved(start, s, x);
    assert !ActiveHold(s, x, o);
  }

  lemma AttemptReserved(start: map<Key, int>, s: State, id: Id)
    requires Reachable(start, s) && id in s.attempts
    ensures s.attempts[id].reserved
  {
    hide Reachable, OrderAccount, OrderOk, Unique, ItemsOk;
    AttemptFacts(start, s, id);
    assert AttemptOk(s.attempts[id], s.orders[s.attempts[id].order], s.payments[s.attempts[id].order]);
  }

  lemma LiveHasNoHold(s: State, o: Id)
    requires OrderInv(s, o) && Live(s.orders[o].status)
    ensures !HasActive(s, o)
  {
    hide OrderAccount, OrderOk, ItemsOk, Unique;
    forall a | ActiveHold(s, a, o) ensures false {
      ActiveIsPending(s, a, o);
    }
  }

  lemma LiveHasSource(s: State, o: Id)
    requires Tables(s) && OrderInv(s, o) && Live(s.orders[o].status)
    ensures exists source :: GoneUnder(s, o, source)
  {
    hide OrderAccount, ItemsOk, Unique;
    if s.payments[o].paymentMethod == Cod {
      assert GoneUnder(s, o, o);
    } else {
      var a :| a in s.attempts && ConsumedAttempt(s, a, o);
      assert a in s.attempts.Keys && o in s.orders.Keys;
      assert GoneUnder(s, o, a);
    }
  }

  /** COMPLETED means paid and received, whatever the payment method. */
  lemma CompletedIsPaidAndReceived(start: map<Key, int>, s: State, o: Id)
    requires Reachable(start, s) && PaymentKnown(s, o) && s.orders[o].status == Completed
    ensures s.payments[o].status == PayPaid && s.orders[o].received
  {
    hide Reachable, OrderAccount, ItemsOk, Unique, AttemptOk;
    OrderFacts(start, s, o);
  }

  /** An order, its payment and each of its attempts are for one amount, the one every callback is compared with. */
  lemma AmountsAgree(start: map<Key, int>, s: State, id: Id)
    requires Reachable(start, s) && id in s.attempts
    ensures PaymentKnown(s, s.attempts[id].order)
    ensures s.attempts[id].amount == s.payments[s.attempts[id].order].amount == s.orders[s.attempts[id].order].total
    ensures forall cb :: ValidAmount(cb, s.attempts[id]) ==>
              cb.amount.value == s.orders[s.attempts[id].order].total * 100
  {
    hide Reachable, OrderAccount, ItemsOk, Unique;
    AttemptFacts(start, s, id);
    assert AttemptOk(s.attempts[id], s.orders[s.attempts[id].order], s.payments[s.attempts[id].order]);
  }
}
