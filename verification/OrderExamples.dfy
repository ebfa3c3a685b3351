/** Concrete runs of one customer's one order, for the promises that fail. */
module OrderExamples {
  import opened Wrappers
  import opened OrderTypes
  import opened StockLedger
  import opened ProductWeight
  import opened OrderProtocol
  import opened OrderRuns
  import opened OrderHistory

  const SHELF := Key(1, 7)

  /** Two copies of variant 7 for 50 each, and 20 for shipping. */
  const BASKET := Basket(5, 100, 1, [Line(7, 2, 300, 50)], 20, true)

  const ITEMS := [Item(Some(7), 2)]

  /** Ten copies on the shelf, and nothing else. */
  function Opening(): map<Key, int>
  {
    map[SHELF := 10]
  }

  const PAID := Callback(true, true, Some(12000), "00", "00")

  const FAILED := Callback(true, true, Some(12000), "51", "02")

  function OrderIn(status: OrderStatus, deducted: bool, restored: bool): Order
  {
    Order(5, 1, 100, status, ITEMS, 120, deducted, restored, false)
  }

  function AttemptIn(key: Id, status: AttemptStatus, now: int, released: bool, consumed: bool): Attempt
  {
    Attempt(30, key, status, 120, now, now + 900, true, released, consumed)
  }

  // ---- Single steps ----

  lemma OneLine()
    ensures ItemsOf(BASKET.lines) == ITEMS && ByVariant(ITEMS) == ITEMS && DistinctVariants(ITEMS)
    ensures CheckoutError(BASKET) == None
    ensures forall status, deducted :: NewOrder(BASKET, status, deducted) == OrderIn(status, deducted, false)
  {
    assert BASKET.lines[..0] == [];
    assert ITEMS[..0] == [];
    assert TotalWeight(BASKET.lines) == Some(600);
    assert Subtotal(BASKET.lines) == 100;
  }

  lemma DeductOneLine(b: Books, source: Source)
    requires SHELF in b.stock && b.stock[SHELF] >= 2
    ensures Deduct(b, 1, ByVariant(ITEMS), source) == Some(Write(b, SHELF, Deducted, -2, source))
  {
    OneLine();
    assert ITEMS[..0] == [];
  }

  lemma RestoreOneLine(b: Books, source: Source)
    requires SHELF in b.stock && b.stock[SHELF] + 2 <= MAX_QUANTITY
    ensures Restore(b, 1, ITEMS, source) == Some(Write(b, SHELF, Restored, 2, source))
  {
    assert ITEMS[..0] == [];
  }

  function CodPlaced(): State
  {
    State(Write(Books(Opening(), []), SHELF, Deducted, -2, FromOrder(30)), map[30 := OrderIn(Pending, true, false)],
          map[30 := Payment(Cod, Unpaid, 120)], map[], [StatusChanged(30, None, Pending)])
  }

  lemma PlacingCod()
    ensures Apply(Initial(Opening()), PlaceCodOrder(BASKET, 30)).next == CodPlaced()
  {
    hide CheckoutError, NewOrder, ItemsOf, ByVariant, Deduct, DistinctVariants;
    OneLine();
    DeductOneLine(Books(Opening(), []), FromOrder(30));
  }

  function VnpayPlaced(): State
  {
    State(Write(Books(Opening(), []), SHELF, Deducted, -2, FromOrder(31)),
          map[30 := OrderIn(PendingPayment, false, false)],
          map[30 := Payment(Vnpay, PayPending, 120)], map[31 := AttemptIn(100, TxPending, 0, false, false)],
          [StatusChanged(30, None, PendingPayment)])
  }

  lemma PlacingVnpay()
    ensures Apply(Initial(Opening()), PlaceVnpayOrder(BASKET, 30, 31, 0, 900)).next == VnpayPlaced()
  {
    hide CheckoutError, NewOrder, ItemsOf, ByVariant, Deduct, DistinctVariants;
    OneLine();
    DeductOneLine(Books(Opening(), []), FromOrder(31));
  }

  /** An order of this shop, with enough on the shelf either way. */
  ghost predicate OneOrder(s: State)
  {
    && PaymentKnown(s, 30) && s.orders.Keys == {30} && s.payments.Keys == {30}
    && s.orders[30] == OrderIn(s.orders[30].status, s.orders[30].stockDeducted, s.orders[30].stockRestored)
    && SHELF in s.books.stock && 2 <= s.books.stock[SHELF] <= 10
    && s.payments[30].amount == 120
    && forall a :: a in s.attempts ==> s.attempts[a].order == 30 && s.attempts[a].amount == 120
  }

  function Retried(s: State, seen: OrderStatus, id: Id, key: Id, now: int): State
    requires 30 in s.orders && 30 in s.payments && SHELF in s.books.stock
  {
    State(Write(s.books, SHELF, Deducted, -2, FromOrder(id)),
          s.orders[30 := s.orders[30].(status := PendingPayment, stockRestored := false)],
          s.payments[30 := s.payments[30].(status := PayPending)],
          s.attempts[id := AttemptIn(key, TxPending, now, false, false)],
          s.history + [StatusChanged(30, Some(seen), PendingPayment)])
  }

  lemma Retrying(s: State, seen: OrderStatus, id: Id, key: Id, now: int)
    requires OneOrder(s) && !HasPending(s, 30) && !AttemptKeyTaken(s, key) && FreshId(s, id)
    ensures RetryCommit(s, 30, seen, id, key, now, 900).next == Retried(s, seen, id, key, now)
  {
    hide ByVariant, Deduct, FreshId, AttemptKeyTaken, HasPending;
    DeductOneLine(s.books, FromOrder(id));
  }

  /** The hold of an attempt is given back. */
  function HoldReleased(s: State, id: Id): State
    requires id in s.attempts && SHELF in s.books.stock
  {
    s.(books := Write(s.books, SHELF, Restored, 2, FromOrder(id)),
       attempts := s.attempts[id := s.attempts[id].(released := true)])
  }

  lemma Releasing(s: State, id: Id)
    requires OneOrder(s) && id in s.attempts && Active(s.attempts[id])
    ensures ReleaseHold(s, id) == Some(HoldReleased(s, id))
  {
    hide Restore;
    RestoreOneLine(s.books, FromOrder(id));
  }

  lemma Failing(s: State, id: Id)
    requires OneOrder(s) && s.payments[30].paymentMethod == Vnpay && s.orders[30].total == 120
    requires id in s.attempts && s.attempts[id].status == TxPending
    requires Active(s.attempts[id]) || s.attempts[id].released
    ensures HandleIpn(s, id, FAILED).next ==
            CloseAttempt(if Active(s.attempts[id]) then HoldReleased(s, id) else s, id, TxFailed, PayFailed)
  {
    hide CloseAttempt;
    if Active(s.attempts[id]) {
      Releasing(s, id);
    }
  }

  lemma Paying(s: State, id: Id)
    requires OneOrder(s) && s.payments[30] == Payment(Vnpay, PayPending, 120) && s.orders[30].status == PendingPayment
    requires id in s.attempts && s.attempts[id].status == TxPending && Active(s.attempts[id])
    requires forall a :: a in s.attempts && a != id ==>
               s.attempts[a].status != TxPaid && s.attempts[a].createdAt <= s.attempts[id].createdAt
    ensures HandleIpn(s, id, PAID).next == ApplySuccess(s, id, PAID)
    ensures SuccessVerdict(s, id, PAID) == Applied
  {
    hide ApplySuccess;
  }

  lemma CancellingHold(s: State, id: Id)
    requires OneOrder(s) && s.orders[30].status == PendingPayment && s.payments[30].status == PayPending
    requires id in s.attempts && Active(s.attempts[id])
    requires forall a :: a in s.attempts && Active(s.attempts[a]) ==> a == id
    ensures var s1 := HoldReleased(s, id);
            PaymentKnown(s1, 30) &&
            Apply(s, CancelByCustomer(5, 30)).next ==
            FinishCancel(s1.(orders := s1.orders[30 := s1.orders[30].(stockRestored := true)]), 30)
  {
    hide ReleaseHold, HoldReleased, FinishCancel;
    assert ActiveHold(s, id, 30);
    assert HasActive(s, 30);
    assert FindActive(s, 30) == id;
    Releasing(s, id);
    SameRows(s, id);
  }

  lemma SameRows(s: State, id: Id)
    requires OneOrder(s) && id in s.attempts
    ensures PaymentKnown(HoldReleased(s, id), 30)
    ensures HoldReleased(s, id).orders == s.orders && HoldReleased(s, id).payments == s.payments
  {
  }

  lemma {:induction false} RunOn(s: State, rs: seq<Request>, r: Request)
    ensures Run(s, rs + [r]) == Apply(Run(s, rs), r).next
  {
    assert (rs + [r])[..|rs|] == rs;
  }

  // ---- The runs ----

  /** A COD order for 2 of 10 is placed and then retried: 6 are left, though the one order is for 2. */
  lemma CodRetryExample()
    ensures var s := Run(Initial(Opening()), [PlaceCodOrder(BASKET, 30), RetryPayment(5, 30, 31, 101, 0, 900)]);
            && s == Retried(CodPlaced(), Pending, 31, 101, 0)
            && s.books.stock == map[SHELF := 6]
            && s.orders.Keys == {30} && s.orders[30].status == PendingPayment
  {
    hide Apply, Run, RetryCommit;
    var place, again := PlaceCodOrder(BASKET, 30), RetryPayment(5, 30, 31, 101, 0, 900);
    Started(place);
    PlacingCod();
    RunOn(Initial(Opening()), [place], again);
    Retrying(CodPlaced(), Pending, 31, 101, 0);
    assert [place] + [again] == [place, again];
    PromptRetry(CodPlaced(), 31, 101, 0);
  }

  lemma Started(r: Request)
    ensures Run(Initial(Opening()), [r]) == Apply(Initial(Opening()), r).next
  {
    hide Apply;
    assert [r][..0] == [];
    assert Run(Initial(Opening()), [r][..0]) == Initial(Opening());
  }

  lemma PromptRetry(s: State, id: Id, key: Id, now: int)
    requires OneOrder(s) && s.payments[30].status != PayPaid && !HasPending(s, 30)
    ensures Apply(s, RetryPayment(5, 30, id, key, now, 900)).next
            == RetryCommit(s, 30, s.orders[30].status, id, key, now, 900).next
  {
    hide RetryCommit, HasPending;
  }

  /** Cancelled after that retry, the order keeps 2 of its 10 copies out for ever. */
  lemma CodCancelExample()
    ensures var s := Run(Initial(Opening()),
                         [PlaceCodOrder(BASKET, 30), RetryPayment(5, 30, 31, 101, 0, 900), CancelByCustomer(5, 30)]);
            s.books.stock == map[SHELF := 8] && s.orders.Keys == {30} && s.orders[30].status == Cancelled
  {
    hide Apply, Run;
    var first, cancel := [PlaceCodOrder(BASKET, 30), RetryPayment(5, 30, 31, 101, 0, 900)], CancelByCustomer(5, 30);
    CodRetryExample();
    RunOn(Initial(Opening()), first, cancel);
    assert first + [cancel] == [first[0], first[1], cancel];
    CancellingHold(Retried(CodPlaced(), Pending, 31, 101, 0), 31);
  }

  /** A VNPAY order is cancelled while its attempt is pending; the failure that arrives later reopens it. */
  lemma LateFailureExample()
    ensures var rs := [PlaceVnpayOrder(BASKET, 30, 31, 0, 900), CancelByCustomer(5, 30)];
            && Run(Initial(Opening()), rs).orders.Keys == {30} &&
               Run(Initial(Opening()), rs).orders[30].status == Cancelled
            && var s := Run(Initial(Opening()), rs + [Ipn(31, FAILED)]);
               s.orders.Keys == {30} && s.orders[30].status == PaymentFailed && s.books.stock == map[SHELF := 10]
  {
    hide Apply, Run, HandleIpn;
    var place, cancel := PlaceVnpayOrder(BASKET, 30, 31, 0, 900), CancelByCustomer(5, 30);
    Started(place);
    PlacingVnpay();
    RunOn(Initial(Opening()), [place], cancel);
    assert [place] + [cancel] == [place, cancel];
    CancellingHold(VnpayPlaced(), 31);
    var s := Run(Initial(Opening()), [place, cancel]);
    RunOn(Initial(Opening()), [place, cancel], Ipn(31, FAILED));
    IpnStep(s, 31, FAILED);
    Failing(s, 31);
  }

  lemma IpnStep(s: State, id: Id, cb: Callback)
    ensures Apply(s, Ipn(id, cb)) == HandleIpn(s, id, cb)
  {
    hide HandleIpn;
  }

  /** A COD order is cancelled and then retried: it waits for a payment again. */
  lemma CancelledRetryExample()
    ensures var rs := [PlaceCodOrder(BASKET, 30), CancelByCustomer(5, 30)];
            && Run(Initial(Opening()), rs).orders.Keys == {30} &&
               Run(Initial(Opening()), rs).orders[30].status == Cancelled
            && var s := Run(Initial(Opening()), rs + [RetryPayment(5, 30, 31, 101, 0, 900)]);
               s.orders.Keys == {30} && s.orders[30].status == PendingPayment && s.books.stock == map[SHELF := 8]
  {
    hide Apply, Run, RetryCommit;
    var place, cancel := PlaceCodOrder(BASKET, 30), CancelByCustomer(5, 30);
    var again := RetryPayment(5, 30, 31, 101, 0, 900);
    Started(place);
    PlacingCod();
    RunOn(Initial(Opening()), [place], cancel);
    assert [place] + [cancel] == [place, cancel];
    CancellingCod();
    var s := Run(Initial(Opening()), [place, cancel]);
    RunOn(Initial(Opening()), [place, cancel], again);
    PromptRetry(s, 31, 101, 0);
    Retrying(s, Cancelled, 31, 101, 0);
  }

  function CodCancelled(): State
  {
    var s := CodPlaced();
    State(Write(s.books, SHELF, Restored, 2, FromOrder(30)), map[30 := OrderIn(Cancelled, true, true)],
          map[30 := Payment(Cod, PayCancelled, 120)], map[], s.history + [StatusChanged(30, Some(Pending), Cancelled)])
  }

  lemma CancellingCod()
    ensures Apply(CodPlaced(), CancelByCustomer(5, 30)).next == CodCancelled()
  {
    hide Restore;
    RestoreOneLine(CodPlaced().books, FromOrder(30));
  }

  // ---- A stale retry ----

  /** Placed, and the payment failed. */
  const UNTIL_FAILED: seq<Request> := [PlaceVnpayOrder(BASKET, 30, 31, 0, 900), Ipn(31, FAILED)]

  /** Retried by one request, and paid. */
  const UNTIL_PAID: seq<Request> := UNTIL_FAILED + [RetryPayment(5, 30, 32, 101, 10, 900)] + [Ipn(32, PAID)]

  lemma RunsUntilFailed()
    ensures Run(Initial(Opening()), UNTIL_FAILED) == FirstFailed()
  {
    hide Apply, Run, HandleIpn, FirstFailed;
    var place, fail := PlaceVnpayOrder(BASKET, 30, 31, 0, 900), Ipn(31, FAILED);
    Started(place);
    PlacingVnpay();
    RunOn(Initial(Opening()), [place], fail);
    assert [place] + [fail] == UNTIL_FAILED;
    IpnStep(VnpayPlaced(), 31, FAILED);
    FirstFails();
  }

  lemma FirstFails()
    ensures HandleIpn(VnpayPlaced(), 31, FAILED).next == FirstFailed()
  {
    hide HandleIpn;
    Failing(VnpayPlaced(), 31);
  }

  lemma RetriesOnce()
    ensures RetryError(FirstFailed(), 5, 30) == None
    ensures Apply(FirstFailed(), RetryPayment(5, 30, 32, 101, 10, 900)).next
            == Retried(FirstFailed(), PaymentFailed, 32, 101, 10)
  {
    hide Apply, RetryCommit;
    PromptRetry(FirstFailed(), 32, 101, 10);
    Retrying(FirstFailed(), PaymentFailed, 32, 101, 10);
  }

  lemma RunsUntilPaid()
    ensures Run(Initial(Opening()), UNTIL_PAID) == SecondPaid()
  {
    hide Apply, Run, HandleIpn, ApplySuccess, FirstFailed, SecondPaid, Retried;
    var start, again, pay := Initial(Opening()), RetryPayment(5, 30, 32, 101, 10, 900), Ipn(32, PAID);
    RunsUntilFailed();
    RunOn(start, UNTIL_FAILED, again);
    FailedRows();
    RetriesOnce();
    RunOn(start, UNTIL_FAILED + [again], pay);
    IpnStep(Retried(FirstFailed(), PaymentFailed, 32, 101, 10), 32, PAID);
    SecondPays();
  }

  lemma FailedRows()
    ensures PaymentKnown(FirstFailed(), 30) && SHELF in FirstFailed().books.stock
  {
  }

  lemma SecondRows()
    ensures var s := SecondPaid();
            && OneOrder(s) && s.orders[30].status == Pending && s.books.stock == map[SHELF := 8]
            && s.payments[30] == Payment(Vnpay, PayPaid, 120)
            && s.attempts == map[31 := AttemptIn(100, TxFailed, 0, true, false),
                                 32 := AttemptIn(101, TxPaid, 10, false, true)]
  {
  }

  lemma NewIdsAreFree()
    ensures !HasPending(SecondPaid(), 30) && !AttemptKeyTaken(SecondPaid(), 102) && FreshId(SecondPaid(), 33)
  {
    SecondRows();
    SecondSources();
    hide SecondPaid;
  }

  lemma SecondSources()
    ensures forall m :: m in SecondPaid().books.ledger ==> m.source != FromOrder(33)
    ensures SecondPaid().orders.Keys == {30} && SecondPaid().payments.Keys == {30}
  {
  }

  lemma SecondTakes()
    ensures var s := SecondPaid();
            && PaymentKnown(s, 30) && SHELF in s.books.stock
            && Apply(s, CommitStaleRetry(30, PaymentFailed, 33, 102, 20, 900)).next
               == Retried(s, PaymentFailed, 33, 102, 20)
            && s.orders.Keys == {30} && s.orders[30].status == Pending && s.books.stock == map[SHELF := 8]
  {
    hide Apply, RetryCommit, SecondPaid, HasPending, AttemptKeyTaken, FreshId;
    SecondRows();
    NewIdsAreFree();
    SecondSources();
    StaleStep(SecondPaid(), PaymentFailed, 33, 102, 20);
    Retrying(SecondPaid(), PaymentFailed, 33, 102, 20);
  }

  /**
   Two retries of one failed payment read it before either commits. The first is paid; the second then takes
   the goods of the paid order once more and puts it back to waiting, from a status that is no longer its own.
   */
  lemma StaleRetryExample()
    ensures RetryError(Run(Initial(Opening()), UNTIL_FAILED), 5, 30) == None
    ensures var paid := Run(Initial(Opening()), UNTIL_PAID);
            paid.orders.Keys == {30} && paid.orders[30].status == Pending && paid.books.stock == map[SHELF := 8]
    ensures var s := Run(Initial(Opening()), UNTIL_PAID + [CommitStaleRetry(30, PaymentFailed, 33, 102, 20, 900)]);
            && s.orders.Keys == {30} && s.orders[30].status == PendingPayment && s.books.stock == map[SHELF := 6]
            && !Chained(s.history)
  {
    hide Apply, Run, Chained, FirstFailed, SecondPaid;
    RunsUntilFailed();
    RetriesOnce();
    RunsUntilPaid();
    SecondTakes();
    RunOn(Initial(Opening()), UNTIL_PAID, CommitStaleRetry(30, PaymentFailed, 33, 102, 20, 900));
    StaleEntry(SecondPaid());
  }

  lemma ThirdRows()
    ensures var s := SecondPaid();
            && PaymentKnown(s, 30) && SHELF in s.books.stock
            && var t := Retried(s, PaymentFailed, 33, 102, 20);
               && OneOrder(t) && t.orders[30].status == PendingPayment &&
                  t.payments[30] == Payment(Vnpay, PayPending, 120)
               && t.books.stock == map[SHELF := 6]
               && t.attempts[33 := t.attempts[33]] == t.attempts && Active(t.attempts[33])
               && (forall a :: a in t.attempts && Active(t.attempts[a]) ==> a == 33)
               && 32 in t.attempts && t.attempts[32].status == TxPaid
  {
    SecondRows();
    hide SecondPaid;
  }

  /** Cancelled after that stale retry, the VNPAY order is paid for and has its 2 copies out for ever. */
  lemma PaidCancelExample()
    ensures var rs := UNTIL_PAID + [CommitStaleRetry(30, PaymentFailed, 33, 102, 20, 900)] + [CancelByCustomer(5, 30)];
            var s := Run(Initial(Opening()), rs);
            && s.orders.Keys == {30} && s.orders[30].status == Cancelled && s.books.stock == map[SHELF := 8]
            && s.payments.Keys == {30} && s.payments[30].paymentMethod == Vnpay
            && 32 in s.attempts && s.attempts[32].status == TxPaid
  {
    hide Apply, Run, SecondPaid, Retried;
    RunsUntilPaid();
    SecondTakes();
    ThirdRows();
    var taken := UNTIL_PAID + [CommitStaleRetry(30, PaymentFailed, 33, 102, 20, 900)];
    RunOn(Initial(Opening()), UNTIL_PAID, CommitStaleRetry(30, PaymentFailed, 33, 102, 20, 900));
    RunOn(Initial(Opening()), taken, CancelByCustomer(5, 30));
    CancellingHold(Retried(SecondPaid(), PaymentFailed, 33, 102, 20), 33);
  }

  lemma StaleStep(s: State, seen: OrderStatus, id: Id, key: Id, now: int)
    ensures Apply(s, CommitStaleRetry(30, seen, id, key, now, 900)) == RetryCommit(s, 30, seen, id, key, now, 900)
  {
    hide RetryCommit;
  }

  function FirstFailed(): State
  {
    CloseAttempt(HoldReleased(VnpayPlaced(), 31), 31, TxFailed, PayFailed)
  }

  function SecondPaid(): State
  {
    var s := Retried(FirstFailed(), PaymentFailed, 32, 101, 10);
    State(s.books, map[30 := OrderIn(Pending, true, false)], map[30 := Payment(Vnpay, PayPaid, 120)],
          s.attempts[32 := AttemptIn(101, TxPaid, 10, false, true)],
          s.history + [StatusChanged(30, Some(PendingPayment), Pending)])
  }

  function Reserved(): State
  {
    State(Write(FirstFailed().books, SHELF, Deducted, -2, FromOrder(32)),
          map[30 := OrderIn(PendingPayment, false, false)],
          map[30 := Payment(Vnpay, PayPending, 120)],
          map[31 := AttemptIn(100, TxFailed, 0, true, false), 32 := AttemptIn(101, TxPending, 10, false, false)],
          FirstFailed().history + [StatusChanged(30, Some(PaymentFailed), PendingPayment)])
  }

  lemma ReservedRows()
    ensures PaymentKnown(FirstFailed(), 30) && SHELF in FirstFailed().books.stock
    ensures Retried(FirstFailed(), PaymentFailed, 32, 101, 10) == Reserved()
    ensures SHELF in Reserved().books.stock && Reserved().books.stock[SHELF] == 8
  {
  }

  lemma SecondPays()
    ensures PaymentKnown(FirstFailed(), 30) && SHELF in FirstFailed().books.stock
    ensures HandleIpn(Retried(FirstFailed(), PaymentFailed, 32, 101, 10), 32, PAID).next == SecondPaid()
  {
    ReservedRows();
    hide FirstFailed, Retried, HandleIpn, SuccessVerdict;
    Paying(Reserved(), 32);
  }

  lemma StaleEntry(s: State)
    requires s == SecondPaid()
    ensures 30 in s.orders && 30 in s.payments && SHELF in s.books.stock
    ensures !Chained(Retried(s, PaymentFailed, 33, 102, 20).history)
  {
    var history := Retried(s, PaymentFailed, 33, 102, 20).history;
    assert history[..|s.history|] == s.history;
    assert Replay(s.history, 30) == Some(Pending);
    assert history[|s.history|].from == Some(PaymentFailed);
  }
}
