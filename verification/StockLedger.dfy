/**
 Stock rows and the movement ledger: taking the lines of an order out of a branch, putting
 them back, and what that does to every row, to every source and to the ledger's chain.
 */
module StockLedger {
  import opened Wrappers
  import opened OrderTypes

  /** Both counters are 32-bit columns. */
  const MAX_QUANTITY := 0x7fff_ffff

  datatype Books = Books(stock: map<Key, int>, ledger: seq<Movement>)

  // ---- Reading the ledger ----

  /** What the movements of one source have changed on one row. */
  function Net(ledger: seq<Movement>, source: Source, k: Key): int
  {
    if |ledger| == 0 then 0
    else
      var m := ledger[|ledger| - 1];
      Net(ledger[..|ledger| - 1], source, k) + if m.source == source && m.key == k then m.change else 0
  }

  /** What all movements together have changed on one row. */
  function Balance(ledger: seq<Movement>, k: Key): int
  {
    if |ledger| == 0 then 0
    else
      var m := ledger[|ledger| - 1];
      Balance(ledger[..|ledger| - 1], k) + if m.key == k then m.change else 0
  }

  /** The part of Balance written by manual adjustments. */
  function Adjustments(ledger: seq<Movement>, k: Key): int
  {
    if |ledger| == 0 then 0
    else
      var m := ledger[|ledger| - 1];
      Adjustments(ledger[..|ledger| - 1], k) + if m.source.FromAdjustment? && m.key == k then m.change else 0
  }

  /** The quantity of one variant in a list of lines. */
  function Qty(items: seq<Item>, v: VariantId): int
  {
    if |items| == 0 then 0
    else
      var it := items[|items| - 1];
      Qty(items[..|items| - 1], v) + if it.variant == Some(v) then it.quantity else 0
  }

  function QtyAt(branch: Id, items: seq<Item>, k: Key): int
  {
    if k.branch == branch then Qty(items, k.variant) else 0
  }

  predicate Positive(items: seq<Item>)
  {
    forall i :: 0 <= i < |items| ==> items[i].quantity > 0
  }

  predicate DistinctVariants(items: seq<Item>)
  {
    forall i, j :: 0 <= i < j < |items| ==> items[i].variant != items[j].variant
  }

  function At(start: map<Key, int>, k: Key): int
  {
    if k in start then start[k] else 0
  }

  /** One ledger row agrees with everything written before it. */
  ghost predicate Linked(start: map<Key, int>, ledger: seq<Movement>, i: nat)
    requires i < |ledger|
  {
    var m := ledger[i];
    && m.before == At(start, m.key) + Balance(ledger[..i], m.key)
    && m.after == m.before + m.change
    && m.change != 0
    && 0 <= m.before && 0 <= m.after
  }

  /** Stock and ledger tell the same story, and no row is negative or out of range. */
  ghost predicate Sound(start: map<Key, int>, b: Books)
  {
    && start.Keys <= b.stock.Keys
    && (forall k :: k in b.stock ==> 0 <= b.stock[k] <= MAX_QUANTITY)
    && (forall k :: At(b.stock, k) == At(start, k) + Balance(b.ledger, k))
    && (forall i :: 0 <= i < |b.ledger| ==> Linked(start, b.ledger, i))
  }

  ghost predicate NoneOfKind(ledger: seq<Movement>, source: Source, kind: MovementKind)
  {
    forall i :: 0 <= i < |ledger| ==> !(ledger[i].source == source && ledger[i].kind == kind)
  }

  ghost predicate Unused(ledger: seq<Movement>, source: Source)
  {
    forall i :: 0 <= i < |ledger| ==> ledger[i].source != source
  }

  predicate SameSlot(m: Movement, n: Movement)
  {
    m.source == n.source && m.key.variant == n.key.variant && m.kind == n.kind
  }

  /** The unique index (source_type, source_id, variant_id, type) of inventory_movements. */
  ghost predicate IndexHolds(ledger: seq<Movement>)
  {
    forall i, j :: 0 <= i < j < |ledger| ==> !SameSlot(ledger[i], ledger[j])
  }

  // ---- Writing one line ----

  function Write(b: Books, k: Key, kind: MovementKind, change: int, source: Source): Books
    requires k in b.stock
  {
    var before := b.stock[k];
    Books(b.stock[k := before + change], b.ledger + [Movement(k, kind, change, before, before + change, source)])
  }

  /** The compare-and-set decrement of one row and its ledger entry; None when it matches no row. */
  function TakeOne(b: Books, branch: Id, it: Item, source: Source): Option<Books>
  {
    if it.variant.None? then None
    else
      var k := Key(branch, it.variant.value);
      if k !in b.stock || b.stock[k] < it.quantity then None
      else Some(Write(b, k, Deducted, -it.quantity, source))
  }

  /** The increment of one row and its ledger entry; a line without a variant is skipped. */
  function PutOne(b: Books, branch: Id, it: Item, source: Source): Option<Books>
  {
    if it.variant.None? then Some(b)
    else
      var k := Key(branch, it.variant.value);
      if k !in b.stock || b.stock[k] + it.quantity > MAX_QUANTITY then None
      else Some(Write(b, k, Restored, it.quantity, source))
  }

  // ---- Writing all lines of an order ----

  function Deduct(b: Books, branch: Id, items: seq<Item>, source: Source): Option<Books>
  {
    if |items| == 0 then Some(b)
    else
      match Deduct(b, branch, items[..|items| - 1], source)
      case None => None
      case Some(b') => TakeOne(b', branch, items[|items| - 1], source)
  }

  function Restore(b: Books, branch: Id, items: seq<Item>, source: Source): Option<Books>
  {
    if |items| == 0 then Some(b)
    else
      match Restore(b, branch, items[..|items| - 1], source)
      case None => None
      case Some(b') => PutOne(b', branch, items[|items| - 1], source)
  }

  /** A loop that stops at the first line that fails has failed as a whole. */
  lemma {:induction false} DeductStopsEarly(b: Books, branch: Id, items: seq<Item>, source: Source, n: nat)
    requires n <= |items| && Deduct(b, branch, items[..n], source).None?
    ensures Deduct(b, branch, items, source).None?
  {
    if n == |items| {
      assert items[..n] == items;
    } else {
      assert items[..|items| - 1][..n] == items[..n];
      DeductStopsEarly(b, branch, items[..|items| - 1], source, n);
    }
  }

  lemma {:induction false} RestoreStopsEarly(b: Books, branch: Id, items: seq<Item>, source: Source, n: nat)
    requires n <= |items| && Restore(b, branch, items[..n], source).None?
    ensures Restore(b, branch, items, source).None?
  {
    if n == |items| {
      assert items[..n] == items;
    } else {
      assert items[..|items| - 1][..n] == items[..n];
      RestoreStopsEarly(b, branch, items[..|items| - 1], source, n);
    }
  }

  // ---- The order in which a deduction visits the lines ----

  /** Before or equal, with lines that have lost their variant first, as the empty string sorts. */
  predicate Before(a: Item, b: Item)
  {
    a.variant.None? || (b.variant.Some? && a.variant.value <= b.variant.value)
  }

  function InsertItem(it: Item, items: seq<Item>): seq<Item>
  {
    if |items| == 0 then [it]
    else
      var last := items[|items| - 1];
      if Before(last, it) then items + [it]
      else InsertItem(it, items[..|items| - 1]) + [last]
  }

  /** The stable sort by variant id that precedes every deduction. */
  function ByVariant(items: seq<Item>): seq<Item>
  {
    if |items| == 0 then []
    else InsertItem(items[|items| - 1], ByVariant(items[..|items| - 1]))
  }

  predicate Ascending(items: seq<Item>)
  {
    forall i, j :: 0 <= i < j < |items| ==> Before(items[i], items[j])
  }

  lemma {:induction false} InsertQty(it: Item, items: seq<Item>, v: VariantId)
    ensures Qty(InsertItem(it, items), v) == Qty(items, v) + if it.variant == Some(v) then it.quantity else 0
  {
    var r := InsertItem(it, items);
    if |items| == 0 {
      assert r[..0] == [];
    } else if Before(items[|items| - 1], it) {
      assert r[..|r| - 1] == items;
    } else {
      InsertQty(it, items[..|items| - 1], v);
      assert r[..|r| - 1] == InsertItem(it, items[..|items| - 1]);
    }
  }

  lemma {:induction false} InsertContents(it: Item, items: seq<Item>)
    ensures multiset(InsertItem(it, items)) == multiset(items) + multiset{it}
  {
    if |items| > 0 {
      var front, last := items[..|items| - 1], items[|items| - 1];
      assert items == front + [last];
      if !Before(last, it) {
        InsertContents(it, front);
        assert multiset(InsertItem(it, front) + [last]) == multiset(InsertItem(it, front)) + multiset{last};
      }
    }
  }

  lemma {:induction false} InsertAscending(it: Item, items: seq<Item>)
    requires Ascending(items)
    ensures Ascending(InsertItem(it, items))
  {
    if |items| > 0 && !Before(items[|items| - 1], it) {
      var front, last := items[..|items| - 1], items[|items| - 1];
      InsertAscending(it, front);
      InsertContents(it, front);
      var r := InsertItem(it, front);
      forall i | 0 <= i < |r| ensures Before(r[i], last) {
        assert r[i] in multiset(r);
        assert r[i] == it || r[i] in front;
      }
    }
  }

  /** Sorting a basket loses and invents nothing. */
  lemma {:induction false} SortQty(items: seq<Item>, v: VariantId)
    ensures Qty(ByVariant(items), v) == Qty(items, v)
  {
    if |items| > 0 {
      SortQty(items[..|items| - 1], v);
      InsertQty(items[|items| - 1], ByVariant(items[..|items| - 1]), v);
    }
  }

  lemma {:induction false} SortContents(items: seq<Item>)
    ensures multiset(ByVariant(items)) == multiset(items)
    ensures Ascending(ByVariant(items))
    ensures forall it :: it in ByVariant(items) <==> it in items
  {
    if |items| > 0 {
      var front, last := items[..|items| - 1], items[|items| - 1];
      SortContents(front);
      InsertContents(last, ByVariant(front));
      InsertAscending(last, ByVariant(front));
      assert items == front + [last];
    }
    forall it ensures it in ByVariant(items) <==> it in items {
      assert it in multiset(ByVariant(items)) <==> it in multiset(items);
    }
  }

  // ---- Appending to the ledger ----

  /** A deduction visits the lines without a variant first, and then the variants in ascending order. */
  lemma VisitedAscending(items: seq<Item>, i: nat, j: nat)
    requires i < j < |ByVariant(items)|
    ensures ByVariant(items)[j].variant.None? ==> ByVariant(items)[i].variant.None?
    ensures ByVariant(items)[i].variant.Some? && ByVariant(items)[j].variant.Some? ==>
              ByVariant(items)[i].variant.value <= ByVariant(items)[j].variant.value
  {
    SortContents(items);
  }

  lemma Appended(ledger: seq<Movement>, m: Movement)
    ensures forall s, k ::
              Net(ledger + [m], s, k) == Net(ledger, s, k) + if m.source == s && m.key == k then m.change else 0
    ensures forall k :: Balance(ledger + [m], k) == Balance(ledger, k) + if m.key == k then m.change else 0
    ensures forall k :: Adjustments(ledger + [m], k)
                     == Adjustments(ledger, k) + if m.source.FromAdjustment? && m.key == k then m.change else 0
  {
    assert (ledger + [m])[..|ledger|] == ledger;
  }

  lemma WriteKeepsSound(start: map<Key, int>, b: Books, k: Key, kind: MovementKind, change: int, source: Source)
    requires Sound(start, b) && k in b.stock && change != 0
    requires 0 <= b.stock[k] + change <= MAX_QUANTITY
    ensures Sound(start, Write(b, k, kind, change, source))
  {
    var b' := Write(b, k, kind, change, source);
    var m := b'.ledger[|b.ledger|];
    Appended(b.ledger, m);
    assert At(b.stock, k) == At(start, k) + Balance(b.ledger, k);
    forall i | 0 <= i < |b'.ledger| ensures Linked(start, b'.ledger, i) {
      assert b'.ledger[..i] == b.ledger[..i];
      if i < |b.ledger| {
        assert Linked(start, b.ledger, i);
      } else {
        assert b.ledger[..i] == b.ledger;
      }
    }
  }

  // ---- The effect of a whole deduction or restoration ----

  /** Stock and ledger moved by sign times the lines, all of it written under one source. */
  ghost predicate Moved(b: Books, b': Books, branch: Id, items: seq<Item>, source: Source, sign: int)
  {
    && b'.stock.Keys == b.stock.Keys
    && (forall k :: k in b.stock ==> b'.stock[k] == b.stock[k] + sign * QtyAt(branch, items, k))
    && (forall s, k ::
          Net(b'.ledger, s, k) == Net(b.ledger, s, k) + if s == source then sign * QtyAt(branch, items, k) else 0)
    && (forall k :: Balance(b'.ledger, k) == Balance(b.ledger, k) + sign * QtyAt(branch, items, k))
  }

  /** The ledger only grew, by rows of one source and one kind. */
  ghost predicate Grew(b: Books, b': Books, source: Source, kind: MovementKind)
  {
    && |b.ledger| <= |b'.ledger|
    && b'.ledger[..|b.ledger|] == b.ledger
    && (forall i :: |b.ledger| <= i < |b'.ledger| ==> b'.ledger[i].source == source && b'.ledger[i].kind == kind)
  }

  /** One more line written moves the books by one more line. */
  lemma MovedStep(b: Books, mid: Books, branch: Id, items: seq<Item>, source: Source, kind: MovementKind, sign: int)
    requires |items| > 0 && items[|items| - 1].variant.Some?
    requires Moved(b, mid, branch, items[..|items| - 1], source, sign)
    requires Key(branch, items[|items| - 1].variant.value) in mid.stock
    ensures Moved(b, Write(mid, Key(branch, items[|items| - 1].variant.value), kind,
            sign * items[|items| - 1].quantity, source),
                  branch, items, source, sign)
  {
    var front, last := items[..|items| - 1], items[|items| - 1];
    var key := Key(branch, last.variant.value);
    var end := Write(mid, key, kind, sign * last.quantity, source);
    Appended(mid.ledger, end.ledger[|mid.ledger|]);
    assert forall k :: QtyAt(branch, items, k) == QtyAt(branch, front, k) + if k == key then last.quantity else 0;
    assert forall k ::
        sign * QtyAt(branch, items, k) == sign * QtyAt(branch, front, k) + if k == key then sign * last.quantity else 0;
  }

  lemma MovedNothing(b: Books, branch: Id, source: Source, sign: int)
    ensures Moved(b, b, branch, [], source, sign)
  {
    assert forall k :: QtyAt(branch, [], k) == 0;
  }

  lemma {:induction false} DeductMoves(b: Books, branch: Id, items: seq<Item>, source: Source)
    requires Deduct(b, branch, items, source).Some?
    ensures Moved(b, Deduct(b, branch, items, source).value, branch, items, source, -1)
  {
    if |items| == 0 {
      MovedNothing(b, branch, source, -1);
    } else {
      var front, last := items[..|items| - 1], items[|items| - 1];
      DeductMoves(b, branch, front, source);
      var mid := Deduct(b, branch, front, source).value;
      MovedStep(b, mid, branch, items, source, Deducted, -1);
      assert -1 * last.quantity == -last.quantity;
    }
  }

  lemma {:induction false} RestoreMoves(b: Books, branch: Id, items: seq<Item>, source: Source)
    requires Restore(b, branch, items, source).Some?
    ensures Moved(b, Restore(b, branch, items, source).value, branch, items, source, 1)
  {
    if |items| == 0 {
      MovedNothing(b, branch, source, 1);
    } else {
      RestoreMoves(b, branch, items[..|items| - 1], source);
      var mid := Restore(b, branch, items[..|items| - 1], source).value;
      if items[|items| - 1].variant.Some? {
        MovedStep(b, mid, branch, items, source, Restored, 1);
      } else {
        assert forall k :: QtyAt(branch, items, k) == QtyAt(branch, items[..|items| - 1], k);
      }
    }
  }

  lemma {:induction false} DeductKeeps(start: map<Key, int>, b: Books, branch: Id, items: seq<Item>, source: Source)
    requires Positive(items) && Sound(start, b) && Deduct(b, branch, items, source).Some?
    ensures Sound(start, Deduct(b, branch, items, source).value)
  {
    if |items| > 0 {
      var front, last := items[..|items| - 1], items[|items| - 1];
      DeductKeeps(start, b, branch, front, source);
      var mid := Deduct(b, branch, front, source).value;
      WriteKeepsSound(start, mid, Key(branch, last.variant.value), Deducted, -last.quantity, source);
    }
  }

  lemma {:induction false} RestoreKeeps(start: map<Key, int>, b: Books, branch: Id, items: seq<Item>, source: Source)
    requires Positive(items) && Sound(start, b) && Restore(b, branch, items, source).Some?
    ensures Sound(start, Restore(b, branch, items, source).value)
  {
    if |items| > 0 {
      var front, last := items[..|items| - 1], items[|items| - 1];
      RestoreKeeps(start, b, branch, front, source);
      var mid := Restore(b, branch, front, source).value;
      if last.variant.Some? {
        WriteKeepsSound(start, mid, Key(branch, last.variant.value), Restored, last.quantity, source);
      }
    }
  }

  /** Every line was found on a stock row, and the ledger gained one row a line, in that order. */
  lemma {:induction false} DeductRows(b: Books, branch: Id, items: seq<Item>, source: Source)
    requires Deduct(b, branch, items, source).Some?
    ensures forall i :: 0 <= i < |items| ==> items[i].variant.Some? && Key(branch, items[i].variant.value) in b.stock
    ensures Grew(b, Deduct(b, branch, items, source).value, source, Deducted)
    ensures |Deduct(b, branch, items, source).value.ledger| == |b.ledger| + |items|
    ensures forall i :: 0 <= i < |items| ==>
              Deduct(b, branch, items, source).value.ledger[|b.ledger| + i].key.variant == items[i].variant.value
    ensures Deduct(b, branch, items, source).value.stock.Keys == b.stock.Keys
  {
    if |items| > 0 {
      DeductRows(b, branch, items[..|items| - 1], source);
    }
  }

  /** The ledger gained at most one row a line, each for the variant of some line. */
  lemma {:induction false} RestoreRows(b: Books, branch: Id, items: seq<Item>, source: Source)
    requires Restore(b, branch, items, source).Some?
    ensures Grew(b, Restore(b, branch, items, source).value, source, Restored)
    ensures forall i :: |b.ledger| <= i < |Restore(b, branch, items, source).value.ledger| ==>
              Item(Some(Restore(b, branch, items, source).value.ledger[i].key.variant),
                   Restore(b, branch, items, source).value.ledger[i].change) in items
    ensures DistinctVariants(items) && IndexHolds(b.ledger) && NoneOfKind(b.ledger, source, Restored) ==>
              IndexHolds(Restore(b, branch, items, source).value.ledger)
  {
    if |items| > 0 {
      var front := items[..|items| - 1];
      RestoreRows(b, branch, front, source);
      assert items == front + [items[|items| - 1]];
    }
  }

  lemma DeductIndex(b: Books, branch: Id, items: seq<Item>, source: Source)
    requires Deduct(b, branch, items, source).Some?
    requires DistinctVariants(items) && IndexHolds(b.ledger) && NoneOfKind(b.ledger, source, Deducted)
    ensures IndexHolds(Deduct(b, branch, items, source).value.ledger)
  {
    DeductRows(b, branch, items, source);
    var after := Deduct(b, branch, items, source).value.ledger;
    forall i, j | 0 <= i < j < |after| ensures !SameSlot(after[i], after[j]) {
      if i < |b.ledger| {
        assert after[i] == b.ledger[i];
        assert j < |b.ledger| ==> after[j] == b.ledger[j];
      } else {
        var x, y := i - |b.ledger|, j - |b.ledger|;
        assert after[|b.ledger| + x].key.variant == items[x].variant.value;
        assert after[|b.ledger| + y].key.variant == items[y].variant.value;
      }
    }
  }

  /** Every line names a variant that the branch stocks. */
  predicate AllStocked(b: Books, branch: Id, items: seq<Item>)
  {
    forall i :: 0 <= i < |items| ==> items[i].variant.Some? && Key(branch, items[i].variant.value) in b.stock
  }

  /**
   A deduction goes through exactly when every variant is stocked and no row falls short of all its lines together.
   */
  lemma {:induction false} DeductSucceedsExactly(b: Books, branch: Id, items: seq<Item>, source: Source)
    requires Positive(items) && forall k :: k in b.stock ==> b.stock[k] >= 0
    ensures Deduct(b, branch, items, source).Some? <==>
            AllStocked(b, branch, items) && forall k :: k in b.stock ==> QtyAt(branch, items, k) <= b.stock[k]
  {
    if |items| > 0 {
      var front, last := items[..|items| - 1], items[|items| - 1];
      DeductSucceedsExactly(b, branch, front, source);
      assert forall k :: QtyAt(branch, items, k) ==
                         QtyAt(branch, front, k)
                         + if last.variant.Some? && k == Key(branch, last.variant.value) then last.quantity else 0;
      assert AllStocked(b, branch, items) <==>
             AllStocked(b, branch, front) && last.variant.Some? && Key(branch, last.variant.value) in b.stock;
      if Deduct(b, branch, front, source).Some? {
        DeductMoves(b, branch, front, source);
        if last.variant.Some? && Key(branch, last.variant.value) in b.stock {
          var key := Key(branch, last.variant.value);
          assert Deduct(b, branch, front, source).value.stock[key] == b.stock[key] - QtyAt(branch, front, key);
        }
      } else if AllStocked(b, branch, front) {
        var k :| k in b.stock && QtyAt(branch, front, k) > b.stock[k];
        assert QtyAt(branch, items, k) >= QtyAt(branch, front, k);
      }
    }
  }

  /** Putting lines back on rows that exist fails only when a row would leave its column's range. */
  lemma {:induction false} RestoreFailsOnlyOnOverflow(b: Books, branch: Id, items: seq<Item>, source: Source)
    requires forall i :: 0 <= i < |items| && items[i].variant.Some? ==> Key(branch, items[i].variant.value) in b.stock
    requires Positive(items)
    ensures Restore(b, branch, items, source).None? <==>
              exists k :: k in b.stock && QtyAt(branch, items, k) > 0 &&
                b.stock[k] + QtyAt(branch, items, k) > MAX_QUANTITY
  {
    if |items| > 0 {
      var front, last := items[..|items| - 1], items[|items| - 1];
      RestoreFailsOnlyOnOverflow(b, branch, front, source);
      QtyNonNegative(items);
      QtyNonNegative(front);
      if Restore(b, branch, front, source).None? {
        var k :| k in b.stock && QtyAt(branch, front, k) > 0 && b.stock[k] + QtyAt(branch, front, k) > MAX_QUANTITY;
        assert QtyAt(branch, items, k) >= QtyAt(branch, front, k);
      } else {
        RestoreMoves(b, branch, front, source);
        var mid := Restore(b, branch, front, source).value;
        if last.variant.Some? {
          var key := Key(branch, last.variant.value);
          assert mid.stock[key] + last.quantity == b.stock[key] + QtyAt(branch, items, key);
        }
        assert forall k :: (last.variant.None? || k != Key(branch, last.variant.value)) ==>
                 QtyAt(branch, items, k) == QtyAt(branch, front, k);
      }
    } else {
      assert forall k :: QtyAt(branch, items, k) == 0;
    }
  }

  lemma {:induction false} QtyNonNegative(items: seq<Item>)
    requires Positive(items)
    ensures forall v :: Qty(items, v) >= 0
  {
    if |items| > 0 {
      QtyNonNegative(items[..|items| - 1]);
    }
  }

  // ---- Deducting in variant order ----

  lemma SortKeepsQtyAt(branch: Id, items: seq<Item>)
    ensures forall k :: QtyAt(branch, ByVariant(items), k) == QtyAt(branch, items, k)
  {
    forall k ensures QtyAt(branch, ByVariant(items), k) == QtyAt(branch, items, k) {
      SortQty(items, k.variant);
    }
  }

  lemma {:induction false} SortKeepsDistinct(items: seq<Item>)
    requires DistinctVariants(items)
    ensures DistinctVariants(ByVariant(items))
  {
    if |items| > 0 {
      var front, last := items[..|items| - 1], items[|items| - 1];
      SortKeepsDistinct(front);
      SortContents(front);
      forall it | it in ByVariant(front) ensures it.variant != last.variant {
        assert it in front;
      }
      InsertKeepsDistinct(last, ByVariant(front));
    }
  }

  lemma {:induction false} InsertKeepsDistinct(it: Item, items: seq<Item>)
    requires DistinctVariants(items) && forall x :: x in items ==> x.variant != it.variant
    ensures DistinctVariants(InsertItem(it, items))
  {
    if |items| > 0 && !Before(items[|items| - 1], it) {
      var front, last := items[..|items| - 1], items[|items| - 1];
      InsertKeepsDistinct(it, front);
      InsertContents(it, front);
      var r := InsertItem(it, front);
      forall i | 0 <= i < |r| ensures r[i].variant != last.variant {
        assert r[i] in multiset(r);
        assert r[i] == it || r[i] in front;
      }
    }
  }

  /** A whole deduction: the books move by the lines, stay sound, and the index holds. */
  lemma DeductAll(start: map<Key, int>, b: Books, branch: Id, items: seq<Item>, source: Source)
    requires Sound(start, b) && IndexHolds(b.ledger) && Unused(b.ledger, source)
    requires Positive(items) && DistinctVariants(items)
    requires Deduct(b, branch, ByVariant(items), source).Some?
    ensures var b' := Deduct(b, branch, ByVariant(items), source).value;
            && Sound(start, b') && IndexHolds(b'.ledger)
            && Moved(b, b', branch, items, source, -1) && Grew(b, b', source, Deducted)
            && forall i :: 0 <= i < |items| ==> items[i].variant.Some? && Key(branch, items[i].variant.value) in b.stock
  {
    var sorted := ByVariant(items);
    SortContents(items);
    SortKeepsDistinct(items);
    SortKeepsQtyAt(branch, items);
    assert Positive(sorted) by {
      forall i | 0 <= i < |sorted| ensures sorted[i].quantity > 0 {
        assert sorted[i] in items;
      }
    }
    DeductKeeps(start, b, branch, sorted, source);
    DeductMoves(b, branch, sorted, source);
    DeductRows(b, branch, sorted, source);
    DeductIndex(b, branch, sorted, source);
    forall i | 0 <= i < |items| ensures items[i].variant.Some? && Key(branch, items[i].variant.value) in b.stock {
      assert items[i] in sorted;
    }
  }

  /** A whole restoration of lines that no earlier movement of this source has restored. */
  lemma RestoreAll(start: map<Key, int>, b: Books, branch: Id, items: seq<Item>, source: Source)
    requires Sound(start, b) && IndexHolds(b.ledger) && NoneOfKind(b.ledger, source, Restored)
    requires Positive(items) && DistinctVariants(items)
    requires Restore(b, branch, items, source).Some?
    ensures var b' := Restore(b, branch, items, source).value;
            && Sound(start, b') && IndexHolds(b'.ledger)
            && Moved(b, b', branch, items, source, 1) && Grew(b, b', source, Restored)
  {
    RestoreKeeps(start, b, branch, items, source);
    RestoreMoves(b, branch, items, source);
    RestoreRows(b, branch, items, source);
  }
}
