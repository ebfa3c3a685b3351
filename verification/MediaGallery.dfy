/**
 Product galleries (product-media.repository.ts) and their link to activation (updateStatus in
 products.repository.ts): the steps, the invariant of every gallery, and the exact condition under which
 a reordering keeps it.
 */
module MediaGallery {
  import opened Wrappers
  import opened Collections
  import Text

  datatype Media = Media(productId: string, variantId: Option<string>, sortOrder: nat, isPrimary: bool)

  datatype Status = Draft | Active | Inactive | Discontinued

  datatype Product = Product(status: Status, variants: set<string>)

  type Rows = map<string, Media>

  datatype Shop = Shop(rows: Rows, products: map<string, Product>)

  datatype Step = Step(next: Shop, reply: string)

  const GENERAL_LIMIT: nat := 12
  const VARIANT_LIMIT: nat := 8

  function Limit(variantId: Option<string>): nat
  {
    if variantId.Some? then VARIANT_LIMIT else GENERAL_LIMIT
  }

  /** The ids of one gallery. */
  function Gallery(rows: Rows, productId: string, variantId: Option<string>): set<string>
  {
    set id | id in rows && rows[id].productId == productId && rows[id].variantId == variantId
  }

  /** "OK", or what is wrong with the product and variant of a request. */
  function CheckScope(s: Shop, productId: string, variantId: Option<string>): string
  {
    if productId !in s.products then "PRODUCT_NOT_FOUND"
    else if variantId.Some? && variantId.value !in s.products[productId].variants then
      "PRODUCT_MEDIA_VARIANT_SCOPE_MISMATCH"
    else "OK"
  }

  /** The primary flag is cleared throughout a gallery. */
  function Unmarked(rows: Rows, gallery: set<string>): Rows
  {
    map id | id in rows :: if id in gallery then rows[id].(isPrimary := false) else rows[id]
  }

  /** A gallery with one more row at its end. */
  function Added(rows: Rows, id: string, productId: string, variantId: Option<string>, first: bool): Rows
  {
    var gallery := Gallery(rows, productId, variantId);
    (if first then Unmarked(rows, gallery) else rows)[id := Media(productId, variantId, |gallery|, first)]
  }

  /** A gallery with another primary. */
  function Marked(rows: Rows, id: string): Rows
    requires id in rows
  {
    Unmarked(rows, Gallery(rows, rows[id].productId, rows[id].variantId))[id := rows[id].(isPrimary := true)]
  }

  function Create(s: Shop, id: string, productId: string, variantId: Option<string>, isPrimary: bool): Step
  {
    var gallery := Gallery(s.rows, productId, variantId);
    if CheckScope(s, productId, variantId) != "OK" then Step(s, CheckScope(s, productId, variantId))
    else if |gallery| >= Limit(variantId) then Step(s, "PRODUCT_MEDIA_GALLERY_LIMIT_EXCEEDED")
    else if id in s.rows then Step(s, "ID_TAKEN")
    else Step(s.(rows := Added(s.rows, id, productId, variantId, gallery == {} || isPrimary)), "OK")
  }

  function SetPrimary(s: Shop, productId: string, id: string): Step
  {
    if id !in s.rows || s.rows[id].productId != productId then Step(s, "PRODUCT_MEDIA_NOT_FOUND")
    else if s.rows[id].isPrimary then Step(s, "OK")
    else Step(s.(rows := Marked(s.rows, id)), "OK")
  }

  /** Each listed row gets its position, a repeated one its last. */
  function Placed(rows: Rows, ids: seq<string>): (placed: Rows)
    ensures placed.Keys == rows.Keys
  {
    if |ids| == 0 then rows
    else
      var before, last := Placed(rows, ids[..|ids| - 1]), ids[|ids| - 1];
      if last in rows then before[last := before[last].(sortOrder := |ids| - 1)] else before
  }

  function Reorder(s: Shop, productId: string, variantId: Option<string>, ids: seq<string>): Step
  {
    var gallery := Gallery(s.rows, productId, variantId);
    if CheckScope(s, productId, variantId) != "OK" then Step(s, CheckScope(s, productId, variantId))
    else if |gallery| != |ids| || exists id :: id in ids && id !in gallery then Step(s, "PRODUCT_MEDIA_REORDER_INVALID")
    else Step(s.(rows := Placed(s.rows, ids)), "OK")
  }

  /** The order of every listing: by position, then by id. */
  predicate Precedes(rows: Rows, a: string, b: string)
  {
    a in rows && b in rows && a != b &&
    (rows[a].sortOrder < rows[b].sortOrder || (rows[a].sortOrder == rows[b].sortOrder && Text.Le(a, b)))
  }

  /** How many of some rows come before this one. */
  function Rank(rows: Rows, others: set<string>, id: string): nat
  {
    |set other | other in others && Precedes(rows, other, id)|
  }

  /** A gallery without one row: closed up, and with a new primary where that was it. */
  function Closed(rows: Rows, id: string): Rows
    requires id in rows
  {
    var m := rows[id];
    var remaining := Gallery(rows, m.productId, m.variantId) - {id};
    map x | x in rows && x != id ::
      if x in remaining then
        rows[x].(sortOrder := Rank(rows, remaining, x),
                 isPrimary := rows[x].isPrimary || (m.isPrimary && Rank(rows, remaining, x) == 0))
      else rows[x]
  }

  function Delete(s: Shop, productId: string, id: string): Step
  {
    if id !in s.rows || s.rows[id].productId != productId then Step(s, "PRODUCT_MEDIA_NOT_FOUND")
    else if s.rows[id].variantId.None? && |Gallery(s.rows, productId, None)| == 1 &&
            productId in s.products && s.products[productId].status == Active then
      Step(s, "PRODUCT_MEDIA_DELETE_BLOCKED_ACTIVE")
    else Step(s.(rows := Closed(s.rows, id)), "OK")
  }

  function Primaries(rows: Rows, gallery: set<string>): set<string>
  {
    set id | id in gallery && id in rows && rows[id].isPrimary
  }

  predicate HasForeignMedia(s: Shop, productId: string)
    requires productId in s.products
  {
    exists id :: id in s.rows && s.rows[id].productId == productId && s.rows[id].variantId.Some? &&
                 s.rows[id].variantId.value !in s.products[productId].variants
  }

  predicate HasBadVariantGallery(s: Shop, productId: string)
  {
    exists id :: id in s.rows && s.rows[id].productId == productId && s.rows[id].variantId.Some? &&
                 |Primaries(s.rows, Gallery(s.rows, productId, s.rows[id].variantId))| != 1
  }

  /** `fault` stands for the checks on variants, categories and prices that come first. */
  function UpdateStatus(s: Shop, productId: string, status: Status, fault: string): Step
  {
    if productId !in s.products then Step(s, "PRODUCT_NOT_FOUND")
    else
      var general := Gallery(s.rows, productId, None);
      if status == Active && fault != "OK" then Step(s, fault)
      else if status == Active && general == {} then Step(s, "PRODUCT_MEDIA_REQUIRED")
      else if status == Active && |Primaries(s.rows, general)| != 1 then Step(s, "PRODUCT_MEDIA_PRIMARY_REQUIRED")
      else if status == Active && HasForeignMedia(s, productId) then Step(s, "PRODUCT_MEDIA_VARIANT_SCOPE_MISMATCH")
      else if status == Active && HasBadVariantGallery(s, productId) then Step(s, "PRODUCT_MEDIA_PRIMARY_REQUIRED")
      else Step(s.(products := s.products[productId := s.products[productId].(status := status)]), "OK")
  }

  // ---- the invariant

  /** Positions are those of 0 to n-1, each once. */
  ghost predicate Ordered(rows: Rows, gallery: set<string>)
  {
    && (forall a :: a in gallery ==> a in rows && rows[a].sortOrder < |gallery|)
    && (forall a, b :: a in gallery && b in gallery && a != b ==> rows[a].sortOrder != rows[b].sortOrder)
  }

  /** One primary, unless there is nothing. */
  ghost predicate OnePrimary(rows: Rows, gallery: set<string>)
  {
    gallery != {} ==> |Primaries(rows, gallery)| == 1
  }

  ghost predicate GalleryFine(rows: Rows, productId: string, variantId: Option<string>)
  {
    var gallery := Gallery(rows, productId, variantId);
    Ordered(rows, gallery) && OnePrimary(rows, gallery) && |gallery| <= Limit(variantId)
  }

  ghost predicate InScope(s: Shop)
  {
    forall id :: id in s.rows ==> CheckScope(s, s.rows[id].productId, s.rows[id].variantId) == "OK"
  }

  ghost predicate ActiveHasMedia(s: Shop)
  {
    forall p :: p in s.products && s.products[p].status == Active ==> Gallery(s.rows, p, None) != {}
  }

  ghost predicate MediaInv(s: Shop)
  {
    InScope(s) && ActiveHasMedia(s) && forall p, v :: GalleryFine(s.rows, p, v)
  }

  // ---- other galleries are left alone

  /** Only rows of one gallery differ, and they stay in it. */
  ghost predicate OnlyWithin(rows: Rows, after: Rows, productId: string, variantId: Option<string>)
  {
    forall x ::
      (x in rows && x !in Gallery(rows, productId, variantId) ==>
         x in after && x !in Gallery(after, productId, variantId) && after[x] == rows[x]) &&
      (x in after && x !in Gallery(after, productId, variantId) ==>
         x in rows && x !in Gallery(rows, productId, variantId))
  }

  lemma SameGallery(rows: Rows, after: Rows, p: string, v: Option<string>)
    requires GalleryFine(rows, p, v) && Gallery(after, p, v) == Gallery(rows, p, v)
    requires forall x :: x in Gallery(rows, p, v) ==> after[x] == rows[x]
    ensures GalleryFine(after, p, v)
  {
    assert Primaries(after, Gallery(after, p, v)) == Primaries(rows, Gallery(rows, p, v));
  }

  lemma OtherGallery(rows: Rows, after: Rows, productId: string, variantId: Option<string>, p: string,
                     v: Option<string>)
    requires OnlyWithin(rows, after, productId, variantId) && (p != productId || v != variantId)
    ensures Gallery(after, p, v) == Gallery(rows, p, v)
    ensures forall x :: x in Gallery(rows, p, v) ==> after[x] == rows[x]
  {
    forall x ensures x in Gallery(after, p, v) <==> x in Gallery(rows, p, v) {
      assert x in Gallery(rows, p, v) ==> x !in Gallery(rows, productId, variantId);
      assert x in Gallery(after, p, v) ==> x !in Gallery(after, productId, variantId);
    }
    forall x | x in Gallery(rows, p, v) ensures after[x] == rows[x] {
      assert x !in Gallery(rows, productId, variantId);
    }
  }

  /** A step within one gallery that leaves it fine, and not empty for want of media, keeps the invariant. */
  lemma WithinKeeps(s: Shop, after: Rows, productId: string, variantId: Option<string>)
    requires MediaInv(s) && OnlyWithin(s.rows, after, productId, variantId)
    requires CheckScope(s, productId, variantId) == "OK"
    requires GalleryFine(after, productId, variantId)
    requires variantId.None? && productId in s.products && s.products[productId].status == Active ==>
               Gallery(after, productId, variantId) != {}
    ensures MediaInv(s.(rows := after))
  {
    hide GalleryFine;
    var next := s.(rows := after);
    forall p, v ensures GalleryFine(after, p, v) {
      if p != productId || v != variantId {
        OtherGallery(s.rows, after, productId, variantId, p, v);
        SameGallery(s.rows, after, p, v);
      }
    }
    forall p | p in next.products && next.products[p].status == Active ensures Gallery(after, p, None) != {} {
      if p != productId || variantId.Some? {
        OtherGallery(s.rows, after, productId, variantId, p, None);
      }
    }
    forall id | id in after ensures CheckScope(next, after[id].productId, after[id].variantId) == "OK" {
      if id in Gallery(after, productId, variantId) {
        assert CheckScope(next, productId, variantId) == CheckScope(s, productId, variantId);
      } else {
        assert CheckScope(s, s.rows[id].productId, s.rows[id].variantId) == "OK";
      }
    }
  }

  // ---- create and set primary

  lemma SinglePrimary(rows: Rows, gallery: set<string>, id: string)
    requires id in gallery && id in rows && rows[id].isPrimary
    requires forall x :: x in gallery && x in rows && rows[x].isPrimary ==> x == id
    ensures |Primaries(rows, gallery)| == 1
  {
    assert Primaries(rows, gallery) == {id};
  }

  lemma AddedWithin(rows: Rows, id: string, productId: string, variantId: Option<string>, first: bool)
    requires id !in rows
    ensures var after := Added(rows, id, productId, variantId, first);
            OnlyWithin(rows, after, productId, variantId) &&
            Gallery(after, productId, variantId) == Gallery(rows, productId, variantId) + {id}
  {
  }

  lemma AddedFine(rows: Rows, id: string, productId: string, variantId: Option<string>, first: bool)
    requires id !in rows && GalleryFine(rows, productId, variantId)
    requires Gallery(rows, productId, variantId) == {} ==> first
    requires |Gallery(rows, productId, variantId)| < Limit(variantId)
    ensures GalleryFine(Added(rows, id, productId, variantId, first), productId, variantId)
  {
    var after, gallery := Added(rows, id, productId, variantId, first), Gallery(rows, productId, variantId);
    AddedWithin(rows, id, productId, variantId, first);
    hide OnlyWithin;
    assert |gallery + {id}| == |gallery| + 1;
    if first {
      SinglePrimary(after, gallery + {id}, id);
    } else {
      assert Primaries(after, gallery + {id}) == Primaries(rows, gallery);
    }
  }

  lemma CreateKeeps(s: Shop, id: string, productId: string, variantId: Option<string>, isPrimary: bool)
    requires MediaInv(s)
    ensures MediaInv(Create(s, id, productId, variantId, isPrimary).next)
  {
    var first := Gallery(s.rows, productId, variantId) == {} || isPrimary;
    FineOf(s, productId, variantId);
    if Create(s, id, productId, variantId, isPrimary).reply == "OK" && id !in s.rows {
      hide MediaInv, Added, GalleryFine, OnlyWithin;
      AddedWithin(s.rows, id, productId, variantId, first);
      AddedFine(s.rows, id, productId, variantId, first);
      WithinKeeps(s, Added(s.rows, id, productId, variantId, first), productId, variantId);
    }
  }

  lemma FineOf(s: Shop, productId: string, variantId: Option<string>)
    requires MediaInv(s)
    ensures GalleryFine(s.rows, productId, variantId)
  {
  }

  lemma ScopeOf(s: Shop, id: string)
    requires MediaInv(s) && id in s.rows
    ensures CheckScope(s, s.rows[id].productId, s.rows[id].variantId) == "OK"
  {
  }

  lemma MarkedWithin(rows: Rows, id: string)
    requires id in rows
    ensures var after, m := Marked(rows, id), rows[id];
            OnlyWithin(rows, after, m.productId, m.variantId) &&
            Gallery(after, m.productId, m.variantId) == Gallery(rows, m.productId, m.variantId)
  {
  }

  lemma MarkedFine(rows: Rows, id: string)
    requires id in rows && GalleryFine(rows, rows[id].productId, rows[id].variantId)
    ensures GalleryFine(Marked(rows, id), rows[id].productId, rows[id].variantId)
  {
    var after, gallery := Marked(rows, id), Gallery(rows, rows[id].productId, rows[id].variantId);
    MarkedWithin(rows, id);
    hide OnlyWithin;
    SinglePrimary(after, gallery, id);
  }

  lemma SetPrimaryKeeps(s: Shop, productId: string, id: string)
    requires MediaInv(s)
    ensures MediaInv(SetPrimary(s, productId, id).next)
  {
    if id in s.rows && s.rows[id].productId == productId && !s.rows[id].isPrimary {
      FineOf(s, productId, s.rows[id].variantId);
      ScopeOf(s, id);
      hide MediaInv, Marked, GalleryFine, OnlyWithin;
      MarkedWithin(s.rows, id);
      MarkedFine(s.rows, id);
      assert id in Gallery(s.rows, productId, s.rows[id].variantId);
      WithinKeeps(s, Marked(s.rows, id), productId, s.rows[id].variantId);
    }
  }

  // ---- reorder

  function LastIndex(ids: seq<string>, id: string): (k: nat)
    requires id in ids
    ensures k < |ids| && ids[k] == id
    ensures forall j :: k < j < |ids| ==> ids[j] != id
  {
    if ids[|ids| - 1] == id then |ids| - 1 else LastIndex(ids[..|ids| - 1], id)
  }

  lemma {:induction false} PlacedRow(rows: Rows, ids: seq<string>, x: string)
    requires x in rows
    ensures Placed(rows, ids)[x] == if x in ids then rows[x].(sortOrder := LastIndex(ids, x)) else rows[x]
  {
    if |ids| > 0 {
      PlacedRow(rows, ids[..|ids| - 1], x);
    }
  }

  lemma PlacedWithin(rows: Rows, productId: string, variantId: Option<string>, ids: seq<string>)
    requires forall id :: id in ids ==> id in Gallery(rows, productId, variantId)
    ensures OnlyWithin(rows, Placed(rows, ids), productId, variantId)
    ensures Gallery(Placed(rows, ids), productId, variantId) == Gallery(rows, productId, variantId)
    ensures Primaries(Placed(rows, ids), Gallery(rows, productId, variantId)) ==
            Primaries(rows, Gallery(rows, productId, variantId))
  {
    hide Placed;
    forall x | x in rows
      ensures Placed(rows, ids)[x] == if x in ids then rows[x].(sortOrder := LastIndex(ids, x)) else rows[x]
    {
      PlacedRow(rows, ids, x);
    }
  }

  /** A position that no later entry of the list takes over. */
  predicate IsLast(ids: seq<string>, k: nat)
    requires k < |ids|
  {
    LastIndex(ids, ids[k]) == k
  }

  /**
   An accepted reordering leaves the positions in order exactly when no row it fails to name holds a
   position that a named row ends up with.
   */
  lemma ReorderExactly(rows: Rows, gallery: set<string>, ids: seq<string>)
    requires Ordered(rows, gallery) && |gallery| == |ids| && forall id :: id in ids ==> id in gallery
    ensures Ordered(Placed(rows, ids), gallery) <==>
            forall x :: x in gallery && x !in ids ==> !IsLast(ids, rows[x].sortOrder)
  {
    hide Placed;
    var after := Placed(rows, ids);
    forall x | x in gallery
      ensures after[x] == if x in ids then rows[x].(sortOrder := LastIndex(ids, x)) else rows[x]
    {
      PlacedRow(rows, ids, x);
    }
    if x :| x in gallery && x !in ids && IsLast(ids, rows[x].sortOrder) {
      var y := ids[rows[x].sortOrder];
      assert y in gallery && after[y].sortOrder == after[x].sortOrder;
    }
  }

  /** Naming every row once is enough. */
  lemma DistinctReorder(rows: Rows, gallery: set<string>, ids: seq<string>)
    requires Ordered(rows, gallery) && |gallery| == |ids| && (forall id :: id in ids ==> id in gallery)
    requires Distinct(ids)
    ensures Ordered(Placed(rows, ids), gallery)
  {
    hide Placed, Distinct;
    SetSize(ids);
    assert SetOf(ids) <= gallery;
    SubsetOfSameSize(SetOf(ids), gallery);
    ReorderExactly(rows, gallery, ids);
  }

  /** What the validation of distinct ids is for: a row named twice would let another share its position. */
  lemma RepeatedReorder(rows: Rows, a: string, b: string)
    requires a != b && rows == map[a := Media("p", None, 0, true), b := Media("p", None, 1, false)]
    ensures var ids := [a, a];
            Ordered(rows, {a, b}) && |{a, b}| == |ids| && !Ordered(Placed(rows, ids), {a, b})
  {
    ReorderExactly(rows, {a, b}, [a, a]);
    assert IsLast([a, a], 1);
  }

  lemma ReorderKeeps(s: Shop, productId: string, variantId: Option<string>, ids: seq<string>)
    requires MediaInv(s) && Distinct(ids)
    ensures MediaInv(Reorder(s, productId, variantId, ids).next)
  {
    var gallery := Gallery(s.rows, productId, variantId);
    FineOf(s, productId, variantId);
    if Reorder(s, productId, variantId, ids).reply == "OK" && |gallery| == |ids| &&
       (forall id :: id in ids ==> id in gallery)
    {
      var after := Placed(s.rows, ids);
      PlacedWithin(s.rows, productId, variantId, ids);
      DistinctReorder(s.rows, gallery, ids);
      EmptyStays(s, productId, variantId);
      hide MediaInv, Placed, OnlyWithin, Ordered;
      WithinKeeps(s, after, productId, variantId);
    }
  }

  lemma EmptyStays(s: Shop, productId: string, variantId: Option<string>)
    requires MediaInv(s)
    ensures variantId.None? && productId in s.products && s.products[productId].status == Active ==>
              Gallery(s.rows, productId, variantId) != {}
  {
  }

  // ---- delete

  ghost function Before(rows: Rows, others: set<string>, x: string): set<string>
  {
    set other | other in others && Precedes(rows, other, x)
  }

  lemma PrecedesOrders(rows: Rows, a: string, b: string)
    requires a in rows && b in rows && a != b
    ensures Precedes(rows, a, b) != Precedes(rows, b, a)
  {
    Text.LeTotal(a, b);
  }

  lemma PrecedesChains(rows: Rows, a: string, b: string, c: string)
    requires Precedes(rows, a, b) && Precedes(rows, b, c)
    ensures Precedes(rows, a, c)
  {
    PrecedesOrders(rows, a, b);
    if rows[a].sortOrder == rows[b].sortOrder == rows[c].sortOrder {
      Text.LeTransitive(a, b, c);
    }
  }

  lemma RankBound(rows: Rows, others: set<string>, x: string)
    requires x in others
    ensures Rank(rows, others, x) < |others|
  {
    SubsetSize(Before(rows, others, x), others - {x});
  }

  lemma RankGrows(rows: Rows, others: set<string>, x: string, y: string)
    requires x in others && Precedes(rows, x, y)
    ensures Rank(rows, others, x) < Rank(rows, others, y)
  {
    forall z | z in Before(rows, others, x) ensures z in Before(rows, others, y) - {x} {
      PrecedesChains(rows, z, x, y);
    }
    SubsetSize(Before(rows, others, x), Before(rows, others, y) - {x});
  }

  lemma RanksDiffer(rows: Rows, others: set<string>, x: string, y: string)
    requires x in others && y in others && x in rows && y in rows && x != y
    ensures Rank(rows, others, x) != Rank(rows, others, y)
  {
    hide Rank;
    PrecedesOrders(rows, x, y);
    if Precedes(rows, x, y) {
      RankGrows(rows, others, x, y);
    } else {
      RankGrows(rows, others, y, x);
    }
  }

  /** Some row comes first. */
  lemma {:induction false} FirstOf(rows: Rows, others: set<string>, x: string) returns (first: string)
    requires x in others && forall y :: y in others ==> y in rows
    ensures first in others && Rank(rows, others, first) == 0
    decreases Rank(rows, others, x)
  {
    if Rank(rows, others, x) == 0 {
      first := x;
    } else {
      assert Rank(rows, others, x) == |Before(rows, others, x)|;
      var y :| y in others && Precedes(rows, y, x);
      RankGrows(rows, others, y, x);
      first := FirstOf(rows, others, y);
    }
  }

  lemma ClosedWithin(rows: Rows, id: string)
    requires id in rows
    ensures var after, m := Closed(rows, id), rows[id];
            OnlyWithin(rows, after, m.productId, m.variantId) &&
            Gallery(after, m.productId, m.variantId) == Gallery(rows, m.productId, m.variantId) - {id}
  {
    hide Rank;
  }

  lemma ClosedOrdered(rows: Rows, id: string)
    requires id in rows
    ensures var m := rows[id]; Ordered(Closed(rows, id), Gallery(rows, m.productId, m.variantId) - {id})
  {
    hide Rank;
    var remaining := Gallery(rows, rows[id].productId, rows[id].variantId) - {id};
    forall x | x in remaining ensures Rank(rows, remaining, x) < |remaining| {
      RankBound(rows, remaining, x);
    }
    forall x, y | x in remaining && y in remaining && x != y
      ensures Rank(rows, remaining, x) != Rank(rows, remaining, y)
    {
      RanksDiffer(rows, remaining, x, y);
    }
  }

  lemma OnlyPrimary(rows: Rows, gallery: set<string>, id: string)
    requires |Primaries(rows, gallery)| == 1 && id in gallery && id in rows && rows[id].isPrimary
    ensures Primaries(rows, gallery) == {id}
  {
    SubsetOfSameSize({id}, Primaries(rows, gallery));
  }

  /** The one primary row is the one that comes first. */
  ghost predicate FirstIsPrimary(rows: Rows, after: Rows, remaining: set<string>)
  {
    exists first :: first in remaining && Rank(rows, remaining, first) == 0 && Primaries(after, remaining) == {first}
  }

  /** The primary that goes is replaced by the row that comes first; otherwise it stays. */
  lemma ClosedPrimary(rows: Rows, id: string)
    requires id in rows && OnePrimary(rows, Gallery(rows, rows[id].productId, rows[id].variantId))
    ensures var gallery := Gallery(rows, rows[id].productId, rows[id].variantId);
            var after, remaining := Closed(rows, id), gallery - {id};
            && OnePrimary(after, remaining)
            && (rows[id].isPrimary && remaining != {} ==> FirstIsPrimary(rows, after, remaining))
            && (!rows[id].isPrimary ==> Primaries(after, remaining) == Primaries(rows, gallery))
  {
    hide Rank;
    var gallery := Gallery(rows, rows[id].productId, rows[id].variantId);
    var after, remaining := Closed(rows, id), gallery - {id};
    assert id in gallery;
    if rows[id].isPrimary {
      OnlyPrimary(rows, gallery, id);
      if x :| x in remaining {
        var first := FirstOf(rows, remaining, x);
        forall y | y in remaining && after[y].isPrimary ensures y == first {
          assert y !in Primaries(rows, gallery);
          if y != first {
            RanksDiffer(rows, remaining, y, first);
          }
        }
        SinglePrimary(after, remaining, first);
        OnlyPrimary(after, remaining, first);
      }
    } else {
      assert Primaries(after, remaining) == Primaries(rows, gallery);
    }
  }

  lemma DeleteKeeps(s: Shop, productId: string, id: string)
    requires MediaInv(s)
    ensures MediaInv(Delete(s, productId, id).next)
  {
    if id in s.rows && s.rows[id].productId == productId && Delete(s, productId, id).reply == "OK" {
      var variantId := s.rows[id].variantId;
      var gallery := Gallery(s.rows, productId, variantId);
      FineOf(s, productId, variantId);
      ScopeOf(s, id);
      hide MediaInv, Closed, OnlyWithin, Ordered, OnePrimary;
      ClosedWithin(s.rows, id);
      ClosedOrdered(s.rows, id);
      ClosedPrimary(s.rows, id);
      assert id in gallery && |gallery - {id}| == |gallery| - 1;
      WithinKeeps(s, Closed(s.rows, id), productId, variantId);
    }
  }

  // ---- activation

  /**
   In a good state the checks on primaries and scope are dead: only the earlier checks and an empty gallery refuse.
   */
  lemma ActivationExactly(s: Shop, productId: string, fault: string)
    requires MediaInv(s) && productId in s.products
    ensures UpdateStatus(s, productId, Active, fault).reply ==
            if fault != "OK" then fault
            else if Gallery(s.rows, productId, None) == {} then "PRODUCT_MEDIA_REQUIRED"
            else "OK"
  {
    FineOf(s, productId, None);
    forall id | id in s.rows && s.rows[id].productId == productId && s.rows[id].variantId.Some?
      ensures s.rows[id].variantId.value in s.products[productId].variants
      ensures |Primaries(s.rows, Gallery(s.rows, productId, s.rows[id].variantId))| == 1
    {
      ScopeOf(s, id);
      FineOf(s, productId, s.rows[id].variantId);
      assert id in Gallery(s.rows, productId, s.rows[id].variantId);
    }
  }

  lemma UpdateStatusKeeps(s: Shop, productId: string, status: Status, fault: string)
    requires MediaInv(s)
    ensures MediaInv(UpdateStatus(s, productId, status, fault).next)
  {
    hide GalleryFine, Primaries, HasForeignMedia, HasBadVariantGallery;
    var next := UpdateStatus(s, productId, status, fault).next;
    forall id | id in next.rows ensures CheckScope(next, next.rows[id].productId, next.rows[id].variantId) == "OK" {
      assert CheckScope(s, s.rows[id].productId, s.rows[id].variantId) == "OK";
    }
  }

  // ---- runs

  datatype Request =
    | CreateMedia(id: string, productId: string, variantId: Option<string>, isPrimary: bool)
    | MakePrimary(productId: string, id: string)
    | ReorderMedia(productId: string, variantId: Option<string>, ids: seq<string>)
    | DeleteMedia(productId: string, id: string)
    | ChangeStatus(productId: string, status: Status, fault: string)

  function Apply(s: Shop, r: Request): Step
  {
    match r
    case CreateMedia(id, productId, variantId, isPrimary) => Create(s, id, productId, variantId, isPrimary)
    case MakePrimary(productId, id) => SetPrimary(s, productId, id)
    case ReorderMedia(productId, variantId, ids) => Reorder(s, productId, variantId, ids)
    case DeleteMedia(productId, id) => Delete(s, productId, id)
    case ChangeStatus(productId, status, fault) => UpdateStatus(s, productId, status, fault)
  }

  function Run(s: Shop, requests: seq<Request>): Shop
  {
    if |requests| == 0 then s else Apply(Run(s, requests[..|requests| - 1]), requests[|requests| - 1]).next
  }

  /** The request names no row twice in a reordering, as its validation demands. */
  ghost predicate Validated(r: Request)
  {
    r.ReorderMedia? ==> Distinct(r.ids)
  }

  lemma MediaRequestKeeps(s: Shop, r: Request)
    requires MediaInv(s) && Validated(r)
    ensures MediaInv(Apply(s, r).next)
  {
    hide MediaInv, Create, SetPrimary, Reorder, Delete, UpdateStatus;
    match r
    case CreateMedia(id, productId, variantId, isPrimary) => CreateKeeps(s, id, productId, variantId, isPrimary);
    case MakePrimary(productId, id) => SetPrimaryKeeps(s, productId, id);
    case ReorderMedia(productId, variantId, ids) => ReorderKeeps(s, productId, variantId, ids);
    case DeleteMedia(productId, id) => DeleteKeeps(s, productId, id);
    case ChangeStatus(productId, status, fault) => UpdateStatusKeeps(s, productId, status, fault);
  }

  /** Every run of gallery operations and status changes keeps every gallery fine and every active product pictured. */
  lemma {:induction false} EveryRunKeepsMedia(s: Shop, requests: seq<Request>)
    requires MediaInv(s) && forall i :: 0 <= i < |requests| ==> Validated(requests[i])
    ensures MediaInv(Run(s, requests))
  {
    hide MediaInv, Apply, Validated;
    if |requests| > 0 {
      EveryRunKeepsMedia(s, requests[..|requests| - 1]);
      MediaRequestKeeps(Run(s, requests[..|requests| - 1]), requests[|requests| - 1]);
    }
  }

  /** It holds to begin with, where there is no media and no product is active. */
  lemma NoMediaIsFine(s: Shop)
    requires s.rows == map[] && forall p :: p in s.products ==> s.products[p].status != Active
    ensures MediaInv(s)
  {
    forall p, v ensures GalleryFine(s.rows, p, v) {
      assert Gallery(s.rows, p, v) == {};
    }
  }

  /** In a fine gallery every position below its size is taken. */
  lemma EveryPositionTaken(rows: Rows, gallery: set<string>, k: nat)
    requires Ordered(rows, gallery) && k < |gallery|
    ensures exists x :: x in gallery && rows[x].sortOrder == k
  {
    var taken := set x | x in gallery :: rows[x].sortOrder;
    SizeOfImage(rows, gallery);
    SubsetOfSameSize(taken, Below(|gallery|));
    assert k in Below(|gallery|);
  }

  lemma {:induction false} SizeOfImage(rows: Rows, gallery: set<string>)
    requires forall a :: a in gallery ==> a in rows
    requires forall a, b :: a in gallery && b in gallery && a != b ==> rows[a].sortOrder != rows[b].sortOrder
    ensures |set x | x in gallery :: rows[x].sortOrder| == |gallery|
    decreases |gallery|
  {
    var taken := set x | x in gallery :: rows[x].sortOrder;
    if a :| a in gallery {
      SizeOfImage(rows, gallery - {a});
      assert taken == (set x | x in gallery - {a} :: rows[x].sortOrder) + {rows[a].sortOrder};
    } else {
      assert taken == {};
    }
  }

  function Below(n: nat): (below: set<nat>)
    ensures forall k: nat :: k in below <==> k < n
    ensures |below| == n
  {
    if n == 0 then {}
    else
      var rest := Below(n - 1);
      assert n - 1 !in rest;
      rest + {n - 1}
  }
}
