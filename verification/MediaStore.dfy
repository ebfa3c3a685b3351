/**
 The media table behind the repository (product-media.repository.ts), changed row by row. Its partial unique
 indexes, one primary row per gallery, are demanded of every single write.
 */
module MediaStore {
  import opened Wrappers
  import opened Collections
  import opened MediaGallery
  import Sorting
  import Text

  function Position(rows: Rows, id: string): nat
  {
    if id in rows then rows[id].sortOrder else 0
  }

  predicate NotAfter(rows: Rows, a: string, b: string)
  {
    Position(rows, a) < Position(rows, b) || (Position(rows, a) == Position(rows, b) && Text.Le(a, b))
  }

  lemma ListingOrder(rows: Rows)
    ensures Sorting.TotalPreorder((a, b) => NotAfter(rows, a, b))
  {
    forall a, b ensures NotAfter(rows, a, b) || NotAfter(rows, b, a) {
      Text.LeTotal(a, b);
    }
    forall a, b, c | NotAfter(rows, a, b) && NotAfter(rows, b, c) ensures NotAfter(rows, a, c) {
      if Position(rows, a) == Position(rows, b) == Position(rows, c) {
        Text.LeTransitive(a, b, c);
      }
    }
  }

  /** Each row of a gallery once, in the order of every listing. */
  ghost predicate Lists(rows: Rows, gallery: set<string>, ids: seq<string>)
  {
    && Distinct(ids) && SetOf(ids) == gallery
    && (forall i, j :: 0 <= i < j < |ids| ==> Precedes(rows, ids[i], ids[j]))
  }

  lemma SortedLists(rows: Rows, gallery: set<string>, ids: seq<string>)
    requires forall id :: id in gallery ==> id in rows
    requires Distinct(ids) && SetOf(ids) == gallery && Sorting.Sorted((a, b) => NotAfter(rows, a, b), ids)
    ensures Lists(rows, gallery, ids)
  {
    forall i, j | 0 <= i < j < |ids| ensures Precedes(rows, ids[i], ids[j]) {
      assert ids[i] in SetOf(ids) && ids[j] in SetOf(ids);
      assert NotAfter(rows, ids[i], ids[j]);
    }
  }

  lemma InsertedOnce(le: (string, string) -> bool, x: string, ids: seq<string>)
    requires Distinct(ids) && x !in ids
    ensures Distinct(Sorting.Insert(le, x, ids)) && SetOf(Sorting.Insert(le, x, ids)) == SetOf(ids) + {x}
  {
    hide Distinct;
    var longer := Sorting.Insert(le, x, ids);
    Sorting.InsertContents(le, x, ids);
    assert multiset(longer) == multiset(ids + [x]);
    Rearranged(longer, ids + [x]);
    assert (ids + [x])[..|ids|] == ids;
    DistinctFront(ids + [x]);
    SetSize(ids + [x]);
    SetSize(longer);
  }

  /** findMany with its orderBy. */
  method Listing(rows: Rows, gallery: set<string>) returns (ids: seq<string>)
    requires forall id :: id in gallery ==> id in rows
    ensures Lists(rows, gallery, ids)
  {
    ids := [];
    var rest := gallery;
    ListingOrder(rows);
    while rest != {}
      invariant rest <= gallery && SetOf(ids) == gallery - rest && Distinct(ids)
      invariant Sorting.Sorted((a, b) => NotAfter(rows, a, b), ids)
      decreases rest
    {
      hide Sorting.TotalPreorder, Sorting.Insert, Distinct;
      var x :| x in rest;
      assert x !in ids;
      InsertedOnce((a, b) => NotAfter(rows, a, b), x, ids);
      Sorting.InsertSorted((a, b) => NotAfter(rows, a, b), x, ids);
      ids := Sorting.Insert((a, b) => NotAfter(rows, a, b), x, ids);
      rest := rest - {x};
    }
    SortedLists(rows, gallery, ids);
  }

  function Dropped(ids: seq<string>, id: string): seq<string>
  {
    if |ids| == 0 then []
    else if ids[|ids| - 1] == id then Dropped(ids[..|ids| - 1], id)
    else Dropped(ids[..|ids| - 1], id) + [ids[|ids| - 1]]
  }

  lemma ListsFront(rows: Rows, gallery: set<string>, ids: seq<string>)
    requires Lists(rows, gallery, ids) && |ids| > 0
    ensures Lists(rows, SetOf(ids[..|ids| - 1]), ids[..|ids| - 1])
  {
  }

  lemma ListsAppend(rows: Rows, gallery: set<string>, ids: seq<string>, last: string)
    requires Lists(rows, gallery, ids) && last !in gallery && forall id :: id in gallery ==> Precedes(rows, id, last)
    ensures Lists(rows, gallery + {last}, ids + [last])
  {
    hide Precedes;
    var longer := ids + [last];
    assert longer[..|ids|] == ids;
    assert forall i :: 0 <= i < |ids| ==> ids[i] in SetOf(ids);
  }

  lemma LastFollows(rows: Rows, gallery: set<string>, ids: seq<string>, id: string)
    requires Lists(rows, gallery, ids) && |ids| > 0 && id in SetOf(ids[..|ids| - 1])
    ensures Precedes(rows, id, ids[|ids| - 1]) && id != ids[|ids| - 1]
  {
    var i :| 0 <= i < |ids| - 1 && ids[i] == id;
  }

  lemma {:induction false} DroppedLists(rows: Rows, gallery: set<string>, ids: seq<string>, id: string)
    requires Lists(rows, gallery, ids)
    ensures Lists(rows, gallery - {id}, Dropped(ids, id))
    decreases |ids|
  {
    if |ids| == 0 {
      assert gallery - {id} == gallery;
    } else {
      hide Precedes, Distinct;
      var front, last := ids[..|ids| - 1], ids[|ids| - 1];
      ListsFront(rows, gallery, ids);
      DroppedLists(rows, SetOf(front), front, id);
      forall other | other in SetOf(front) ensures Precedes(rows, other, last) && other != last {
        LastFollows(rows, gallery, ids, other);
      }
      hide Lists;
      assert gallery == SetOf(ids) == SetOf(front) + {last};
      if last != id {
        ListsAppend(rows, SetOf(front) - {id}, Dropped(front, id), last);
        assert gallery - {id} == SetOf(front) - {id} + {last};
      } else {
        assert gallery - {id} == SetOf(front) - {id};
      }
    }
  }

  lemma EarlierIsBefore(rows: Rows, gallery: set<string>, ids: seq<string>, k: nat, j: nat)
    requires Lists(rows, gallery, ids) && j < k < |ids|
    ensures ids[j] in Before(rows, gallery, ids[k])
  {
    hide Precedes;
    assert ids[j] in SetOf(ids);
  }

  lemma BeforeIsEarlier(rows: Rows, gallery: set<string>, ids: seq<string>, k: nat, other: string)
    requires Lists(rows, gallery, ids) && k < |ids| && other in Before(rows, gallery, ids[k])
    ensures other in ids[..k]
  {
    assert other in SetOf(ids);
    var j :| 0 <= j < |ids| && ids[j] == other;
    PrecedesOrders(rows, ids[j], ids[k]);
    hide Precedes;
    assert j < k;
    assert ids[..k][j] == other;
  }

  /** The place in a listing is the rank. */
  lemma PlaceIsRank(rows: Rows, gallery: set<string>, ids: seq<string>, k: nat)
    requires Lists(rows, gallery, ids) && k < |ids|
    ensures Rank(rows, gallery, ids[k]) == k
  {
    hide Precedes;
    var before := ids[..k];
    assert Distinct(before);
    SetSize(before);
    forall other ensures other in Before(rows, gallery, ids[k]) <==> other in SetOf(before) {
      if other in Before(rows, gallery, ids[k]) {
        BeforeIsEarlier(rows, gallery, ids, k, other);
      }
      if other in SetOf(before) {
        var j :| 0 <= j < |before| && before[j] == other;
        EarlierIsBefore(rows, gallery, ids, k, j);
      }
    }
    assert Before(rows, gallery, ids[k]) == SetOf(before);
  }

  /** The rows after the deletion and the naming of a new primary, before the renumbering. */
  function Unlisted(rows: Rows, id: string, remaining: seq<string>): Rows
    requires id in rows
  {
    var rest := rows - {id};
    if rows[id].isPrimary && |remaining| > 0 && remaining[0] in rest
    then rest[remaining[0] := rest[remaining[0]].(isPrimary := true)] else rest
  }

  lemma ClosedRow(rows: Rows, id: string, remaining: seq<string>, x: string)
    requires id in rows && x in rows && x != id
    requires Lists(rows, Gallery(rows, rows[id].productId, rows[id].variantId) - {id}, remaining)
    ensures Placed(Unlisted(rows, id, remaining), remaining)[x] == Closed(rows, id)[x]
  {
    hide Rank, Placed, Precedes, Distinct;
    var rest := Gallery(rows, rows[id].productId, rows[id].variantId) - {id};
    PlacedRow(Unlisted(rows, id, remaining), remaining, x);
    if |remaining| > 0 {
      assert remaining[0] in SetOf(remaining);
    }
    if x in SetOf(remaining) {
      PlaceIsRank(rows, rest, remaining, LastIndex(remaining, x));
      if LastIndex(remaining, x) > 0 {
        DifferentPlaces(rows, rest, remaining, LastIndex(remaining, x));
      }
    }
  }

  lemma DifferentPlaces(rows: Rows, gallery: set<string>, ids: seq<string>, k: nat)
    requires Lists(rows, gallery, ids) && 0 < k < |ids|
    ensures ids[k] != ids[0]
  {
  }

  /** Deleting, naming a new primary and renumbering the listing is closing the gallery up. */
  lemma ClosedByPlacing(rows: Rows, id: string, remaining: seq<string>)
    requires id in rows
    requires Lists(rows, Gallery(rows, rows[id].productId, rows[id].variantId) - {id}, remaining)
    ensures Placed(Unlisted(rows, id, remaining), remaining) == Closed(rows, id)
  {
    hide Lists, Rank, Placed, Gallery;
    forall x | x in rows && x != id
      ensures Placed(Unlisted(rows, id, remaining), remaining)[x] == Closed(rows, id)[x]
    {
      ClosedRow(rows, id, remaining, x);
    }
    assert Unlisted(rows, id, remaining).Keys == rows.Keys - {id};
    assert Closed(rows, id).Keys == rows.Keys - {id};
  }

  lemma ListingSize(rows: Rows, gallery: set<string>, ids: seq<string>)
    requires Lists(rows, gallery, ids)
    ensures |ids| == |gallery|
  {
    SetSize(ids);
  }

  lemma GalleryRows(rows: Rows, productId: string, variantId: Option<string>)
    ensures forall id :: id in Gallery(rows, productId, variantId) ==> id in rows
  {
  }

  /** The partial unique indexes. */
  ghost predicate IndexHolds(rows: Rows)
  {
    forall a :: a in rows ==> Fits(rows, a, rows[a])
  }

  /** A primary row is the only one of its gallery. */
  ghost predicate Fits(rows: Rows, id: string, m: Media)
  {
    m.isPrimary ==>
      forall x :: x in rows && x != id && rows[x].productId == m.productId && rows[x].variantId == m.variantId ==>
        !rows[x].isPrimary
  }

  lemma InvariantHoldsIndex(s: Shop)
    requires MediaInv(s)
    ensures IndexHolds(s.rows)
  {
    forall a | a in s.rows ensures Fits(s.rows, a, s.rows[a]) {
      var gallery := Gallery(s.rows, s.rows[a].productId, s.rows[a].variantId);
      FineOf(s, s.rows[a].productId, s.rows[a].variantId);
      assert a in gallery;
      if s.rows[a].isPrimary {
        OnlyPrimary(s.rows, gallery, a);
        forall x | x in gallery && s.rows[x].isPrimary ensures x == a {
          assert x in Primaries(s.rows, gallery);
        }
      }
    }
  }

  /** Where the primary row has gone, any other of its gallery may take over. */
  lemma HeirFits(rows: Rows, id: string, heir: string)
    requires IndexHolds(rows) && id in rows && rows[id].isPrimary
    requires heir in Gallery(rows, rows[id].productId, rows[id].variantId)
    ensures Fits(rows - {id}, heir, rows[heir].(isPrimary := true))
  {
    assert Fits(rows, id, rows[id]);
  }

  class MediaTable {
    var rows: Rows
    var products: map<string, Product>

    ghost function Current(): Shop
      reads this
    {
      Shop(rows, products)
    }

    ghost predicate Valid()
      reads this
    {
      MediaInv(Current())
    }

    constructor (products: map<string, Product>)
      requires forall p :: p in products ==> products[p].status != Active
      ensures Valid() && Current() == Shop(map[], products)
    {
      rows := map[];
      this.products := products;
      new;
      NoMediaIsFine(Current());
    }

    method WriteRow(id: string, m: Media)
      requires IndexHolds(rows) && Fits(rows, id, m)
      modifies this`rows
      ensures IndexHolds(rows) && rows == old(rows)[id := m]
    {
      ghost var start := rows;
      rows := rows[id := m];
      forall a | a in rows ensures Fits(rows, a, rows[a]) {
        assert a != id ==> Fits(start, a, start[a]);
      }
    }

    /** updateMany: the gallery has no primary row any more. */
    method Unmark(gallery: set<string>)
      requires IndexHolds(rows)
      modifies this`rows
      ensures IndexHolds(rows) && rows == Unmarked(old(rows), gallery)
    {
      ghost var start := rows;
      rows := Unmarked(rows, gallery);
      forall a | a in rows ensures Fits(rows, a, rows[a]) {
        assert Fits(start, a, start[a]);
      }
    }

    method Drop(id: string)
      requires IndexHolds(rows)
      modifies this`rows
      ensures IndexHolds(rows) && rows == old(rows) - {id}
    {
      ghost var start := rows;
      rows := rows - {id};
      forall a | a in rows ensures Fits(rows, a, rows[a]) {
        assert Fits(start, a, start[a]);
      }
    }

    /** The updates of Promise.all, one row each. */
    method PlaceAll(ids: seq<string>)
      requires IndexHolds(rows) && forall id :: id in ids ==> id in rows
      modifies this`rows
      ensures IndexHolds(rows) && rows == Placed(old(rows), ids)
    {
      ghost var start := rows;
      for k := 0 to |ids|
        invariant IndexHolds(rows) && rows == Placed(start, ids[..k])
      {
        assert ids[..k + 1][..k] == ids[..k];
        assert Fits(rows, ids[k], rows[ids[k]]);
        WriteRow(ids[k], rows[ids[k]].(sortOrder := k));
      }
      assert ids[..|ids|] == ids;
    }

    method AddMedia(id: string, productId: string, variantId: Option<string>, isPrimary: bool) returns (reply: string)
      requires Valid()
      modifies this`rows
      ensures Valid() && Step(Current(), reply) == Create(old(Current()), id, productId, variantId, isPrimary)
    {
      CreateKeeps(Current(), id, productId, variantId, isPrimary);
      InvariantHoldsIndex(Current());
      hide MediaInv;
      var fault := CheckScope(Shop(rows, products), productId, variantId);
      if fault != "OK" {
        return fault;
      }
      var current := Gallery(rows, productId, variantId);
      if |current| >= Limit(variantId) {
        return "PRODUCT_MEDIA_GALLERY_LIMIT_EXCEEDED";
      }
      if id in rows {
        return "ID_TAKEN";
      }
      var shouldBePrimary := |current| == 0 || isPrimary;
      if shouldBePrimary {
        Unmark(current);
      }
      WriteRow(id, Media(productId, variantId, |current|, shouldBePrimary));
      reply := "OK";
    }

    method MakePrimary(productId: string, id: string) returns (reply: string)
      requires Valid()
      modifies this`rows
      ensures Valid() && Step(Current(), reply) == SetPrimary(old(Current()), productId, id)
    {
      SetPrimaryKeeps(Current(), productId, id);
      InvariantHoldsIndex(Current());
      hide MediaInv;
      if id !in rows || rows[id].productId != productId {
        return "PRODUCT_MEDIA_NOT_FOUND";
      }
      if rows[id].isPrimary {
        return "OK";
      }
      var media := rows[id];
      Unmark(Gallery(rows, productId, media.variantId));
      WriteRow(id, media.(isPrimary := true));
      reply := "OK";
    }

    method ReorderMedia(productId: string, variantId: Option<string>, ids: seq<string>) returns (reply: string)
      requires Valid() && Distinct(ids)
      modifies this`rows
      ensures Valid() && Step(Current(), reply) == Reorder(old(Current()), productId, variantId, ids)
    {
      ReorderKeeps(Current(), productId, variantId, ids);
      InvariantHoldsIndex(Current());
      hide MediaInv, Placed, Distinct;
      var fault := CheckScope(Shop(rows, products), productId, variantId);
      if fault != "OK" {
        return fault;
      }
      var currentIds := Gallery(rows, productId, variantId);
      if |currentIds| != |ids| || exists id :: id in ids && id !in currentIds {
        return "PRODUCT_MEDIA_REORDER_INVALID";
      }
      PlaceAll(ids);
      reply := "OK";
    }

    /** The writes of a deletion: the row goes, the next becomes primary if it was, the rest are renumbered. */
    method CloseUp(id: string, listing: seq<string>)
      requires id in rows
      requires IndexHolds(rows) && Lists(rows, Gallery(rows, rows[id].productId, rows[id].variantId), listing)
      modifies this`rows
      ensures IndexHolds(rows) && rows == Closed(old(rows), id)
    {
      hide Lists, Closed, Placed, Gallery, Fits, IndexHolds;
      ghost var start, gallery := rows, Gallery(rows, rows[id].productId, rows[id].variantId);
      var media, remaining := rows[id], Dropped(listing, id);
      DroppedLists(start, gallery, listing, id);
      ListedMembers(start, gallery - {id}, remaining);
      GalleryRows(start, media.productId, media.variantId);
      Drop(id);
      if media.isPrimary && |remaining| > 0 {
        assert remaining[0] in remaining;
        HeirFits(start, id, remaining[0]);
        WriteRow(remaining[0], rows[remaining[0]].(isPrimary := true));
      }
      PlaceAll(remaining);
      ClosedByPlacing(start, id, remaining);
    }

    method DeleteMedia(productId: string, id: string) returns (reply: string)
      requires Valid()
      modifies this`rows
      ensures Valid() && Step(Current(), reply) == Delete(old(Current()), productId, id)
    {
      DeleteKeeps(Current(), productId, id);
      InvariantHoldsIndex(Current());
      hide MediaInv, Lists, Closed, Gallery;
      if id !in rows || rows[id].productId != productId {
        return "PRODUCT_MEDIA_NOT_FOUND";
      }
      GalleryRows(rows, productId, rows[id].variantId);
      var listing := Listing(rows, Gallery(rows, productId, rows[id].variantId));
      ListingSize(rows, Gallery(rows, productId, rows[id].variantId), listing);
      if rows[id].variantId.None? && |listing| == 1 {
        if productId in products && products[productId].status == Active {
          return "PRODUCT_MEDIA_DELETE_BLOCKED_ACTIVE";
        }
      }
      CloseUp(id, listing);
      reply := "OK";
    }

    method ChangeStatus(productId: string, status: Status, fault: string) returns (reply: string)
      requires Valid()
      modifies this`products
      ensures Valid() && Step(Current(), reply) == UpdateStatus(old(Current()), productId, status, fault)
    {
      UpdateStatusKeeps(Current(), productId, status, fault);
      hide MediaInv, Primaries, HasForeignMedia, HasBadVariantGallery;
      if productId !in products {
        return "PRODUCT_NOT_FOUND";
      }
      if status == Active {
        if fault != "OK" {
          return fault;
        }
        var general := Gallery(rows, productId, None);
        if general == {} {
          return "PRODUCT_MEDIA_REQUIRED";
        }
        if |Primaries(rows, general)| != 1 {
          return "PRODUCT_MEDIA_PRIMARY_REQUIRED";
        }
        if HasForeignMedia(Shop(rows, products), productId) {
          return "PRODUCT_MEDIA_VARIANT_SCOPE_MISMATCH";
        }
        if HasBadVariantGallery(Shop(rows, products), productId) {
          return "PRODUCT_MEDIA_PRIMARY_REQUIRED";
        }
      }
      products := products[productId := products[productId].(status := status)];
      reply := "OK";
    }
  }

  lemma ListedMembers(rows: Rows, gallery: set<string>, ids: seq<string>)
    requires Lists(rows, gallery, ids)
    ensures forall id :: id in ids <==> id in gallery
  {
  }
}
