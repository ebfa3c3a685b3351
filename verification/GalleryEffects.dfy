/** What each accepted gallery request leaves in the columns, and exactly when it is accepted. */
module GalleryEffects {
  import opened Wrappers
  import opened Collections
  import opened MediaGallery
  import opened MediaStore

  /** The product is there, and the variant, if one is named, is its own. */
  predicate Fitting(s: Shop, productId: string, variantId: Option<string>)
  {
    productId in s.products && (variantId.Some? ==> variantId.value in s.products[productId].variants)
  }

  predicate Together(a: Media, b: Media)
  {
    a.productId == b.productId && a.variantId == b.variantId
  }

  // ---- create

  /**
   A picture is added exactly to a known gallery with room: twelve for a product, eight for a variant. It
   goes to the end, and is primary if it is the first or is asked to be, which then no other of its gallery is.
   */
  lemma AddsExactly(s: Shop, id: string, productId: string, variantId: Option<string>, isPrimary: bool)
    ensures var gallery := Gallery(s.rows, productId, variantId);
            var step := Create(s, id, productId, variantId, isPrimary);
            && (step.reply == "OK" <==>
                  Fitting(s, productId, variantId) && |gallery| < (if variantId.Some? then 8 else 12) && id !in s.rows)
            && (step.reply != "OK" ==> step.next == s)
    ensures var gallery := Gallery(s.rows, productId, variantId);
            var step := Create(s, id, productId, variantId, isPrimary);
            step.reply == "OK" ==>
              && step.next.products == s.products && step.next.rows.Keys == s.rows.Keys + {id}
              && step.next.rows[id] == Media(productId, variantId, |gallery|, isPrimary || gallery == {})
              && forall x :: x in s.rows ==>
                   step.next.rows[x] == if x in gallery && (isPrimary || gallery == {})
                                        then s.rows[x].(isPrimary := false) else s.rows[x]
  {
  }

  // ---- set primary

  /** The chosen picture becomes the one primary of its gallery; no position and no other gallery changes. */
  lemma ChoosesPrimary(s: Shop, productId: string, id: string)
    requires MediaInv(s)
    ensures var step := SetPrimary(s, productId, id);
            if id !in s.rows || s.rows[id].productId != productId then
              step == Step(s, "PRODUCT_MEDIA_NOT_FOUND")
            else
              && step.reply == "OK" && step.next.products == s.products && step.next.rows.Keys == s.rows.Keys
              && (forall x :: x in s.rows ==>
                    step.next.rows[x] == s.rows[x].(isPrimary :=
                      if Together(s.rows[x], s.rows[id]) then x == id else s.rows[x].isPrimary))
  {
    if id in s.rows && s.rows[id].productId == productId && s.rows[id].isPrimary {
      var gallery := Gallery(s.rows, s.rows[id].productId, s.rows[id].variantId);
      FineOf(s, s.rows[id].productId, s.rows[id].variantId);
      assert id in gallery;
      OnlyPrimary(s.rows, gallery, id);
      hide MediaInv;
      forall x | x in s.rows && Together(s.rows[x], s.rows[id]) ensures s.rows[x].isPrimary <==> x == id {
        assert x in gallery;
        assert x in Primaries(s.rows, gallery) <==> x == id;
      }
    }
  }

  // ---- reorder

  /** The ids are those of the gallery, each once. */
  ghost predicate NamesEach(s: Shop, productId: string, variantId: Option<string>, ids: seq<string>)
  {
    && (forall i, j :: 0 <= i < j < |ids| ==> ids[i] != ids[j])
    && (forall id :: id in ids <==>
          id in s.rows && s.rows[id].productId == productId && s.rows[id].variantId == variantId)
  }

  lemma AcceptedNames(s: Shop, productId: string, variantId: Option<string>, ids: seq<string>)
    requires Distinct(ids)
    ensures |Gallery(s.rows, productId, variantId)| == |ids| &&
            (forall id :: id in ids ==> id in Gallery(s.rows, productId, variantId)) <==>
              NamesEach(s, productId, variantId, ids)
  {
    var gallery := Gallery(s.rows, productId, variantId);
    SetSize(ids);
    if |gallery| == |ids| && forall id :: id in ids ==> id in gallery {
      assert SetOf(ids) <= gallery;
      SubsetOfSameSize(SetOf(ids), gallery);
    }
    if NamesEach(s, productId, variantId, ids) {
      assert SetOf(ids) == gallery;
    }
  }

  /**
   A reordering without repeated ids is accepted exactly when it names every picture of the gallery. Each then
   stands where it was named, and nothing else changes.
   */
  lemma ReordersExactly(s: Shop, productId: string, variantId: Option<string>, ids: seq<string>)
    requires Distinct(ids)
    ensures var step := Reorder(s, productId, variantId, ids);
            && (step.reply == "OK" <==> Fitting(s, productId, variantId) && NamesEach(s, productId, variantId, ids))
            && (step.reply != "OK" ==> step.next == s)
    ensures var step := Reorder(s, productId, variantId, ids);
            step.reply == "OK" ==>
              && step.next.products == s.products && step.next.rows.Keys == s.rows.Keys
              && (forall k :: 0 <= k < |ids| ==>
                    ids[k] in s.rows && step.next.rows[ids[k]] == s.rows[ids[k]].(sortOrder := k))
              && (forall x :: x in s.rows && x !in ids ==> step.next.rows[x] == s.rows[x])
  {
    hide Placed, Distinct;
    AcceptedNames(s, productId, variantId, ids);
    if Reorder(s, productId, variantId, ids).reply == "OK" {
      forall x | x in s.rows
        ensures Placed(s.rows, ids)[x] == if x in ids then s.rows[x].(sortOrder := LastIndex(ids, x)) else s.rows[x]
      {
        PlacedRow(s.rows, ids, x);
      }
    }
  }

  /** Afterwards the gallery is listed as it was asked for. */
  lemma ReorderIsListed(s: Shop, productId: string, variantId: Option<string>, ids: seq<string>)
    requires Distinct(ids) && Reorder(s, productId, variantId, ids).reply == "OK"
    ensures var rows := Reorder(s, productId, variantId, ids).next.rows;
            Lists(rows, Gallery(rows, productId, variantId), ids)
  {
    hide Reorder, Distinct;
    ReordersExactly(s, productId, variantId, ids);
    var rows := Reorder(s, productId, variantId, ids).next.rows;
    forall id ensures id in Gallery(rows, productId, variantId) <==> id in ids {
      if id in rows && id in ids {
        var k :| 0 <= k < |ids| && ids[k] == id;
      }
    }
    assert SetOf(ids) == Gallery(rows, productId, variantId);
  }

  // ---- delete

  /** A picture is deleted exactly if it is the product's and not the last general one of an active product. */
  lemma DeletesExactly(s: Shop, productId: string, id: string)
    ensures var step := Delete(s, productId, id);
            && (step.reply == "OK" <==>
                  && id in s.rows && s.rows[id].productId == productId
                  && !(productId in s.products && s.products[productId].status == Active &&
                       Gallery(s.rows, productId, None) == {id}))
            && (step.reply != "OK" ==> step.next == s)
  {
    if id in s.rows && s.rows[id].productId == productId {
      var general := Gallery(s.rows, productId, None);
      if s.rows[id].variantId.None? && |general| == 1 {
        assert id in general;
        SubsetOfSameSize({id}, general);
      }
    }
  }

  /** The rest of its gallery keeps its order, closed up; other galleries and all other columns stay. */
  lemma DeleteStores(s: Shop, productId: string, id: string)
    requires MediaInv(s) && Delete(s, productId, id).reply == "OK"
    ensures id in s.rows
    ensures var rows := Delete(s, productId, id).next.rows;
            && Delete(s, productId, id).next.products == s.products && rows.Keys == s.rows.Keys - {id}
            && (forall x :: x in rows && !Together(s.rows[x], s.rows[id]) ==> rows[x] == s.rows[x])
            && (forall x :: x in rows && Together(s.rows[x], s.rows[id]) ==>
                  Together(rows[x], s.rows[x]) &&
                  rows[x].sortOrder < |Gallery(s.rows, productId, s.rows[id].variantId)| - 1)
            && (forall x, y ::
                  x in rows && y in rows && Together(s.rows[x], s.rows[id]) && Together(s.rows[y], s.rows[id]) ==>
                  (rows[x].sortOrder < rows[y].sortOrder <==> s.rows[x].sortOrder < s.rows[y].sortOrder))
  {
    var gallery := Gallery(s.rows, productId, s.rows[id].variantId);
    var remaining := gallery - {id};
    var rows := Delete(s, productId, id).next.rows;
    FineOf(s, productId, s.rows[id].variantId);
    ClosedOrdered(s.rows, id);
    hide MediaInv, Rank;
    assert id in gallery;
    forall x, y | x in remaining && y in remaining && s.rows[x].sortOrder < s.rows[y].sortOrder
      ensures rows[x].sortOrder < rows[y].sortOrder
    {
      assert Precedes(s.rows, x, y);
      RankGrows(s.rows, remaining, x, y);
    }
    forall x | x in rows && Together(s.rows[x], s.rows[id]) ensures x in remaining {
    }
    forall x, y | x in remaining && y in remaining && x != y ensures s.rows[x].sortOrder != s.rows[y].sortOrder {
      assert x in gallery && y in gallery;
    }
  }

  // ---- status

  /** A product takes the status asked for, and keeps its variants; no picture and no other product changes. */
  lemma StatusStores(s: Shop, productId: string, status: Status, fault: string)
    ensures var step := UpdateStatus(s, productId, status, fault);
            && (productId in s.products && (status != Active || step.reply == "OK") ==>
                  && step.reply == "OK" && step.next.rows == s.rows && step.next.products.Keys == s.products.Keys
                  && step.next.products[productId].status == status
                  && step.next.products[productId].variants == s.products[productId].variants
                  && forall p :: p in s.products && p != productId ==> step.next.products[p] == s.products[p])
            && (productId !in s.products || (status == Active && fault != "OK") ==> step.next == s)
  {
    hide HasForeignMedia, HasBadVariantGallery, Primaries;
  }
}
