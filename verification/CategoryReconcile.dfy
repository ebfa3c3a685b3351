/**
 Applying the slug plan (reconcile-category-slugs.ts): every planned record first moves to a
 temporary slug, then to its final one. The unique index on slugs is checked at every write.
 */
module CategoryReconcile {
  import opened Wrappers
  import opened CategoryPlan
  import Slug
  import Sorting
  import Text

  ghost predicate DistinctIds(rows: seq<Record>)
  {
    forall i, j :: 0 <= i < j < |rows| ==> rows[i].id != rows[j].id
  }

  ghost predicate DistinctSlugs(rows: seq<Record>)
  {
    forall i, j :: 0 <= i < j < |rows| ==> rows[i].slug != rows[j].slug
  }

  /** The unique index lets record `id` take this slug. */
  ghost predicate SlugFree(rows: seq<Record>, id: string, slug: string)
  {
    forall i :: 0 <= i < |rows| && rows[i].slug == slug ==> rows[i].id == id
  }

  function Patch(r: Record, slugs: map<string, string>): Record
  {
    if r.id in slugs then r.(slug := slugs[r.id]) else r
  }

  function WithSlugs(rows: seq<Record>, slugs: map<string, string>): (patched: seq<Record>)
    ensures |patched| == |rows|
    ensures forall i :: 0 <= i < |rows| ==> patched[i] == Patch(rows[i], slugs)
  {
    seq(|rows|, i requires 0 <= i < |rows| => Patch(rows[i], slugs))
  }

  // ---- temporary slugs

  const TEMPORARY: string := "__category_slug_reconcile__"

  function Temporary(id: string, suffix: nat): string
  {
    if suffix == 0 then TEMPORARY + id else TEMPORARY + id + "_" + Text.Decimal(suffix)
  }

  lemma TemporaryInjective(id: string, m: nat, n: nat)
    requires Temporary(id, m) == Temporary(id, n)
    ensures m == n
  {
    if m > 0 && n > 0 {
      var stem := TEMPORARY + id + "_";
      assert Temporary(id, m)[|stem|..] == Text.Decimal(m);
      assert Temporary(id, n)[|stem|..] == Text.Decimal(n);
      Text.DecimalInjective(m, n);
    }
  }

  lemma TemporaryHasUnderscore(id: string, suffix: nat)
    ensures '_' in Temporary(id, suffix)
  {
    assert Temporary(id, suffix)[0] == '_';
  }

  /** Counts up to the first suffix that is not in use; there is one, since only finitely many are. */
  method FreeTemporary(id: string, used: set<string>) returns (slug: string, suffix: nat)
    ensures slug == Temporary(id, suffix) && slug !in used
    ensures forall k :: 0 <= k < suffix ==> Temporary(id, k) in used
  {
    hide Temporary;
    suffix := 0;
    slug := Temporary(id, 0);
    ghost var tried: map<string, nat> := map[];
    while slug in used
      invariant slug == Temporary(id, suffix)
      invariant forall k :: 0 <= k < suffix ==> Temporary(id, k) in used
      invariant forall t :: t in tried ==> tried[t] < suffix && t == Temporary(id, tried[t]) && t in used
      decreases used - tried.Keys
    {
      if slug in tried {
        TemporaryInjective(id, suffix, tried[slug]);
      }
      assert slug in used - tried.Keys;
      tried := tried[slug := suffix];
      suffix := suffix + 1;
      slug := Temporary(id, suffix);
    }
  }

  ghost predicate DistinctChanges(changes: seq<Change>)
  {
    forall k, l :: 0 <= k < l < |changes| ==> changes[k].row.id != changes[l].row.id
  }

  /** One unused slug per change, no two alike, each with an underscore. */
  ghost predicate TemporariesFor(rows: seq<Record>, changes: seq<Change>, temporaries: map<string, string>)
  {
    && (forall k :: 0 <= k < |changes| ==> changes[k].row.id in temporaries)
    && (forall id :: id in temporaries ==> '_' in temporaries[id])
    && (forall id, i :: id in temporaries && 0 <= i < |rows| ==> temporaries[id] != rows[i].slug)
    && (forall id, other :: id in temporaries && other in temporaries && id != other ==>
          temporaries[id] != temporaries[other])
  }

  method BuildTemporarySlugs(rows: seq<Record>, changes: seq<Change>) returns (temporaries: map<string, string>)
    requires DistinctChanges(changes)
    ensures TemporariesFor(rows, changes, temporaries)
    ensures forall id :: id in temporaries ==> exists suffix :: temporaries[id] == Temporary(id, suffix)
  {
    var used := set i | 0 <= i < |rows| :: rows[i].slug;
    temporaries := map[];
    for n := 0 to |changes|
      invariant forall k :: 0 <= k < n ==> changes[k].row.id in temporaries
      invariant forall id :: id in temporaries ==> exists k :: 0 <= k < n && changes[k].row.id == id
      invariant forall id :: id in temporaries ==> '_' in temporaries[id] && temporaries[id] in used
      invariant forall id :: id in temporaries ==> exists suffix :: temporaries[id] == Temporary(id, suffix)
      invariant forall i :: 0 <= i < |rows| ==> rows[i].slug in used
      invariant forall id, i :: id in temporaries && 0 <= i < |rows| ==> temporaries[id] != rows[i].slug
      invariant forall id, other :: id in temporaries && other in temporaries && id != other ==>
                  temporaries[id] != temporaries[other]
    {
      var id := changes[n].row.id;
      var slug, suffix := FreeTemporary(id, used);
      TemporaryHasUnderscore(id, suffix);
      used := used + {slug};
      temporaries := temporaries[id := slug];
    }
  }

  // ---- facts about a plan

  lemma {:induction false} OutdatedRows(normal: string -> string, all: seq<Record>, rows: seq<Record>, c: Change)
    requires c in Outdated(normal, all, rows)
    ensures c.row in rows && c.nextSlug == Target(normal, all, c.row) && c.row.slug != c.nextSlug
  {
    if c !in Outdated(normal, all, rows[..|rows| - 1]) {
      assert c.row == rows[|rows| - 1];
    } else {
      OutdatedRows(normal, all, rows[..|rows| - 1], c);
    }
  }

  lemma {:induction false} OutdatedComplete(normal: string -> string, all: seq<Record>, rows: seq<Record>, r: Record)
    requires r in rows && r.slug != Target(normal, all, r)
    ensures Change(r, Target(normal, all, r)) in Outdated(normal, all, rows)
  {
    if r != rows[|rows| - 1] {
      OutdatedComplete(normal, all, rows[..|rows| - 1], r);
    }
  }

  lemma {:induction false} OutdatedDistinct(normal: string -> string, all: seq<Record>, rows: seq<Record>)
    requires DistinctIds(rows)
    ensures DistinctChanges(Outdated(normal, all, rows))
  {
    hide Target;
    if |rows| > 0 {
      var front := rows[..|rows| - 1];
      OutdatedDistinct(normal, all, front);
      forall k | 0 <= k < |Outdated(normal, all, front)|
        ensures Outdated(normal, all, front)[k].row in front
      {
        OutdatedRows(normal, all, front, Outdated(normal, all, front)[k]);
      }
    }
  }

  lemma {:induction false} SingleOccurrence(changes: seq<Change>, c: Change)
    requires DistinctChanges(changes)
    ensures multiset(changes)[c] <= 1
  {
    if |changes| > 0 {
      var front := changes[..|changes| - 1];
      SingleOccurrence(front, c);
      assert changes == front + [changes[|changes| - 1]];
      if c == changes[|changes| - 1] {
        assert c !in front;
        assert c !in multiset(front);
      }
    }
  }

  lemma DoubleOccurrence(changes: seq<Change>, k: nat, l: nat)
    requires k < l < |changes| && changes[k] == changes[l]
    ensures multiset(changes)[changes[k]] >= 2
  {
    assert changes == changes[..l] + [changes[l]] + changes[l + 1..];
    assert changes[..l][k] == changes[k];
    assert changes[k] in multiset(changes[..l]);
  }

  lemma RearrangedStaysDistinct(a: seq<Change>, b: seq<Change>)
    requires DistinctChanges(a) && multiset(a) == multiset(b)
    ensures DistinctChanges(b)
  {
    forall k, l | 0 <= k < l < |b| ensures b[k].row.id != b[l].row.id {
      if b[k] == b[l] {
        DoubleOccurrence(b, k, l);
        SingleOccurrence(a, b[k]);
      } else {
        assert b[k] in multiset(a) && b[l] in multiset(a);
        assert b[k] in a && b[l] in a;
      }
    }
  }

  /** The changes of a plan: exactly the out-of-date records, each once, with its target slug. */
  ghost predicate Covers(normal: string -> string, rows: seq<Record>, changes: seq<Change>)
  {
    && DistinctChanges(changes)
    && (forall k :: 0 <= k < |changes| ==>
          changes[k].row in rows && changes[k].nextSlug == Target(normal, rows, changes[k].row))
    && (forall i :: 0 <= i < |rows| && rows[i].slug != Target(normal, rows, rows[i]) ==>
          exists k :: 0 <= k < |changes| && changes[k].row == rows[i])
  }

  lemma DistinctFromCovers(normal: string -> string, rows: seq<Record>, changes: seq<Change>)
    requires Covers(normal, rows, changes)
    ensures DistinctChanges(changes)
  {
  }

  lemma PlanCovers(normal: string -> string, rows: seq<Record>, changes: seq<Change>)
    requires DistinctIds(rows)
    requires multiset(changes) == multiset(Outdated(normal, rows, rows))
    ensures Covers(normal, rows, changes)
  {
    hide Target;
    var outdated := Outdated(normal, rows, rows);
    OutdatedDistinct(normal, rows, rows);
    RearrangedStaysDistinct(outdated, changes);
    forall k | 0 <= k < |changes|
      ensures changes[k].row in rows && changes[k].nextSlug == Target(normal, rows, changes[k].row)
    {
      assert changes[k] in multiset(outdated);
      OutdatedRows(normal, rows, rows, changes[k]);
    }
    forall i | 0 <= i < |rows| && rows[i].slug != Target(normal, rows, rows[i])
      ensures exists k :: 0 <= k < |changes| && changes[k].row == rows[i]
    {
      OutdatedComplete(normal, rows, rows, rows[i]);
      assert Change(rows[i], Target(normal, rows, rows[i])) in multiset(changes);
      var k :| 0 <= k < |changes| && changes[k] == Change(rows[i], Target(normal, rows, rows[i]));
      assert changes[k].row == rows[i];
    }
  }

  // ---- the two phases

  /** The slugs written so far in the first phase. */
  ghost predicate FirstPhase(changes: seq<Change>, temporaries: map<string, string>, n: nat,
                             written: map<string, string>)
    requires n <= |changes|
  {
    && (forall id :: id in written ==> id in temporaries && written[id] == temporaries[id])
    && (forall k :: 0 <= k < n ==> changes[k].row.id in written)
    && (forall id :: id in written ==> exists k :: 0 <= k < n && changes[k].row.id == id)
  }

  /** The slugs as they stand after n writes of the second phase. */
  ghost predicate SecondPhase(changes: seq<Change>, temporaries: map<string, string>, n: nat,
                              written: map<string, string>)
    requires n <= |changes|
  {
    && (forall k :: 0 <= k < |changes| ==> changes[k].row.id in written && changes[k].row.id in temporaries)
    && (forall k :: 0 <= k < n ==> written[changes[k].row.id] == changes[k].nextSlug)
    && (forall k :: n <= k < |changes| ==> written[changes[k].row.id] == temporaries[changes[k].row.id])
    && (forall id :: id in written ==> exists k :: 0 <= k < |changes| && changes[k].row.id == id)
  }

  lemma TemporaryIsFree(rows: seq<Record>, changes: seq<Change>, temporaries: map<string, string>, n: nat,
                        written: map<string, string>)
    requires n < |changes| && TemporariesFor(rows, changes, temporaries)
    requires FirstPhase(changes, temporaries, n, written)
    ensures SlugFree(WithSlugs(rows, written), changes[n].row.id, temporaries[changes[n].row.id])
  {
  }

  lemma TargetHasNoUnderscore(normal: string -> string, rows: seq<Record>, r: Record)
    ensures '_' !in Target(normal, rows, r)
  {
    var parent := ParentOf(rows, r);
    var parentName := if parent.Some? then Some(parent.value.name) else None;
    Slug.ToSlugShape(normal,
                     if parentName.Some? && |parentName.value| > 0 then parentName.value + "-" + r.name else r.name);
  }

  lemma PhaseTurn(changes: seq<Change>, temporaries: map<string, string>, written: map<string, string>)
    requires FirstPhase(changes, temporaries, |changes|, written)
    ensures SecondPhase(changes, temporaries, 0, written)
  {
  }

  lemma SecondPhaseStep(changes: seq<Change>, temporaries: map<string, string>, n: nat, written: map<string, string>)
    requires n < |changes| && DistinctChanges(changes) && SecondPhase(changes, temporaries, n, written)
    ensures SecondPhase(changes, temporaries, n + 1, written[changes[n].row.id := changes[n].nextSlug])
  {
  }

  /** Where record i stands after n writes: at its final slug, or at a temporary one. */
  lemma WhereItStands(normal: string -> string, rows: seq<Record>, changes: seq<Change>,
                      temporaries: map<string, string>, n: nat, written: map<string, string>, i: nat)
    requires n < |changes| && i < |rows| && DistinctIds(rows)
    requires TemporariesFor(rows, changes, temporaries) && Covers(normal, rows, changes)
    requires SecondPhase(changes, temporaries, n, written)
    ensures var slug := Patch(rows[i], written).slug;
            '_' in slug || (rows[i] != changes[n].row && slug == Target(normal, rows, rows[i]))
  {
    hide Target, TargetsDiffer;
    if rows[i].id in written {
      var k :| 0 <= k < |changes| && changes[k].row.id == rows[i].id;
      assert changes[k].row == rows[i];
      assert '_' in temporaries[changes[k].row.id];
    }
  }

  /** So no record holds a target that is still to be written. */
  lemma TargetIsFree(normal: string -> string, rows: seq<Record>, changes: seq<Change>,
                     temporaries: map<string, string>, n: nat, written: map<string, string>)
    requires n < |changes| && DistinctIds(rows) && TargetsDiffer(normal, rows)
    requires TemporariesFor(rows, changes, temporaries) && Covers(normal, rows, changes)
    requires SecondPhase(changes, temporaries, n, written)
    ensures SlugFree(WithSlugs(rows, written), changes[n].row.id, changes[n].nextSlug)
  {
    hide Target, TemporariesFor, SecondPhase;
    assert changes[n].row in rows;
    var m :| 0 <= m < |rows| && rows[m] == changes[n].row;
    TargetHasNoUnderscore(normal, rows, rows[m]);
    forall i | 0 <= i < |rows| ensures Patch(rows[i], written).slug != changes[n].nextSlug {
      WhereItStands(normal, rows, changes, temporaries, n, written, i);
      assert i != m ==> Target(normal, rows, rows[i]) != Target(normal, rows, rows[m]);
    }
  }

  lemma PatchTwice(rows: seq<Record>, written: map<string, string>, id: string, slug: string)
    ensures WithSlugs(WithSlugs(rows, written), map[id := slug]) == WithSlugs(rows, written[id := slug])
  {
  }

  /** Every record with the slug of its name path. */
  function Rewritten(normal: string -> string, rows: seq<Record>): (after: seq<Record>)
    ensures |after| == |rows|
    ensures forall i :: 0 <= i < |rows| ==> after[i] == rows[i].(slug := Target(normal, rows, rows[i]))
  {
    seq(|rows|, i requires 0 <= i < |rows| => rows[i].(slug := Target(normal, rows, rows[i])))
  }

  lemma PhasesRewrite(normal: string -> string, rows: seq<Record>, changes: seq<Change>,
                      temporaries: map<string, string>, written: map<string, string>)
    requires DistinctIds(rows) && Covers(normal, rows, changes)
    requires TemporariesFor(rows, changes, temporaries)
    requires SecondPhase(changes, temporaries, |changes|, written)
    ensures WithSlugs(rows, written) == Rewritten(normal, rows)
  {
    hide Target;
    forall i | 0 <= i < |rows|
      ensures Patch(rows[i], written) == rows[i].(slug := Target(normal, rows, rows[i]))
    {
      if rows[i].id in written {
        var k :| 0 <= k < |changes| && changes[k].row.id == rows[i].id;
        assert changes[k].row == rows[i];
      }
    }
  }

  // ---- planning again

  lemma {:induction false} FindRewritten(rows: seq<Record>, after: seq<Record>, id: string)
    requires |after| == |rows|
    requires forall i :: 0 <= i < |rows| ==> after[i] == rows[i].(slug := after[i].slug)
    ensures Find(after, id).Some? == Find(rows, id).Some?
    ensures Find(after, id).Some? ==> Find(after, id).value == Find(rows, id).value.(slug := Find(after, id).value.slug)
  {
    if |rows| > 0 && rows[|rows| - 1].id != id {
      FindRewritten(rows[..|rows| - 1], after[..|after| - 1], id);
    }
  }

  lemma TargetIgnoresSlugs(normal: string -> string, rows: seq<Record>, after: seq<Record>, i: nat)
    requires i < |rows| == |after|
    requires forall i :: 0 <= i < |rows| ==> after[i] == rows[i].(slug := after[i].slug)
    ensures Target(normal, after, after[i]) == Target(normal, rows, rows[i])
    ensures Resolves(after, after[i]) == Resolves(rows, rows[i])
  {
    if Linked(rows[i]) {
      FindRewritten(rows, after, rows[i].parentId.value);
    }
  }

  lemma {:induction false} NothingOutdated(normal: string -> string, all: seq<Record>, rows: seq<Record>)
    requires forall i :: 0 <= i < |rows| ==> rows[i].slug == Target(normal, all, rows[i])
    ensures Outdated(normal, all, rows) == []
  {
    if |rows| > 0 {
      NothingOutdated(normal, all, rows[..|rows| - 1]);
    }
  }

  /** Once rewritten, the records plan without conflict and nothing is left to change. */
  lemma ReplanIsEmpty(normal: string -> string, rows: seq<Record>)
    requires Plannable(normal, rows)
    ensures Plannable(normal, Rewritten(normal, rows))
    ensures Outdated(normal, Rewritten(normal, rows), Rewritten(normal, rows)) == []
  {
    hide Target, Resolves;
    var after := Rewritten(normal, rows);
    forall i | 0 <= i < |rows|
      ensures Target(normal, after, after[i]) == Target(normal, rows, rows[i])
      ensures Resolves(after, after[i]) == Resolves(rows, rows[i])
    {
      TargetIgnoresSlugs(normal, rows, after, i);
    }
    NothingOutdated(normal, after, after);
  }

  /** The category table as the script sees it. */
  class CategoryTable {
    var rows: seq<Record>

    ghost predicate Valid()
      reads this
    {
      DistinctIds(rows) && DistinctSlugs(rows)
    }

    /** One UPDATE of a slug; it may only be issued where the unique index admits it. */
    method SetSlug(id: string, slug: string)
      requires Valid() && SlugFree(rows, id, slug)
      modifies this
      ensures Valid() && rows == WithSlugs(old(rows), map[id := slug])
    {
      rows := WithSlugs(rows, map[id := slug]);
    }

    method MoveToTemporaries(changes: seq<Change>, temporaries: map<string, string>)
      returns (ghost written: map<string, string>)
      requires Valid() && TemporariesFor(rows, changes, temporaries)
      modifies this
      ensures Valid() && FirstPhase(changes, temporaries, |changes|, written)
      ensures rows == WithSlugs(old(rows), written)
    {
      hide DistinctSlugs, SlugFree;
      ghost var start := rows;
      written := map[];
      assert rows == WithSlugs(start, written);
      for n := 0 to |changes|
        invariant Valid() && rows == WithSlugs(start, written)
        invariant FirstPhase(changes, temporaries, n, written)
      {
        TemporaryIsFree(start, changes, temporaries, n, written);
        var id := changes[n].row.id;
        PatchTwice(start, written, id, temporaries[id]);
        SetSlug(id, temporaries[id]);
        written := written[id := temporaries[id]];
      }
    }

    method MoveToTargets(ghost normal: string -> string, ghost start: seq<Record>, changes: seq<Change>,
                         ghost temporaries: map<string, string>, ghost moved: map<string, string>)
      requires Valid() && rows == WithSlugs(start, moved) && DistinctIds(start)
      requires TargetsDiffer(normal, start) && Covers(normal, start, changes)
      requires TemporariesFor(start, changes, temporaries) && FirstPhase(changes, temporaries, |changes|, moved)
      modifies this
      ensures Valid() && rows == Rewritten(normal, start)
    {
      hide DistinctSlugs, SlugFree, DistinctIds, TargetsDiffer, TemporariesFor, FirstPhase, SecondPhase, Covers;
      DistinctFromCovers(normal, start, changes);
      ghost var written := moved;
      PhaseTurn(changes, temporaries, written);
      for n := 0 to |changes|
        invariant Valid() && rows == WithSlugs(start, written)
        invariant SecondPhase(changes, temporaries, n, written)
      {
        TargetIsFree(normal, start, changes, temporaries, n, written);
        var id, slug := changes[n].row.id, changes[n].nextSlug;
        PatchTwice(start, written, id, slug);
        SecondPhaseStep(changes, temporaries, n, written);
        SetSlug(id, slug);
        written := written[id := slug];
      }
      PhasesRewrite(normal, start, changes, temporaries, written);
    }

    /**
     The reconciliation. A plan that is refused changes nothing; an accepted one leaves every record
     with the slug of its name path, and no write on the way offends the unique index.
     */
    method Reconcile(normal: string -> string, collation: (string, string) -> bool) returns (plan: Plan)
      requires Valid() && Sorting.TotalPreorder(collation)
      modifies this
      ensures Valid() && PlanIsRight(normal, collation, old(rows), plan)
      ensures plan.Planned? <==> Plannable(normal, old(rows))
      ensures rows == if plan.Planned? then Rewritten(normal, old(rows)) else old(rows)
    {
      hide TargetsDiffer, Sluggable, Outdated, TemporariesFor, FirstPhase, Covers;
      plan := BuildPlan(normal, collation, rows);
      if plan.Planned? {
        PlanCovers(normal, rows, plan.changes);
        ghost var start := rows;
        DistinctFromCovers(normal, rows, plan.changes);
        var temporaries := BuildTemporarySlugs(rows, plan.changes);
        ghost var written := MoveToTemporaries(plan.changes, temporaries);
        MoveToTargets(normal, start, plan.changes, temporaries, written);
      }
    }
  }
}
