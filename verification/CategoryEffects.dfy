/** What the tree's invariant says of the columns, and what each accepted request leaves in them. */
module CategoryEffects {
  import opened Wrappers
  import opened CategoryPlan
  import CategoryReconcile
  import opened CategoryTree

  // ---- the invariant in the columns' own words

  /** The parent is there, is a root, and is of the same kind. */
  ghost predicate UnderRoot(t: Tree, c: Category)
  {
    c.parentId.Some? ==>
      c.parentId.value in t && t[c.parentId.value].parentId.None? && t[c.parentId.value].kind == c.kind
  }

  /** Two children of one parent, or two roots of one kind. */
  predicate Siblings(a: Category, b: Category)
  {
    a.parentId == b.parentId && (a.parentId.None? ==> a.kind == b.kind)
  }

  ghost predicate OwnPath(rules: Rules, t: Tree, c: Category)
  {
    && |c.slug| > 0
    && c.slug == BuildSlug(rules.slugNormal, c.name,
         if c.parentId.Some? && c.parentId.value in t then Some(t[c.parentId.value].name) else None)
  }

  /**
   A good tree: every parent a root of its children's kind, siblings told apart by their normalised names, and
   every category under the slug of its path, which is no other's.
   */
  lemma TreeInColumns(rules: Rules, t: Tree)
    ensures TreeInv(rules, t) <==>
              && (forall x :: x in t ==> UnderRoot(t, t[x]) && OwnPath(rules, t, t[x]))
              && (forall x, y :: x in t && y in t && x != y ==>
                    t[x].slug != t[y].slug &&
                    (Siblings(t[x], t[y]) ==> rules.nameKey(t[x].name) != rules.nameKey(t[y].name)))
  {
    hide BuildSlug;
    forall x | x in t ensures CheckParent(t, t[x].parentId, t[x].kind) == "OK" <==> UnderRoot(t, t[x]) {
    }
    forall x, y | x in t && y in t
      ensures InScope(t[x].parentId, t[x].kind, t[y]) <==> Siblings(t[x], t[y])
    {
    }
    forall x | x in t
      ensures OwnPath(rules, t, t[x]) <==>
              |t[x].slug| > 0 && t[x].slug == PathSlug(rules, t, t[x].name, t[x].parentId)
    {
    }
  }

  // ---- what is stored

  /** An accepted category is stored as asked, under its path; nothing else changes, and a refusal changes nothing. */
  lemma CreateStores(rules: Rules, t: Tree, id: string, name: string, parentId: Option<string>, kind: Kind)
    ensures var step := Create(rules, t, id, name, parentId, kind);
            if step.reply != "OK" then step.next == t
            else
              && id !in t && step.next.Keys == t.Keys + {id}
              && (forall x :: x in t ==> step.next[x] == t[x])
              && step.next[id].name == name && step.next[id].parentId == parentId && step.next[id].kind == kind
              && OwnPath(rules, t, step.next[id])
  {
    hide BuildSlug;
  }

  /** A given field is stored, an absent one keeps its value; others keep all but, for children, their slug. */
  ghost predicate Patched(t: Tree, next: Tree, id: string, patch: Patch)
    requires id in t
  {
    && next.Keys == t.Keys
    && next[id].name == (if patch.name.Some? then patch.name.value else t[id].name)
    && next[id].parentId == (if patch.parentId.Some? then patch.parentId.value else t[id].parentId)
    && next[id].kind == (if patch.kind.Some? then patch.kind.value else t[id].kind)
    && forall x :: x in t && x != id ==>
         next[x].name == t[x].name && next[x].parentId == t[x].parentId && next[x].kind == t[x].kind &&
         (t[x].parentId != Some(id) ==> next[x].slug == t[x].slug)
  }

  lemma UpdatedColumns(rules: Rules, t: Tree, id: string, patch: Patch)
    requires id in t
    ensures Patched(t, Updated(rules, t, id, patch), id, patch)
  {
    UpdatedFields(rules, t, id, patch);
    assert Targets(rules, t, id, patch).Keys <= {id} + ChildrenOf(t, id);
    hide Updated, Targets;
  }

  /**
   An accepted update stores what it names and keeps what it does not; only the category itself and its
   children get other slugs, each that of its path now.
   */
  lemma UpdateStores(rules: Rules, t: Tree, id: string, patch: Patch)
    requires TreeInv(rules, t)
    ensures var step := Update(rules, t, id, patch);
            if step.reply != "OK" then step.next == t
            else
              && id in t && Patched(t, step.next, id, patch)
              && forall x :: x in step.next ==> OwnPath(rules, step.next, step.next[x])
  {
    hide TreeInv, Updated, Targets, Patched, OwnPath, UnderRoot, SlugsTaken, NameTaken;
    if Update(rules, t, id, patch).reply == "OK" {
      UpdateExactly(rules, t, id, patch);
      TreeInColumns(rules, Updated(rules, t, id, patch));
      UpdatedColumns(rules, t, id, patch);
    }
  }

  /** An accepted deletion takes exactly this category, which has no children and no products, out of the tree. */
  lemma DeleteStores(t: Tree, id: string, inUse: bool)
    ensures var step := Delete(t, id, inUse);
            if step.reply != "OK" then step.next == t
            else
              && id in t && !inUse && (forall x :: x in t ==> t[x].parentId != Some(id))
              && step.next.Keys == t.Keys - {id} && forall x :: x in t && x != id ==> step.next[x] == t[x]
  {
    if id in t && Delete(t, id, inUse).reply == "OK" {
      forall x | x in t ensures t[x].parentId != Some(id) {
        assert x !in ChildrenOf(t, id);
      }
    }
  }

  // ---- the reconciliation's plan and the tree

  lemma {:induction false} FindsRecord(rows: seq<Record>, p: Record)
    requires CategoryReconcile.DistinctIds(rows) && p in rows
    ensures Find(rows, p.id) == Some(p)
  {
    var front, last := rows[..|rows| - 1], rows[|rows| - 1];
    var i :| 0 <= i < |rows| && rows[i] == p;
    if i < |front| {
      assert front[i] == p;
      FindsRecord(front, p);
    }
  }

  lemma {:induction false} FoundIsThere(rows: seq<Record>, id: string)
    ensures Find(rows, id).Some? ==> Find(rows, id).value in rows && Find(rows, id).value.id == id
  {
    if |rows| > 0 {
      FoundIsThere(rows[..|rows| - 1], id);
    }
  }

  predicate HasParent(r: Record)
  {
    r.parentId.Some? && r.parentId.value != ""
  }

  /** A record resolves exactly under a root that is present, and its target is the slug of its path. */
  lemma TargetInColumns(normal: string -> string, rows: seq<Record>, r: Record)
    requires CategoryReconcile.DistinctIds(rows)
    ensures Resolves(rows, r) <==>
              (HasParent(r) ==> exists p :: p in rows && p.id == r.parentId.value && p.parentId.None?)
    ensures forall p :: p in rows && HasParent(r) && p.id == r.parentId.value ==>
              Target(normal, rows, r) == BuildSlug(normal, r.name, Some(p.name))
    ensures !HasParent(r) ==> Target(normal, rows, r) == BuildSlug(normal, r.name, None)
  {
    hide BuildSlug, CategoryReconcile.DistinctIds;
    if HasParent(r) {
      FoundIsThere(rows, r.parentId.value);
      forall p | p in rows && p.id == r.parentId.value ensures Find(rows, r.parentId.value) == Some(p) {
        FindsRecord(rows, p);
      }
    }
  }

  /** The records are those of the tree, each once. */
  ghost predicate Records(t: Tree, rows: seq<Record>)
  {
    && "" !in t && CategoryReconcile.DistinctIds(rows)
    && (forall r :: r in rows ==> r.id in t && r == Record(r.id, t[r.id].name, t[r.id].slug, t[r.id].parentId))
    && (forall id :: id in t ==> RecordOf(t, id) in rows)
  }

  function RecordOf(t: Tree, id: string): Record
    requires id in t
  {
    Record(id, t[id].name, t[id].slug, t[id].parentId)
  }

  lemma TreeTarget(rules: Rules, t: Tree, rows: seq<Record>, id: string)
    requires TwoLevels(t) && Records(t, rows) && id in t
    ensures Resolves(rows, RecordOf(t, id))
    ensures Target(rules.slugNormal, rows, RecordOf(t, id)) == PathSlug(rules, t, t[id].name, t[id].parentId)
  {
    hide BuildSlug, Target, Resolves;
    TargetInColumns(rules.slugNormal, rows, RecordOf(t, id));
    assert CheckParent(t, t[id].parentId, t[id].kind) == "OK";
    if t[id].parentId.Some? {
      assert RecordOf(t, t[id].parentId.value) in rows;
    }
  }

  /** What the tree would be under the slugs of its paths. */
  function UnderPaths(rules: Rules, t: Tree): Tree
  {
    map id | id in t :: t[id].(slug := PathSlug(rules, t, t[id].name, t[id].parentId))
  }

  /** A two-level tree can be planned exactly when the slugs of its paths would make it a good one. */
  lemma PlannableExactly(rules: Rules, t: Tree, rows: seq<Record>)
    requires TwoLevels(t) && Records(t, rows)
    ensures Plannable(rules.slugNormal, rows) <==>
              SlugsFollow(rules, UnderPaths(rules, t)) && SlugsDiffer(UnderPaths(rules, t))
  {
    hide BuildSlug, Target, Resolves, PathSlug, TwoLevels;
    var after := UnderPaths(rules, t);
    forall id | id in t
      ensures Resolves(rows, RecordOf(t, id))
      ensures Target(rules.slugNormal, rows, RecordOf(t, id)) == after[id].slug
      ensures PathSlug(rules, after, after[id].name, after[id].parentId) == after[id].slug
    {
      TreeTarget(rules, t, rows, id);
      SamePath(rules, t, after, t[id].name, t[id].parentId);
    }
    forall i | 0 <= i < |rows| ensures rows[i].id in t && rows[i] == RecordOf(t, rows[i].id) {
      assert rows[i] in rows;
    }
    if Plannable(rules.slugNormal, rows) {
      PlannedIsGood(rules, t, rows);
    }
  }

  lemma PlaceOf(rules: Rules, t: Tree, rows: seq<Record>, id: string) returns (i: nat)
    requires TwoLevels(t) && Records(t, rows) && id in t
    ensures i < |rows| && rows[i].id == id && rows[i].slug == t[id].slug
    ensures Target(rules.slugNormal, rows, rows[i]) == PathSlug(rules, t, t[id].name, t[id].parentId)
  {
    hide BuildSlug, Target, Resolves, PathSlug, TwoLevels;
    TreeTarget(rules, t, rows, id);
    i :| 0 <= i < |rows| && rows[i] == RecordOf(t, id);
  }

  lemma PlannedIsGood(rules: Rules, t: Tree, rows: seq<Record>)
    requires TwoLevels(t) && Records(t, rows) && Plannable(rules.slugNormal, rows)
    ensures forall id :: id in t ==> |PathSlug(rules, t, t[id].name, t[id].parentId)| > 0
    ensures SlugsDiffer(UnderPaths(rules, t))
  {
    hide BuildSlug, Target, Resolves, PathSlug, TwoLevels, Records;
    forall id | id in t ensures |PathSlug(rules, t, t[id].name, t[id].parentId)| > 0 {
      var i := PlaceOf(rules, t, rows, id);
      assert Sluggable(rules.slugNormal, rows, rows[i]);
    }
    forall a, b | a in t && b in t && a != b
      ensures PathSlug(rules, t, t[a].name, t[a].parentId) != PathSlug(rules, t, t[b].name, t[b].parentId)
    {
      var i := PlaceOf(rules, t, rows, a);
      var j := PlaceOf(rules, t, rows, b);
      assert i != j;
    }
  }

  lemma RowOfTree(t: Tree, rows: seq<Record>, i: nat)
    requires Records(t, rows) && i < |rows|
    ensures rows[i].id in t && rows[i] == RecordOf(t, rows[i].id)
  {
    assert rows[i] in rows;
  }

  /** A good tree can be planned, and the plan has nothing to change. */
  lemma GoodTreeNeedsNoChange(rules: Rules, t: Tree, rows: seq<Record>)
    requires TreeInv(rules, t) && Records(t, rows)
    ensures Plannable(rules.slugNormal, rows) && Outdated(rules.slugNormal, rows, rows) == []
  {
    UnderOwnPaths(rules, t);
    hide BuildSlug, Target, PathSlug, Resolves, NamesDiffer, Records, TwoLevels, Plannable, UnderPaths;
    PlannableExactly(rules, t, rows);
    forall i | 0 <= i < |rows| ensures rows[i].slug == Target(rules.slugNormal, rows, rows[i]) {
      RowOfTree(t, rows, i);
      TreeTarget(rules, t, rows, rows[i].id);
    }
    CategoryReconcile.NothingOutdated(rules.slugNormal, rows, rows);
  }

  lemma UnderOwnPaths(rules: Rules, t: Tree)
    requires SlugsFollow(rules, t)
    ensures UnderPaths(rules, t) == t
  {
    hide PathSlug;
  }
}
