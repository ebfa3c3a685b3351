/**
 The category tree (categories.repository.ts): create, update and delete as steps on the table, the
 invariant they keep, and the exact condition under which each accepts.
 */
module CategoryTree {
  import opened Wrappers
  import CategoryPlan
  import Slug

  datatype Kind = Normal | System | Collection | Brand | Landing

  datatype Category = Category(name: string, slug: string, parentId: Option<string>, kind: Kind)

  type Tree = map<string, Category>

  /** The two normalisers: of slugs, and of names compared within a scope. */
  datatype Rules = Rules(slugNormal: string -> string, nameKey: string -> string)

  datatype Step = Step(next: Tree, reply: string)

  /** An absent field keeps its value; the parent may be set to none. */
  datatype Patch = Patch(name: Option<string>, parentId: Option<Option<string>>, kind: Option<Kind>)

  /** Roots of one kind are siblings, and so are the children of one parent. */
  predicate InScope(parentId: Option<string>, kind: Kind, c: Category)
  {
    if parentId.None? then c.parentId.None? && c.kind == kind else c.parentId == parentId
  }

  predicate NameTaken(rules: Rules, t: Tree, name: string, parentId: Option<string>, kind: Kind, except: Option<string>)
  {
    exists id :: id in t && Some(id) != except && InScope(parentId, kind, t[id]) &&
                 rules.nameKey(t[id].name) == rules.nameKey(name)
  }

  /** "OK", or why the parent cannot be one. */
  function CheckParent(t: Tree, parentId: Option<string>, kind: Kind): string
  {
    if parentId.None? then "OK"
    else if parentId.value !in t then "CATEGORY_PARENT_NOT_FOUND"
    else if t[parentId.value].parentId.Some? then "CATEGORY_PARENT_MUST_BE_ROOT"
    else if t[parentId.value].kind != kind then "CATEGORY_PARENT_TYPE_MISMATCH"
    else "OK"
  }

  function ParentName(t: Tree, parentId: Option<string>): Option<string>
  {
    if parentId.Some? && parentId.value in t then Some(t[parentId.value].name) else None
  }

  function PathSlug(rules: Rules, t: Tree, name: string, parentId: Option<string>): string
  {
    CategoryPlan.BuildSlug(rules.slugNormal, name, ParentName(t, parentId))
  }

  function ChildrenOf(t: Tree, id: string): set<string>
  {
    set c | c in t && t[c].parentId == Some(id)
  }

  /** Two targets alike, or one held by a category that is not being rewritten. */
  predicate SlugsTaken(t: Tree, targets: map<string, string>)
  {
    || (exists a, b :: a in targets && b in targets && a != b && targets[a] == targets[b])
    || (exists a, b :: a in targets && b in t && b !in targets && t[b].slug == targets[a])
  }

  // ---- create

  function Created(rules: Rules, t: Tree, id: string, name: string, parentId: Option<string>, kind: Kind): Tree
  {
    t[id := Category(name, PathSlug(rules, t, name, parentId), parentId, kind)]
  }

  function Create(rules: Rules, t: Tree, id: string, name: string, parentId: Option<string>, kind: Kind): Step
  {
    if NameTaken(rules, t, name, parentId, kind, None) then Step(t, "CATEGORY_NAME_ALREADY_EXISTS")
    else if CheckParent(t, parentId, kind) != "OK" then Step(t, CheckParent(t, parentId, kind))
    else if |PathSlug(rules, t, name, parentId)| == 0 then Step(t, "CATEGORY_SLUG_INVALID")
    else if exists other :: other in t && t[other].slug == PathSlug(rules, t, name, parentId) then
      Step(t, "CATEGORY_SLUG_ALREADY_EXISTS")
    else if id in t then Step(t, "ID_TAKEN")
    else Step(Created(rules, t, id, name, parentId, kind), "OK")
  }

  // ---- update

  function NextParent(c: Category, patch: Patch): Option<string>
  {
    patch.parentId.GetOr(c.parentId)
  }

  function NextName(c: Category, patch: Patch): string
  {
    patch.name.GetOr(c.name)
  }

  function NextKind(c: Category, patch: Patch): Kind
  {
    patch.kind.GetOr(c.kind)
  }

  /** A root that changes its name takes its children's slugs along. */
  function Affected(t: Tree, id: string, patch: Patch): set<string>
    requires id in t
  {
    if NextParent(t[id], patch).None? && NextName(t[id], patch) != t[id].name then {id} + ChildrenOf(t, id) else {id}
  }

  function Targets(rules: Rules, t: Tree, id: string, patch: Patch): map<string, string>
    requires id in t
  {
    map x | x in Affected(t, id, patch) ::
      if x == id then PathSlug(rules, t, NextName(t[id], patch), NextParent(t[id], patch))
      else if x in t then CategoryPlan.BuildSlug(rules.slugNormal, t[x].name, Some(NextName(t[id], patch)))
      else ""
  }

  function Updated(rules: Rules, t: Tree, id: string, patch: Patch): Tree
    requires id in t
  {
    var targets, c := Targets(rules, t, id, patch), t[id];
    map x | x in t ::
      if x == id then Category(NextName(c, patch), targets[id], NextParent(c, patch), NextKind(c, patch))
      else if x in targets then t[x].(slug := targets[x])
      else t[x]
  }

  predicate KindLocked(t: Tree, id: string, patch: Patch)
    requires id in t
  {
    NextKind(t[id], patch) != t[id].kind && (t[id].parentId.Some? || ChildrenOf(t, id) != {})
  }

  function Update(rules: Rules, t: Tree, id: string, patch: Patch): Step
  {
    if id !in t then Step(t, "CATEGORY_NOT_FOUND")
    else
      var c := t[id];
      var parentId, kind, targets := NextParent(c, patch), NextKind(c, patch), Targets(rules, t, id, patch);
      if parentId == Some(id) then Step(t, "CATEGORY_SELF_PARENT")
      else if ChildrenOf(t, id) != {} && parentId.Some? then Step(t, "CATEGORY_HAS_CHILDREN")
      else if KindLocked(t, id, patch) then Step(t, "CATEGORY_TYPE_CHANGE_REQUIRES_DETACHED_NODE")
      else if NameTaken(rules, t, NextName(c, patch), parentId, kind, Some(id)) then
        Step(t, "CATEGORY_NAME_ALREADY_EXISTS")
      else if CheckParent(t, parentId, kind) != "OK" then Step(t, CheckParent(t, parentId, kind))
      else if exists x :: x in targets && |targets[x]| == 0 then Step(t, "CATEGORY_SLUG_INVALID")
      else if SlugsTaken(t, targets) then Step(t, "CATEGORY_SLUG_ALREADY_EXISTS")
      else Step(Updated(rules, t, id, patch), "OK")
  }

  // ---- delete

  function Delete(t: Tree, id: string, inUse: bool): Step
  {
    if id !in t then Step(t, "CATEGORY_NOT_FOUND")
    else if ChildrenOf(t, id) != {} then Step(t, "CATEGORY_HAS_CHILDREN")
    else if inUse then Step(t, "CATEGORY_IN_USE")
    else Step(t - {id}, "OK")
  }

  // ---- the invariant

  /** At most two levels; parent and child are of one kind. */
  ghost predicate TwoLevels(t: Tree)
  {
    forall id :: id in t ==> CheckParent(t, t[id].parentId, t[id].kind) == "OK"
  }

  ghost predicate NamesDiffer(rules: Rules, t: Tree)
  {
    forall a, b :: a in t && b in t && a != b && InScope(t[a].parentId, t[a].kind, t[b]) ==>
      rules.nameKey(t[a].name) != rules.nameKey(t[b].name)
  }

  ghost predicate SlugsFollow(rules: Rules, t: Tree)
  {
    forall id :: id in t ==> |t[id].slug| > 0 && t[id].slug == PathSlug(rules, t, t[id].name, t[id].parentId)
  }

  ghost predicate SlugsDiffer(t: Tree)
  {
    forall a, b :: a in t && b in t && a != b ==> t[a].slug != t[b].slug
  }

  ghost predicate TreeInv(rules: Rules, t: Tree)
  {
    TwoLevels(t) && NamesDiffer(rules, t) && SlugsFollow(rules, t) && SlugsDiffer(t)
  }

  // ---- create accepts exactly what the invariant admits

  lemma CreatedLevels(rules: Rules, t: Tree, id: string, name: string, parentId: Option<string>, kind: Kind)
    requires id !in t && TwoLevels(t)
    ensures TwoLevels(Created(rules, t, id, name, parentId, kind)) <==> CheckParent(t, parentId, kind) == "OK"
  {
    hide PathSlug;
    var after := Created(rules, t, id, name, parentId, kind);
    assert CheckParent(after, after[id].parentId, after[id].kind) == "OK" <==> CheckParent(t, parentId, kind) == "OK";
    forall x | x in t ensures CheckParent(after, after[x].parentId, after[x].kind) == "OK" {
      assert CheckParent(t, t[x].parentId, t[x].kind) == "OK";
    }
  }

  lemma CreatedNames(rules: Rules, t: Tree, id: string, name: string, parentId: Option<string>, kind: Kind)
    requires id !in t && NamesDiffer(rules, t)
    ensures NamesDiffer(rules, Created(rules, t, id, name, parentId, kind)) <==>
            !NameTaken(rules, t, name, parentId, kind, None)
  {
    hide PathSlug;
    var after := Created(rules, t, id, name, parentId, kind);
    if NameTaken(rules, t, name, parentId, kind, None) {
      var x :| x in t && InScope(parentId, kind, t[x]) && rules.nameKey(t[x].name) == rules.nameKey(name);
      assert after[x] == t[x] && x != id;
      assert InScope(after[id].parentId, after[id].kind, after[x]);
    } else {
      forall a, b | a in after && b in after && a != b && InScope(after[a].parentId, after[a].kind, after[b])
        ensures rules.nameKey(after[a].name) != rules.nameKey(after[b].name)
      {
        if a == id {
          assert InScope(parentId, kind, t[b]);
        } else if b == id {
          assert InScope(parentId, kind, t[a]);
        } else {
          assert InScope(t[a].parentId, t[a].kind, t[b]);
        }
      }
    }
  }

  /** A path slug depends on the parent's name alone. */
  lemma SamePath(rules: Rules, t: Tree, after: Tree, name: string, parentId: Option<string>)
    requires parentId.Some? ==>
               (parentId.value in t <==> parentId.value in after) &&
               (parentId.value in t ==> after[parentId.value].name == t[parentId.value].name)
    ensures PathSlug(rules, after, name, parentId) == PathSlug(rules, t, name, parentId)
  {
  }

  lemma CreatedPaths(rules: Rules, t: Tree, id: string, name: string, parentId: Option<string>, kind: Kind, x: string)
    requires id !in t && TwoLevels(t) && parentId != Some(id)
    requires x in Created(rules, t, id, name, parentId, kind)
    ensures var after := Created(rules, t, id, name, parentId, kind);
            PathSlug(rules, after, after[x].name, after[x].parentId) ==
            if x == id then PathSlug(rules, t, name, parentId) else PathSlug(rules, t, t[x].name, t[x].parentId)
  {
    hide PathSlug;
    var after := Created(rules, t, id, name, parentId, kind);
    if x != id {
      assert CheckParent(t, t[x].parentId, t[x].kind) == "OK";
    }
    SamePath(rules, t, after, after[x].name, after[x].parentId);
  }

  lemma CreatedSlugs(rules: Rules, t: Tree, id: string, name: string, parentId: Option<string>, kind: Kind)
    requires id !in t && TwoLevels(t) && SlugsFollow(rules, t) && SlugsDiffer(t) && parentId != Some(id)
    ensures var after, slug := Created(rules, t, id, name, parentId, kind), PathSlug(rules, t, name, parentId);
            SlugsFollow(rules, after) && SlugsDiffer(after) <==>
            |slug| > 0 && !exists other :: other in t && t[other].slug == slug
  {
    hide PathSlug, TwoLevels;
    var after, slug := Created(rules, t, id, name, parentId, kind), PathSlug(rules, t, name, parentId);
    forall x | x in after ensures PathSlug(rules, after, after[x].name, after[x].parentId) ==
                                  if x == id then slug else PathSlug(rules, t, t[x].name, t[x].parentId)
    {
      CreatedPaths(rules, t, id, name, parentId, kind, x);
    }
    if other :| other in t && t[other].slug == slug {
      assert after[other].slug == after[id].slug && other != id;
    }
  }

  /** A new category is accepted exactly when the tree with it in place, under its path slug, is a good one. */
  lemma CreateExactly(rules: Rules, t: Tree, id: string, name: string, parentId: Option<string>, kind: Kind)
    requires TreeInv(rules, t) && id !in t
    ensures Create(rules, t, id, name, parentId, kind).reply == "OK" <==>
            TreeInv(rules, Created(rules, t, id, name, parentId, kind))
  {
    hide TwoLevels, NamesDiffer, SlugsFollow, SlugsDiffer, Created, NameTaken, PathSlug;
    CreatedLevels(rules, t, id, name, parentId, kind);
    CreatedNames(rules, t, id, name, parentId, kind);
    if parentId != Some(id) {
      CreatedSlugs(rules, t, id, name, parentId, kind);
    }
  }

  // ---- update accepts exactly what the invariant admits, but for a child changing its kind

  lemma UpdatedFields(rules: Rules, t: Tree, id: string, patch: Patch)
    requires id in t
    ensures var after, targets, c := Updated(rules, t, id, patch), Targets(rules, t, id, patch), t[id];
            && after.Keys == t.Keys && id in targets && targets.Keys <= t.Keys
            && after[id] == Category(NextName(c, patch), targets[id], NextParent(c, patch), NextKind(c, patch))
            && (forall x :: x in t ==> after[x].slug == if x in targets then targets[x] else t[x].slug)
            && (forall x :: x in t && x != id ==> after[x] == t[x].(slug := after[x].slug))
  {
    hide PathSlug, CategoryPlan.BuildSlug;
  }

  /** The parent is a good one, and no child is left under a category that moved down or changed kind. */
  predicate LevelsFit(t: Tree, id: string, patch: Patch)
    requires id in t
  {
    var parentId, kind := NextParent(t[id], patch), NextKind(t[id], patch);
    && parentId != Some(id) && CheckParent(t, parentId, kind) == "OK"
    && (ChildrenOf(t, id) != {} ==> parentId.None? && kind == t[id].kind)
  }

  lemma LevelsFitNeeded(rules: Rules, t: Tree, id: string, patch: Patch)
    requires id in t && TwoLevels(t) && TwoLevels(Updated(rules, t, id, patch))
    ensures LevelsFit(t, id, patch)
  {
    hide Updated, Targets;
    UpdatedFields(rules, t, id, patch);
    var after := Updated(rules, t, id, patch);
    assert CheckParent(after, after[id].parentId, after[id].kind) == "OK";
    if x :| x in ChildrenOf(t, id) {
      assert CheckParent(t, t[x].parentId, t[x].kind) == "OK";
      assert x != id;
      assert CheckParent(after, after[x].parentId, after[x].kind) == "OK";
    }
  }

  lemma UpdatedLevels(rules: Rules, t: Tree, id: string, patch: Patch)
    requires id in t && TwoLevels(t)
    ensures TwoLevels(Updated(rules, t, id, patch)) <==> LevelsFit(t, id, patch)
  {
    hide Updated, Targets;
    UpdatedFields(rules, t, id, patch);
    var after := Updated(rules, t, id, patch);
    if LevelsFit(t, id, patch) {
      forall x | x in after ensures CheckParent(after, after[x].parentId, after[x].kind) == "OK" {
        assert CheckParent(t, t[x].parentId, t[x].kind) == "OK";
        assert t[x].parentId == Some(id) ==> x in ChildrenOf(t, id);
      }
    } else if TwoLevels(after) {
      LevelsFitNeeded(rules, t, id, patch);
    }
  }

  lemma UpdatedNames(rules: Rules, t: Tree, id: string, patch: Patch)
    requires id in t && NamesDiffer(rules, t)
    ensures var c := t[id];
            NamesDiffer(rules, Updated(rules, t, id, patch)) <==>
            !NameTaken(rules, t, NextName(c, patch), NextParent(c, patch), NextKind(c, patch), Some(id))
  {
    hide Updated, Targets;
    UpdatedFields(rules, t, id, patch);
    var after, c := Updated(rules, t, id, patch), t[id];
    var name, parentId, kind := NextName(c, patch), NextParent(c, patch), NextKind(c, patch);
    if NameTaken(rules, t, name, parentId, kind, Some(id)) {
      var x :| x in t && x != id && InScope(parentId, kind, t[x]) && rules.nameKey(t[x].name) == rules.nameKey(name);
      assert InScope(after[id].parentId, after[id].kind, after[x]);
    } else {
      forall a, b | a in after && b in after && a != b && InScope(after[a].parentId, after[a].kind, after[b])
        ensures rules.nameKey(after[a].name) != rules.nameKey(after[b].name)
      {
        if a == id {
          assert InScope(parentId, kind, t[b]);
        } else if b == id {
          assert InScope(parentId, kind, t[a]);
        } else {
          assert InScope(t[a].parentId, t[a].kind, t[b]);
        }
      }
    }
  }

  lemma UpdatedPath(rules: Rules, t: Tree, id: string, patch: Patch, x: string)
    requires id in t && x in t && TwoLevels(t) && SlugsFollow(rules, t) && LevelsFit(t, id, patch)
    ensures var after := Updated(rules, t, id, patch);
            PathSlug(rules, after, after[x].name, after[x].parentId) == after[x].slug
  {
    hide CategoryPlan.BuildSlug;
    UpdatedFields(rules, t, id, patch);
    var after := Updated(rules, t, id, patch);
    if x == id {
      SamePath(rules, t, after, after[id].name, after[id].parentId);
    } else {
      assert CheckParent(t, t[x].parentId, t[x].kind) == "OK";
      if t[x].parentId == Some(id) {
        assert x in ChildrenOf(t, id);
      } else {
        SamePath(rules, t, after, after[x].name, after[x].parentId);
      }
    }
  }

  lemma UpdatedSlugs(rules: Rules, t: Tree, id: string, patch: Patch)
    requires id in t && TwoLevels(t) && SlugsFollow(rules, t) && SlugsDiffer(t) && LevelsFit(t, id, patch)
    ensures var after, targets := Updated(rules, t, id, patch), Targets(rules, t, id, patch);
            SlugsFollow(rules, after) && SlugsDiffer(after) <==>
            (forall x :: x in targets ==> |targets[x]| > 0) && !SlugsTaken(t, targets)
  {
    hide Updated, Targets, PathSlug, TwoLevels, LevelsFit;
    UpdatedFields(rules, t, id, patch);
    var after, targets := Updated(rules, t, id, patch), Targets(rules, t, id, patch);
    forall x | x in t ensures PathSlug(rules, after, after[x].name, after[x].parentId) == after[x].slug {
      UpdatedPath(rules, t, id, patch, x);
    }
    if SlugsDiffer(after) {
      forall a, b | a in targets && b in targets && a != b ensures targets[a] != targets[b] {
        assert after[a].slug != after[b].slug;
      }
      forall a, b | a in targets && b in t && b !in targets ensures t[b].slug != targets[a] {
        assert after[a].slug != after[b].slug;
      }
    }
    if SlugsFollow(rules, after) {
      forall x | x in targets ensures |targets[x]| > 0 {
        assert |after[x].slug| > 0;
      }
    }
    if (forall x :: x in targets ==> |targets[x]| > 0) && !SlugsTaken(t, targets) {
      forall a, b | a in after && b in after && a != b ensures after[a].slug != after[b].slug {
      }
    }
  }

  /**
   An update is accepted exactly when the tree it asks for, slugs carried along, is a good one and no
   category with a parent changes kind; the last is refused even where the move would be sound.
   */
  lemma UpdateExactly(rules: Rules, t: Tree, id: string, patch: Patch)
    requires TreeInv(rules, t) && id in t
    ensures Update(rules, t, id, patch).reply == "OK" <==>
            TreeInv(rules, Updated(rules, t, id, patch)) &&
            !(t[id].parentId.Some? && NextKind(t[id], patch) != t[id].kind)
  {
    hide TwoLevels, NamesDiffer, SlugsFollow, SlugsDiffer, Updated, Targets, NameTaken, PathSlug, SlugsTaken;
    UpdatedLevels(rules, t, id, patch);
    UpdatedNames(rules, t, id, patch);
    if LevelsFit(t, id, patch) {
      UpdatedSlugs(rules, t, id, patch);
    }
  }

  lemma ExampleSlugs(rules: Rules)
    requires rules.slugNormal("A") == "a" && rules.slugNormal("A-B") == "a-b" && rules.slugNormal("B") == "b"
    ensures CategoryPlan.BuildSlug(rules.slugNormal, "A", None) == "a"
    ensures CategoryPlan.BuildSlug(rules.slugNormal, "B", None) == "b"
    ensures CategoryPlan.BuildSlug(rules.slugNormal, "B", Some("A")) == "a-b"
  {
    hide Slug.ToSlug;
    Slug.NormalisedSlug(rules.slugNormal, "A");
    Slug.NormalisedSlug(rules.slugNormal, "B");
    Slug.NormalisedSlug(rules.slugNormal, "A-B");
    assert "A" + "-" + "B" == "A-B";
  }

  /** That last refusal does happen: a child that leaves its parent and changes kind at once. */
  lemma SoundMoveRefused(rules: Rules, child: string, root: string)
    requires child != root && rules.nameKey("B") != rules.nameKey("A")
    requires rules.slugNormal("A") == "a" && rules.slugNormal("A-B") == "a-b" && rules.slugNormal("B") == "b"
    ensures var t: Tree := map[root := Category("A", "a", None, Normal),
                               child := Category("B", "a-b", Some(root), Normal)];
            var patch := Patch(None, Some(None), Some(Brand));
            && TreeInv(rules, t)
            && TreeInv(rules, Updated(rules, t, child, patch))
            && Update(rules, t, child, patch).reply == "CATEGORY_TYPE_CHANGE_REQUIRES_DETACHED_NODE"
  {
    hide CategoryPlan.BuildSlug, Updated, Targets;
    ExampleSlugs(rules);
    var t: Tree := map[root := Category("A", "a", None, Normal), child := Category("B", "a-b", Some(root), Normal)];
    var patch := Patch(None, Some(None), Some(Brand));
    DetachedTree(rules, t, child, root, patch);
    assert ChildrenOf(t, child) == {};
  }

  lemma DetachedTree(rules: Rules, t: Tree, child: string, root: string, patch: Patch)
    requires child != root && patch == Patch(None, Some(None), Some(Brand))
    requires t == map[root := Category("A", "a", None, Normal), child := Category("B", "a-b", Some(root), Normal)]
    requires CategoryPlan.BuildSlug(rules.slugNormal, "B", None) == "b"
    ensures Updated(rules, t, child, patch) ==
            map[root := Category("A", "a", None, Normal), child := Category("B", "b", None, Brand)]
  {
    hide CategoryPlan.BuildSlug;
    assert Affected(t, child, patch) == {child};
    assert Targets(rules, t, child, patch)[child] == "b";
  }

  // ---- delete

  lemma DeleteExactly(rules: Rules, t: Tree, id: string, inUse: bool)
    requires TreeInv(rules, t) && id in t
    ensures Delete(t, id, inUse).reply == "OK" <==> !inUse && TreeInv(rules, t - {id})
  {
    hide PathSlug;
    var after := t - {id};
    if x :| x in ChildrenOf(t, id) {
      assert CheckParent(t, t[x].parentId, t[x].kind) == "OK";
      assert x in after;
      assert CheckParent(after, after[x].parentId, after[x].kind) != "OK";
    } else {
      forall x | x in after
        ensures CheckParent(after, after[x].parentId, after[x].kind) == "OK"
        ensures PathSlug(rules, after, after[x].name, after[x].parentId) == after[x].slug
      {
        assert CheckParent(t, t[x].parentId, t[x].kind) == "OK";
        assert x !in ChildrenOf(t, id);
        SamePath(rules, t, after, after[x].name, after[x].parentId);
      }
    }
  }

  // ---- runs

  datatype Request =
    | CreateCategory(id: string, name: string, parentId: Option<string>, kind: Kind)
    | UpdateCategory(id: string, patch: Patch)
    | DeleteCategory(id: string, inUse: bool)

  function Apply(rules: Rules, t: Tree, r: Request): Step
  {
    match r
    case CreateCategory(id, name, parentId, kind) => Create(rules, t, id, name, parentId, kind)
    case UpdateCategory(id, patch) => Update(rules, t, id, patch)
    case DeleteCategory(id, inUse) => Delete(t, id, inUse)
  }

  function Run(rules: Rules, t: Tree, requests: seq<Request>): Tree
  {
    if |requests| == 0 then t
    else Apply(rules, Run(rules, t, requests[..|requests| - 1]), requests[|requests| - 1]).next
  }

  lemma ApplyKeeps(rules: Rules, t: Tree, r: Request)
    requires TreeInv(rules, t)
    ensures TreeInv(rules, Apply(rules, t, r).next)
  {
    hide TreeInv, Created, Updated, NameTaken, PathSlug, Targets, SlugsTaken;
    match r
    case CreateCategory(id, name, parentId, kind) =>
      if id !in t {
        CreateExactly(rules, t, id, name, parentId, kind);
      }
    case UpdateCategory(id, patch) =>
      if id in t {
        UpdateExactly(rules, t, id, patch);
      }
    case DeleteCategory(id, inUse) =>
      if id in t {
        DeleteExactly(rules, t, id, inUse);
      }
  }

  /** Every run, from the empty table, keeps the tree good. */
  lemma {:induction false} EveryRunKeepsTree(rules: Rules, requests: seq<Request>)
    ensures TreeInv(rules, Run(rules, map[], requests))
  {
    hide TreeInv, Apply;
    if |requests| == 0 {
      EmptyTree(rules);
    } else {
      EveryRunKeepsTree(rules, requests[..|requests| - 1]);
      ApplyKeeps(rules, Run(rules, map[], requests[..|requests| - 1]), requests[|requests| - 1]);
    }
  }

  lemma EmptyTree(rules: Rules)
    ensures TreeInv(rules, map[])
  {
  }
}
