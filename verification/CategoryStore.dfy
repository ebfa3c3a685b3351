/**
 The category table behind the repository (categories.repository.ts), changed write by write. The
 unique index on slugs is checked at every write, also between the two phases of a rename.
 */
module CategoryStore {
  import opened Wrappers
  import opened CategoryTree
  import opened Collections
  import CategoryPlan
  import Slug

  datatype Target = Target(id: string, currentSlug: string, slug: string)

  /** The unique index lets this category take the slug. */
  ghost predicate SlugFree(t: Tree, id: string, slug: string)
  {
    forall x :: x in t && t[x].slug == slug ==> x == id
  }

  const TEMPORARY: string := "__category_slug_rewrite__"

  function Patched(c: Category, id: string, slugs: map<string, string>): Category
  {
    if id in slugs then c.(slug := slugs[id]) else c
  }

  function WithSlugs(t: Tree, slugs: map<string, string>): (patched: Tree)
    ensures patched.Keys == t.Keys
    ensures forall x :: x in t ==> patched[x] == Patched(t[x], x, slugs)
  {
    map x | x in t :: Patched(t[x], x, slugs)
  }

  /** A list of rewrites: one per category of the map, each with the slug it holds now. */
  ghost predicate Lists(t: Tree, targets: seq<Target>, slugs: map<string, string>)
  {
    && (forall k, l :: 0 <= k < l < |targets| ==> targets[k].id != targets[l].id)
    && (forall k :: 0 <= k < |targets| ==>
          && targets[k].id in t && t[targets[k].id].slug == targets[k].currentSlug
          && targets[k].id in slugs && slugs[targets[k].id] == targets[k].slug)
    && (forall id :: id in slugs ==> exists k :: 0 <= k < |targets| && targets[k].id == id)
  }

  /** The same while the rewrites of some categories are still to be listed. */
  ghost predicate ListsBut(t: Tree, targets: seq<Target>, slugs: map<string, string>, rest: set<string>)
  {
    && (forall k, l :: 0 <= k < l < |targets| ==> targets[k].id != targets[l].id)
    && (forall k :: 0 <= k < |targets| ==>
          && targets[k].id in t && t[targets[k].id].slug == targets[k].currentSlug
          && targets[k].id in slugs && slugs[targets[k].id] == targets[k].slug && targets[k].id !in rest)
    && (forall id :: id in slugs && id !in rest ==> exists k :: 0 <= k < |targets| && targets[k].id == id)
  }

  lemma ListOne(t: Tree, targets: seq<Target>, slugs: map<string, string>, rest: set<string>, target: Target)
    requires ListsBut(t, targets, slugs, rest) && target.id in rest
    requires target.id in t && t[target.id].slug == target.currentSlug
    requires target.id in slugs && slugs[target.id] == target.slug
    ensures ListsBut(t, targets + [target], slugs, rest - {target.id})
  {
    var longer := targets + [target];
    forall id | id in slugs && id !in rest - {target.id} ensures exists k :: 0 <= k < |longer| && longer[k].id == id {
      if id == target.id {
        assert longer[|targets|].id == id;
      } else {
        var k :| 0 <= k < |targets| && targets[k].id == id;
        assert longer[k].id == id;
      }
    }
  }

  /** After n temporary slugs. */
  ghost predicate FirstPhase(targets: seq<Target>, n: nat, written: map<string, string>)
    requires n <= |targets|
  {
    && (forall k :: 0 <= k < n && targets[k].currentSlug != targets[k].slug ==> targets[k].id in written)
    && (forall id :: id in written ==> written[id] == TEMPORARY + id)
    && (forall id :: id in written ==>
          exists k :: 0 <= k < n && targets[k].id == id && targets[k].currentSlug != targets[k].slug)
  }

  /** After n final slugs: the rest hold a temporary one, or the right one already. */
  ghost predicate SecondPhase(targets: seq<Target>, n: nat, written: map<string, string>)
    requires n <= |targets|
  {
    && (forall k :: 0 <= k < n ==> targets[k].id in written && written[targets[k].id] == targets[k].slug)
    && (forall k :: n <= k < |targets| ==>
          if targets[k].id in written then written[targets[k].id] == TEMPORARY + targets[k].id
          else targets[k].currentSlug == targets[k].slug)
    && (forall id :: id in written ==> exists k :: 0 <= k < |targets| && targets[k].id == id)
  }

  ghost predicate NoUnderscores(t: Tree, slugs: map<string, string>)
  {
    && (forall x :: x in t ==> '_' !in t[x].slug)
    && (forall x :: x in slugs ==> '_' !in slugs[x])
  }

  lemma BuiltSlugs(rules: Rules, t: Tree, id: string, patch: Patch)
    requires SlugsFollow(rules, t) && id in t
    ensures NoUnderscores(t, Targets(rules, t, id, patch))
  {
    forall name: string, parentName: Option<string>
      ensures '_' !in CategoryPlan.BuildSlug(rules.slugNormal, name, parentName)
    {
      Slug.ToSlugShape(rules.slugNormal,
        if parentName.Some? && |parentName.value| > 0 then parentName.value + "-" + name else name);
    }
  }

  lemma TemporaryShape(id: string, other: string)
    ensures '_' in TEMPORARY + id
    ensures id != other ==> TEMPORARY + id != TEMPORARY + other
  {
    assert (TEMPORARY + id)[0] == '_';
    assert (TEMPORARY + id)[|TEMPORARY|..] == id && (TEMPORARY + other)[|TEMPORARY|..] == other;
  }

  lemma TemporaryIsFree(t: Tree, targets: seq<Target>, slugs: map<string, string>, n: nat, written: map<string, string>)
    requires n < |targets| && NoUnderscores(t, slugs) && FirstPhase(targets, n, written)
    ensures SlugFree(WithSlugs(t, written), targets[n].id, TEMPORARY + targets[n].id)
  {
    forall x | x in t && Patched(t[x], x, written).slug == TEMPORARY + targets[n].id ensures x == targets[n].id {
      TemporaryShape(targets[n].id, x);
    }
  }

  lemma TargetIsFree(t: Tree, targets: seq<Target>, slugs: map<string, string>, n: nat, written: map<string, string>)
    requires n < |targets| && Lists(t, targets, slugs) && NoUnderscores(t, slugs) && !SlugsTaken(t, slugs)
    requires SecondPhase(targets, n, written)
    ensures SlugFree(WithSlugs(t, written), targets[n].id, targets[n].slug)
  {
    forall x | x in t && x != targets[n].id ensures Patched(t[x], x, written).slug != targets[n].slug {
      TemporaryShape(x, x);
      if x in slugs {
        var k :| 0 <= k < |targets| && targets[k].id == x;
        assert slugs[x] != slugs[targets[n].id];
      } else {
        assert x !in written;
        assert t[x].slug != slugs[targets[n].id];
      }
    }
  }

  lemma PatchTwice(t: Tree, written: map<string, string>, id: string, slug: string)
    requires id in t
    ensures WithSlugs(t, written)[id := WithSlugs(t, written)[id].(slug := slug)] == WithSlugs(t, written[id := slug])
  {
  }

  lemma NothingWritten(t: Tree, targets: seq<Target>)
    ensures WithSlugs(t, map[]) == t && FirstPhase(targets, 0, map[])
  {
  }

  lemma ListedIds(t: Tree, targets: seq<Target>, slugs: map<string, string>)
    requires Lists(t, targets, slugs)
    ensures forall k :: 0 <= k < |targets| ==> targets[k].id in t
    ensures forall k, l :: 0 <= k < l < |targets| ==> targets[k].id != targets[l].id
  {
  }

  lemma EmptySlugs(t: Tree, targets: seq<Target>, slugs: map<string, string>)
    requires Lists(t, targets, slugs)
    ensures (exists k :: 0 <= k < |targets| && |targets[k].slug| == 0) <==> exists x :: x in slugs && |slugs[x]| == 0
  {
  }

  lemma FirstPhaseStep(targets: seq<Target>, n: nat, written: map<string, string>)
    requires n < |targets| && FirstPhase(targets, n, written)
    ensures targets[n].currentSlug == targets[n].slug ==> FirstPhase(targets, n + 1, written)
    ensures targets[n].currentSlug != targets[n].slug ==>
              FirstPhase(targets, n + 1, written[targets[n].id := TEMPORARY + targets[n].id])
  {
  }

  lemma PhaseTurn(t: Tree, targets: seq<Target>, slugs: map<string, string>, written: map<string, string>)
    requires FirstPhase(targets, |targets|, written) && Lists(t, targets, slugs)
    ensures SecondPhase(targets, 0, written)
  {
  }

  lemma SecondPhaseStep(t: Tree, targets: seq<Target>, slugs: map<string, string>, n: nat, written: map<string, string>)
    requires n < |targets| && SecondPhase(targets, n, written) && Lists(t, targets, slugs)
    ensures SecondPhase(targets, n + 1, written[targets[n].id := targets[n].slug])
  {
  }

  /** The row with its new fields and still its old slug. */
  ghost function Retitled(t: Tree, id: string, patch: Patch): Tree
    requires id in t
  {
    t[id := Category(NextName(t[id], patch), t[id].slug, NextParent(t[id], patch), NextKind(t[id], patch))]
  }

  lemma RetitledKeeps(t: Tree, id: string, patch: Patch, targets: seq<Target>, slugs: map<string, string>)
    requires id in t && Lists(t, targets, slugs) && NoUnderscores(t, slugs) && !SlugsTaken(t, slugs)
    ensures var base := Retitled(t, id, patch);
            Lists(base, targets, slugs) && NoUnderscores(base, slugs) && !SlugsTaken(base, slugs)
  {
  }

  lemma RetitledWritten(t: Tree, id: string, patch: Patch, written: map<string, string>, slug: string)
    requires id in t
    ensures var c := t[id];
            WithSlugs(t, written)[id := Category(NextName(c, patch), slug, NextParent(c, patch), NextKind(c, patch))] ==
            WithSlugs(Retitled(t, id, patch), written[id := slug])
  {
  }

  /** All final slugs written are the map's slugs, no more and no fewer. */
  lemma AllWritten(t: Tree, targets: seq<Target>, slugs: map<string, string>, written: map<string, string>)
    requires Lists(t, targets, slugs) && SecondPhase(targets, |targets|, written)
    ensures written == slugs
  {
    forall x ensures x in written <==> x in slugs {
      if x in slugs {
        var k :| 0 <= k < |targets| && targets[k].id == x;
      }
    }
    forall x | x in slugs ensures written[x] == slugs[x] {
      var k :| 0 <= k < |targets| && targets[k].id == x;
    }
  }

  lemma PhasesUpdate(rules: Rules, t: Tree, id: string, patch: Patch, targets: seq<Target>,
                     written: map<string, string>)
    requires id in t && Lists(t, targets, Targets(rules, t, id, patch)) && SecondPhase(targets, |targets|, written)
    ensures WithSlugs(Retitled(t, id, patch), written) == Updated(rules, t, id, patch)
  {
    hide Updated, Targets, SecondPhase, Lists;
    UpdatedFields(rules, t, id, patch);
    AllWritten(t, targets, Targets(rules, t, id, patch), written);
  }

  // ---- the checks on a list of targets

  function SlugsOf(targets: seq<Target>): (slugs: seq<string>)
    ensures |slugs| == |targets| && forall k :: 0 <= k < |targets| ==> slugs[k] == targets[k].slug
  {
    seq(|targets|, k requires 0 <= k < |targets| => targets[k].slug)
  }

  /** A category that is not being rewritten holds the slug. */
  predicate HeldOutside(t: Tree, affected: set<string>, slug: string)
  {
    exists x :: x in t && x !in affected && t[x].slug == slug
  }

  lemma NotTakenMeans(t: Tree, targets: seq<Target>, slugs: map<string, string>)
    requires Lists(t, targets, slugs) && !SlugsTaken(t, slugs)
    ensures Distinct(SlugsOf(targets))
    ensures forall k :: 0 <= k < |targets| ==> !HeldOutside(t, slugs.Keys, targets[k].slug)
  {
    forall k, l | 0 <= k < l < |targets| ensures targets[k].slug != targets[l].slug {
      assert slugs[targets[k].id] != slugs[targets[l].id];
    }
  }

  lemma FreeMeans(t: Tree, targets: seq<Target>, slugs: map<string, string>)
    requires Lists(t, targets, slugs) && Distinct(SlugsOf(targets))
    requires forall k :: 0 <= k < |targets| ==> !HeldOutside(t, slugs.Keys, targets[k].slug)
    ensures !SlugsTaken(t, slugs)
  {
    forall a, b | a in slugs && b in slugs && a != b ensures slugs[a] != slugs[b] {
      var k :| 0 <= k < |targets| && targets[k].id == a;
      var l :| 0 <= l < |targets| && targets[l].id == b;
      assert k != l;
      assert SlugsOf(targets)[k] != SlugsOf(targets)[l];
    }
    forall a, b | a in slugs && b in t && b !in slugs ensures t[b].slug != slugs[a] {
      var k :| 0 <= k < |targets| && targets[k].id == a;
      assert !HeldOutside(t, slugs.Keys, targets[k].slug);
    }
  }

  lemma AffectedIds(t: Tree, targets: seq<Target>, slugs: map<string, string>)
    requires Lists(t, targets, slugs)
    ensures (set k | 0 <= k < |targets| :: targets[k].id) == slugs.Keys
  {
  }

  method NoneHeld(t: Tree, targets: seq<Target>, affected: set<string>) returns (free: bool)
    ensures free <==> forall k :: 0 <= k < |targets| ==> !HeldOutside(t, affected, targets[k].slug)
  {
    hide HeldOutside;
    for n := 0 to |targets|
      invariant forall k :: 0 <= k < n ==> !HeldOutside(t, affected, targets[k].slug)
    {
      if HeldOutside(t, affected, targets[n].slug) {
        return false;
      }
    }
    return true;
  }

  method SlugsAvailable(t: Tree, targets: seq<Target>, ghost slugs: map<string, string>) returns (available: bool)
    requires Lists(t, targets, slugs)
    ensures available <==> !SlugsTaken(t, slugs)
  {
    hide SlugsTaken, HeldOutside, Distinct, Lists;
    SetSize(SlugsOf(targets));
    if !SlugsTaken(t, slugs) {
      NotTakenMeans(t, targets, slugs);
    }
    AffectedIds(t, targets, slugs);
    if |SetOf(SlugsOf(targets))| != |targets| {
      return false;
    }
    available := NoneHeld(t, targets, set k | 0 <= k < |targets| :: targets[k].id);
    if available {
      FreeMeans(t, targets, slugs);
    }
  }

  /** The category table. */
  class Categories {
    const rules: Rules
    var nodes: Tree

    ghost predicate Valid()
      reads this
    {
      TreeInv(rules, nodes)
    }

    constructor (rules: Rules)
      ensures Valid() && this.rules == rules && nodes == map[]
    {
      this.rules := rules;
      nodes := map[];
    }

    /** One row is written; the unique index must admit its slug. */
    method Put(id: string, c: Category)
      requires SlugsDiffer(nodes) && SlugFree(nodes, id, c.slug)
      modifies this`nodes
      ensures SlugsDiffer(nodes) && nodes == old(nodes)[id := c]
    {
      nodes := nodes[id := c];
    }

    method CreateCategory(id: string, name: string, parentId: Option<string>, kind: Option<Kind>)
      returns (reply: string)
      requires Valid()
      modifies this`nodes
      ensures Valid()
      ensures Step(nodes, reply) == Create(rules, old(nodes), id, name, parentId, kind.GetOr(Normal))
    {
      hide PathSlug, NameTaken, TwoLevels, NamesDiffer, SlugsFollow;
      var chosenKind := kind.GetOr(Normal);
      ghost var request := CategoryTree.CreateCategory(id, name, parentId, chosenKind);
      ApplyKeeps(rules, nodes, request);
      if NameTaken(rules, nodes, name, parentId, chosenKind, None) {
        return "CATEGORY_NAME_ALREADY_EXISTS";
      }
      var fault := CheckParent(nodes, parentId, chosenKind);
      if fault != "OK" {
        return fault;
      }
      var slug := PathSlug(rules, nodes, name, parentId);
      if |slug| == 0 {
        return "CATEGORY_SLUG_INVALID";
      }
      if exists other :: other in nodes && nodes[other].slug == slug {
        return "CATEGORY_SLUG_ALREADY_EXISTS";
      }
      if id in nodes {
        return "ID_TAKEN";
      }
      Put(id, Category(name, slug, parentId, chosenKind));
      reply := "OK";
    }

    /** The rewrites an update needs: the category's own, then its children's where its name changes. */
    method BuildTargets(id: string, patch: Patch) returns (targets: seq<Target>)
      requires id in nodes
      ensures |targets| > 0 && targets[0].id == id
      ensures Lists(nodes, targets, Targets(rules, nodes, id, patch))
    {
      hide PathSlug, CategoryPlan.BuildSlug;
      ghost var slugs := Targets(rules, nodes, id, patch);
      var c := nodes[id];
      var nextName := NextName(c, patch);
      targets := [Target(id, c.slug, PathSlug(rules, nodes, nextName, NextParent(c, patch)))];
      if NextParent(c, patch).None? && nextName != c.name {
        var rest := ChildrenOf(nodes, id) - {id};
        assert slugs.Keys == {id} + rest;
        while rest != {}
          invariant rest <= ChildrenOf(nodes, id) - {id}
          invariant |targets| > 0 && targets[0].id == id
          invariant ListsBut(nodes, targets, slugs, rest)
          decreases rest
        {
          var child :| child in rest;
          var slug := CategoryPlan.BuildSlug(rules.slugNormal, nodes[child].name, Some(nextName));
          ListOne(nodes, targets, slugs, rest, Target(child, nodes[child].slug, slug));
          targets := targets + [Target(child, nodes[child].slug, slug)];
          rest := rest - {child};
        }
      }
    }

    /** The two phases of an accepted update. */
    method Rewrite(id: string, patch: Patch, targets: seq<Target>)
      requires SlugsDiffer(nodes) && id in nodes && |targets| > 0 && targets[0].id == id
      requires Lists(nodes, targets, Targets(rules, nodes, id, patch))
      requires NoUnderscores(nodes, Targets(rules, nodes, id, patch))
      requires !SlugsTaken(nodes, Targets(rules, nodes, id, patch))
      modifies this`nodes
      ensures SlugsDiffer(nodes) && nodes == Updated(rules, old(nodes), id, patch)
    {
      hide NoUnderscores, Lists, SlugsTaken, FirstPhase, SecondPhase, Updated, Targets, SlugsDiffer, SlugFree,
        WithSlugs;
      ghost var start, slugs := nodes, Targets(rules, nodes, id, patch);
      ghost var written: map<string, string> := map[];
      NothingWritten(start, targets);
      ListedIds(start, targets, slugs);
      for n := 0 to |targets|
        invariant SlugsDiffer(nodes) && nodes == WithSlugs(start, written)
        invariant FirstPhase(targets, n, written)
      {
        FirstPhaseStep(targets, n, written);
        if targets[n].currentSlug != targets[n].slug {
          TemporaryIsFree(start, targets, slugs, n, written);
          PatchTwice(start, written, targets[n].id, TEMPORARY + targets[n].id);
          Put(targets[n].id, nodes[targets[n].id].(slug := TEMPORARY + targets[n].id));
          written := written[targets[n].id := TEMPORARY + targets[n].id];
        }
      }
      PhaseTurn(start, targets, slugs, written);
      TargetIsFree(start, targets, slugs, 0, written);
      SecondPhaseStep(start, targets, slugs, 0, written);
      RetitledWritten(start, id, patch, written, targets[0].slug);
      RetitledKeeps(start, id, patch, targets, slugs);
      ghost var base := Retitled(start, id, patch);
      var c := nodes[id];
      Put(id, Category(NextName(c, patch), targets[0].slug, NextParent(c, patch), NextKind(c, patch)));
      written := written[id := targets[0].slug];
      for n := 1 to |targets|
        invariant SlugsDiffer(nodes) && nodes == WithSlugs(base, written)
        invariant SecondPhase(targets, n, written)
      {
        TargetIsFree(base, targets, slugs, n, written);
        SecondPhaseStep(base, targets, slugs, n, written);
        PatchTwice(base, written, targets[n].id, targets[n].slug);
        Put(targets[n].id, nodes[targets[n].id].(slug := targets[n].slug));
        written := written[targets[n].id := targets[n].slug];
      }
      PhasesUpdate(rules, start, id, patch, targets, written);
    }

    method UpdateCategory(id: string, patch: Patch) returns (reply: string)
      requires Valid()
      modifies this`nodes
      ensures Valid()
      ensures Step(nodes, reply) == Update(rules, old(nodes), id, patch)
    {
      hide Lists, NoUnderscores, SlugsTaken, Updated, Targets, NameTaken, TwoLevels, NamesDiffer, SlugsDiffer,
        SlugsFollow;
      ApplyKeeps(rules, nodes, CategoryTree.UpdateCategory(id, patch));
      if id !in nodes {
        return "CATEGORY_NOT_FOUND";
      }
      var c := nodes[id];
      var parentId, kind := NextParent(c, patch), NextKind(c, patch);
      if parentId == Some(id) {
        return "CATEGORY_SELF_PARENT";
      }
      if ChildrenOf(nodes, id) != {} && parentId.Some? {
        return "CATEGORY_HAS_CHILDREN";
      }
      if KindLocked(nodes, id, patch) {
        return "CATEGORY_TYPE_CHANGE_REQUIRES_DETACHED_NODE";
      }
      if NameTaken(rules, nodes, NextName(c, patch), parentId, kind, Some(id)) {
        return "CATEGORY_NAME_ALREADY_EXISTS";
      }
      var fault := CheckParent(nodes, parentId, kind);
      if fault != "OK" {
        return fault;
      }
      ghost var slugs := Targets(rules, nodes, id, patch);
      var targets := BuildTargets(id, patch);
      EmptySlugs(nodes, targets, slugs);
      if exists k :: 0 <= k < |targets| && |targets[k].slug| == 0 {
        return "CATEGORY_SLUG_INVALID";
      }
      var available := SlugsAvailable(nodes, targets, slugs);
      if !available {
        return "CATEGORY_SLUG_ALREADY_EXISTS";
      }
      BuiltSlugs(rules, nodes, id, patch);
      Rewrite(id, patch, targets);
      reply := "OK";
    }

    method DeleteCategory(id: string, inUse: bool) returns (reply: string)
      requires Valid()
      modifies this`nodes
      ensures Valid()
      ensures Step(nodes, reply) == Delete(old(nodes), id, inUse)
    {
      hide TwoLevels, NamesDiffer, SlugsDiffer, SlugsFollow;
      ApplyKeeps(rules, nodes, CategoryTree.DeleteCategory(id, inUse));
      if id !in nodes {
        return "CATEGORY_NOT_FOUND";
      }
      if ChildrenOf(nodes, id) != {} {
        return "CATEGORY_HAS_CHILDREN";
      }
      if inUse {
        return "CATEGORY_IN_USE";
      }
      nodes := nodes - {id};
      reply := "OK";
    }
  }
}
