/**
 The reconciliation of category slugs: the plan (category-slug.util.ts), the search for temporary
 slugs and the two-phase rewrite (reconcile-category-slugs.ts). Ids are primary keys, slugs carry a
 unique index that is checked at every single write.
 */
module CategoryPlan {
  import opened Wrappers
  import Slug
  import Sorting

  datatype Record = Record(id: string, name: string, slug: string, parentId: Option<string>)

  datatype Change = Change(row: Record, nextSlug: string)

  datatype Conflict = Conflict(slug: string, rows: seq<Record>)

  datatype Plan =
    | Planned(changes: seq<Change>)
    | Unresolved(row: Record)
    | Unsluggable(row: Record)
    | Conflicting(conflicts: seq<Conflict>)

  function BuildSlug(normal: string -> string, name: string, parentName: Option<string>): string
  {
    Slug.ToSlug(normal, if parentName.Some? && |parentName.value| > 0 then parentName.value + "-" + name else name)
  }

  /** A path slug is the name's own slug, or the parent's slug and it, where the normaliser respects the hyphen. */
  lemma PathOfSlugs(normal: string -> string, name: string, parentName: string)
    requires |parentName| > 0 && normal(parentName + "-" + name) == normal(parentName) + "-" + normal(name)
    ensures BuildSlug(normal, name, None) == Slug.ToSlug(normal, name)
    ensures BuildSlug(normal, name, Some(parentName))
            == Slug.Hyphenated(Slug.ToSlug(normal, parentName), Slug.ToSlug(normal, name))
  {
    hide Slug.Shaped;
    Slug.SeparatorBecomesHyphen(normal(parentName), "-", normal(name));
  }

  /** The last record with this id, as a map built from the list would hold. */
  function Find(rows: seq<Record>, id: string): Option<Record>
  {
    if |rows| == 0 then None
    else if rows[|rows| - 1].id == id then Some(rows[|rows| - 1])
    else Find(rows[..|rows| - 1], id)
  }

  predicate Linked(r: Record)
  {
    r.parentId.Some? && |r.parentId.value| > 0
  }

  function ParentOf(rows: seq<Record>, r: Record): Option<Record>
  {
    if Linked(r) then Find(rows, r.parentId.value) else None
  }

  /** No parent, or one that is present and a root. */
  predicate Resolves(rows: seq<Record>, r: Record)
  {
    Linked(r) ==> ParentOf(rows, r).Some? && ParentOf(rows, r).value.parentId.None?
  }

  function Target(normal: string -> string, rows: seq<Record>, r: Record): string
  {
    var parent := ParentOf(rows, r);
    BuildSlug(normal, r.name, if parent.Some? then Some(parent.value.name) else None)
  }

  predicate Sluggable(normal: string -> string, rows: seq<Record>, r: Record)
  {
    Resolves(rows, r) && |Target(normal, rows, r)| > 0
  }

  /** Every record gets a slug, and no two get the same. */
  ghost predicate Plannable(normal: string -> string, rows: seq<Record>)
  {
    && (forall i :: 0 <= i < |rows| ==> Sluggable(normal, rows, rows[i]))
    && TargetsDiffer(normal, rows)
  }

  ghost predicate TargetsDiffer(normal: string -> string, rows: seq<Record>)
  {
    forall i, j :: 0 <= i < j < |rows| ==> Target(normal, rows, rows[i]) != Target(normal, rows, rows[j])
  }

  /** Those of some records that would get a given slug, in order. */
  function Claimants(normal: string -> string, all: seq<Record>, rows: seq<Record>, slug: string): seq<Record>
  {
    if |rows| == 0 then []
    else
      var rest := Claimants(normal, all, rows[..|rows| - 1], slug);
      if Target(normal, all, rows[|rows| - 1]) == slug then rest + [rows[|rows| - 1]] else rest
  }

  /** The records whose slug is out of date, in order. */
  function Outdated(normal: string -> string, all: seq<Record>, rows: seq<Record>): seq<Change>
  {
    if |rows| == 0 then []
    else
      var rest, last := Outdated(normal, all, rows[..|rows| - 1]), rows[|rows| - 1];
      if last.slug != Target(normal, all, last) then rest + [Change(last, Target(normal, all, last))] else rest
  }

  /** Roots before children, then by id in the collation's order. */
  predicate PlanOrder(collation: (string, string) -> bool, a: Change, b: Change)
  {
    if a.row.parentId.None? != b.row.parentId.None? then a.row.parentId.None?
    else collation(a.row.id, b.row.id)
  }

  lemma {:induction false} OneClaimant(normal: string -> string, all: seq<Record>, rows: seq<Record>, slug: string,
                                       i: nat)
    requires i < |rows| && Target(normal, all, rows[i]) == slug
    ensures |Claimants(normal, all, rows, slug)| >= 1
  {
    if i < |rows| - 1 {
      OneClaimant(normal, all, rows[..|rows| - 1], slug, i);
    }
  }

  lemma {:induction false} TwoClaimants(normal: string -> string, all: seq<Record>, rows: seq<Record>, slug: string,
                                        i: nat, j: nat)
    requires i < j < |rows| && Target(normal, all, rows[i]) == slug && Target(normal, all, rows[j]) == slug
    ensures |Claimants(normal, all, rows, slug)| >= 2
  {
    if j < |rows| - 1 {
      TwoClaimants(normal, all, rows[..|rows| - 1], slug, i, j);
    } else {
      OneClaimant(normal, all, rows[..|rows| - 1], slug, i);
    }
  }

  lemma {:induction false} ClaimantIndex(normal: string -> string, all: seq<Record>, rows: seq<Record>, slug: string)
    returns (i: nat)
    requires |Claimants(normal, all, rows, slug)| >= 1
    ensures i < |rows| && Target(normal, all, rows[i]) == slug
  {
    if Target(normal, all, rows[|rows| - 1]) == slug {
      i := |rows| - 1;
    } else {
      i := ClaimantIndex(normal, all, rows[..|rows| - 1], slug);
    }
  }

  lemma {:induction false} RivalIndices(normal: string -> string, all: seq<Record>, rows: seq<Record>, slug: string)
    returns (i: nat, j: nat)
    requires |Claimants(normal, all, rows, slug)| >= 2
    ensures i < j < |rows| && Target(normal, all, rows[i]) == slug && Target(normal, all, rows[j]) == slug
  {
    if Target(normal, all, rows[|rows| - 1]) == slug {
      i := ClaimantIndex(normal, all, rows[..|rows| - 1], slug);
      j := |rows| - 1;
    } else {
      i, j := RivalIndices(normal, all, rows[..|rows| - 1], slug);
    }
  }

  /** No slug has two claimants exactly when the targets differ. */
  lemma SingleClaimants(normal: string -> string, rows: seq<Record>)
    ensures (forall slug :: |Claimants(normal, rows, rows, slug)| <= 1) <==> TargetsDiffer(normal, rows)
  {
    if TargetsDiffer(normal, rows) {
      forall slug ensures |Claimants(normal, rows, rows, slug)| <= 1 {
        if |Claimants(normal, rows, rows, slug)| >= 2 {
          var i, j := RivalIndices(normal, rows, rows, slug);
        }
      }
    } else {
      var i, j :| 0 <= i < j < |rows| && Target(normal, rows, rows[i]) == Target(normal, rows, rows[j]);
      TwoClaimants(normal, rows, rows, Target(normal, rows, rows[i]), i, j);
    }
  }

  lemma PlanOrderIsTotal(collation: (string, string) -> bool)
    requires Sorting.TotalPreorder(collation)
    ensures Sorting.TotalPreorder((a, b) => PlanOrder(collation, a, b))
  {
  }

  /** In a plan the roots come before all children, and each of the two in the collation's order of their ids. */
  lemma RootsComeFirst(collation: (string, string) -> bool, changes: seq<Change>, i: nat, j: nat)
    requires Sorting.Sorted((a, b) => PlanOrder(collation, a, b), changes) && i < j < |changes|
    ensures changes[j].row.parentId.None? ==> changes[i].row.parentId.None?
    ensures changes[i].row.parentId.None? == changes[j].row.parentId.None? ==>
              collation(changes[i].row.id, changes[j].row.id)
  {
  }

  /** What a plan says about the records it was made from. */
  ghost predicate PlanIsRight(normal: string -> string, collation: (string, string) -> bool, rows: seq<Record>,
                              plan: Plan)
  {
    match plan
    case Unresolved(r) =>
      exists i :: 0 <= i < |rows| && rows[i] == r && !Resolves(rows, r) &&
                  forall j :: 0 <= j < i ==> Sluggable(normal, rows, rows[j])
    case Unsluggable(r) =>
      exists i :: 0 <= i < |rows| && rows[i] == r && Resolves(rows, r) && Target(normal, rows, r) == "" &&
                  forall j :: 0 <= j < i ==> Sluggable(normal, rows, rows[j])
    case Conflicting(conflicts) =>
      && (forall i :: 0 <= i < |rows| ==> Sluggable(normal, rows, rows[i]))
      && |conflicts| > 0
      && (forall k :: 0 <= k < |conflicts| ==>
            |conflicts[k].rows| > 1 && conflicts[k].rows == Claimants(normal, rows, rows, conflicts[k].slug))
      && (forall k, l :: 0 <= k < l < |conflicts| ==> conflicts[k].slug != conflicts[l].slug)
      && (forall slug :: |Claimants(normal, rows, rows, slug)| > 1 ==>
            exists k :: 0 <= k < |conflicts| && conflicts[k].slug == slug)
    case Planned(changes) =>
      && Plannable(normal, rows)
      && multiset(changes) == multiset(Outdated(normal, rows, rows))
      && Sorting.Sorted((a, b) => PlanOrder(collation, a, b), changes)
  }

  /** The collisions among the gathered groups. */
  method Collisions(keys: seq<string>, groups: map<string, seq<Record>>) returns (conflicts: seq<Conflict>)
    requires forall k :: 0 <= k < |keys| ==> keys[k] in groups
    requires forall k, l :: 0 <= k < l < |keys| ==> keys[k] != keys[l]
    ensures forall k :: 0 <= k < |conflicts| ==>
              conflicts[k].slug in groups && conflicts[k].rows == groups[conflicts[k].slug] && |conflicts[k].rows| > 1
    ensures forall k, l :: 0 <= k < l < |conflicts| ==> conflicts[k].slug != conflicts[l].slug
    ensures forall i :: 0 <= i < |keys| && |groups[keys[i]]| > 1 ==>
              exists k :: 0 <= k < |conflicts| && conflicts[k].slug == keys[i]
  {
    conflicts := [];
    ghost var place: map<string, nat> := map[];
    for n := 0 to |keys|
      invariant forall k :: 0 <= k < |conflicts| ==>
                  conflicts[k].slug in groups && conflicts[k].rows == groups[conflicts[k].slug] &&
                  |conflicts[k].rows| > 1
      invariant forall k :: 0 <= k < |conflicts| ==> conflicts[k].slug in keys[..n]
      invariant forall k, l :: 0 <= k < l < |conflicts| ==> conflicts[k].slug != conflicts[l].slug
      invariant forall slug :: slug in place ==> place[slug] < |conflicts| && conflicts[place[slug]].slug == slug
      invariant forall i :: 0 <= i < n && |groups[keys[i]]| > 1 ==> keys[i] in place
    {
      if |groups[keys[n]]| > 1 {
        place := place[keys[n] := |conflicts|];
        conflicts := conflicts + [Conflict(keys[n], groups[keys[n]])];
      }
    }
  }

  /** The groups gathered so far are the claimants among the records read so far. */
  ghost predicate Gathered(normal: string -> string, all: seq<Record>, rows: seq<Record>,
                           groups: map<string, seq<Record>>)
  {
    forall slug :: (if slug in groups then groups[slug] else []) == Claimants(normal, all, rows, slug)
  }

  ghost predicate KeysOf(keys: seq<string>, groups: map<string, seq<Record>>)
  {
    && (forall k :: 0 <= k < |keys| ==> keys[k] in groups)
    && (forall k, l :: 0 <= k < l < |keys| ==> keys[k] != keys[l])
    && (forall slug :: slug in groups ==> slug in keys)
  }

  lemma GatheredStep(normal: string -> string, all: seq<Record>, rows: seq<Record>, n: nat,
                     before: map<string, seq<Record>>, after: map<string, seq<Record>>)
    requires n < |rows| && Gathered(normal, all, rows[..n], before)
    requires var slug := Target(normal, all, rows[n]);
             after == before[slug := (if slug in before then before[slug] else []) + [rows[n]]]
    ensures Gathered(normal, all, rows[..n + 1], after)
  {
    hide Target;
    assert rows[..n + 1][..n] == rows[..n];
  }

  lemma OutdatedStep(normal: string -> string, all: seq<Record>, rows: seq<Record>, n: nat)
    requires n < |rows|
    ensures Outdated(normal, all, rows[..n + 1]) ==
            Outdated(normal, all, rows[..n]) +
            if rows[n].slug != Target(normal, all, rows[n]) then [Change(rows[n], Target(normal, all, rows[n]))] else []
  {
    hide Target;
    assert rows[..n + 1][..n] == rows[..n];
  }

  lemma ConflictsAreRight(normal: string -> string, collation: (string, string) -> bool, rows: seq<Record>,
                          keys: seq<string>, groups: map<string, seq<Record>>, conflicts: seq<Conflict>)
    requires forall i :: 0 <= i < |rows| ==> Sluggable(normal, rows, rows[i])
    requires Gathered(normal, rows, rows, groups) && KeysOf(keys, groups)
    requires forall k :: 0 <= k < |conflicts| ==>
              conflicts[k].slug in groups && conflicts[k].rows == groups[conflicts[k].slug] && |conflicts[k].rows| > 1
    requires forall k, l :: 0 <= k < l < |conflicts| ==> conflicts[k].slug != conflicts[l].slug
    requires forall i :: 0 <= i < |keys| && |groups[keys[i]]| > 1 ==>
              exists k :: 0 <= k < |conflicts| && conflicts[k].slug == keys[i]
    ensures |conflicts| > 0 ==> PlanIsRight(normal, collation, rows, Conflicting(conflicts))
    ensures |conflicts| == 0 <==> Plannable(normal, rows)
  {
    hide Target, Sluggable, Claimants;
    forall slug | |Claimants(normal, rows, rows, slug)| > 1
      ensures exists k :: 0 <= k < |conflicts| && conflicts[k].slug == slug
    {
      assert slug in groups;
      var i :| 0 <= i < |keys| && keys[i] == slug;
    }
    SingleClaimants(normal, rows);
    if |conflicts| > 0 {
      var i, j := RivalIndices(normal, rows, rows, conflicts[0].slug);
    } else {
      assert forall slug :: |Claimants(normal, rows, rows, slug)| <= 1;
    }
  }

  lemma NothingGathered(normal: string -> string, all: seq<Record>)
    ensures Gathered(normal, all, all[..0], map[]) && Outdated(normal, all, all[..0]) == []
  {
  }

  /**
   Builds the plan. A refusal names the first record that fails or every contested slug with all of
   its claimants; success means every record has a slug of its own.
   */
  method BuildPlan(normal: string -> string, collation: (string, string) -> bool, rows: seq<Record>)
    returns (plan: Plan)
    requires Sorting.TotalPreorder(collation)
    ensures PlanIsRight(normal, collation, rows, plan)
    ensures plan.Planned? <==> Plannable(normal, rows)
  {
    hide Target, Claimants, Outdated, Gathered;
    NothingGathered(normal, rows);
    var candidates: map<string, seq<Record>> := map[];
    var keys: seq<string> := [];
    var changes: seq<Change> := [];
    for n := 0 to |rows|
      invariant forall i :: 0 <= i < n ==> Sluggable(normal, rows, rows[i])
      invariant changes == Outdated(normal, rows, rows[..n])
      invariant KeysOf(keys, candidates)
      invariant Gathered(normal, rows, rows[..n], candidates)
    {
      var r := rows[n];
      if !Resolves(rows, r) {
        return Unresolved(r);
      }
      var nextSlug := Target(normal, rows, r);
      if nextSlug == "" {
        return Unsluggable(r);
      }
      ghost var before := candidates;
      if nextSlug in candidates {
        candidates := candidates[nextSlug := candidates[nextSlug] + [r]];
      } else {
        candidates := candidates[nextSlug := [r]];
        keys := keys + [nextSlug];
      }
      if r.slug != nextSlug {
        changes := changes + [Change(r, nextSlug)];
      }
      assert [] + [r] == [r];
      GatheredStep(normal, rows, rows, n, before, candidates);
      OutdatedStep(normal, rows, rows, n);
    }
    assert rows[..|rows|] == rows;
    var conflicts := Collisions(keys, candidates);
    ConflictsAreRight(normal, collation, rows, keys, candidates, conflicts);
    if |conflicts| > 0 {
      return Conflicting(conflicts);
    }
    PlanOrderIsTotal(collation);
    Sorting.SortSorts((a, b) => PlanOrder(collation, a, b), changes);
    return Planned(Sorting.Sort((a, b) => PlanOrder(collation, a, b), changes));
  }
}
