/** What each accepted change of assignments leaves in the rows, and who is primary afterwards. */
module AssignmentEffects {
  import opened Wrappers
  import opened BranchAssignments

  /** The assignments of all other users are as they were. */
  ghost predicate OthersKept(s: Register, next: Register, u: Id)
  {
    && next.branches == s.branches
    && (forall p: Post :: p.user != u ==> (p in next.posts <==> p in s.posts))
    && (forall p: Post :: p.user != u && p in s.posts ==> next.posts[p] == s.posts[p])
    && (forall v :: v != u ==> (v in next.users <==> v in s.users))
    && (forall v :: v != u && v in s.users ==> next.users[v] == s.users[v])
  }

  /** The user's assignments are exactly these branches', new, active, and primary at one of them alone. */
  ghost predicate ExactlyAssigned(next: Register, u: Id, branches: seq<Id>, primary: Id, roles: set<RoleKind>,
                                  since: nat)
  {
    && (forall p: Post :: p in next.posts && p.user == u <==> p.user == u && p.branch in branches)
    && (forall p: Post :: p.user == u && p.branch in branches && p in next.posts ==>
          next.posts[p] == Assignment(true, p.branch == primary, roles, since))
  }

  /** Every branch is open and none is named twice. */
  ghost predicate OpenOnce(s: Register, branches: seq<Id>)
  {
    && (forall b :: b in branches ==> b in s.branches && s.branches[b])
    && (forall i, j :: 0 <= i < j < |branches| ==> branches[i] != branches[j])
  }

  lemma OpenExactly(s: Register, branches: seq<Id>)
    ensures AllOpen(s, branches) <==> OpenOnce(s, branches)
  {
    assert forall i :: 0 <= i < |branches| ==> branches[i] in branches;
  }

  // ---- new users and conversions

  /** A branch user is created with exactly the branches named, primary at the first; any other user has none. */
  lemma HiresExactly(s: Register, u: Id, kind: UserKind, branches: seq<Id>, roles: set<RoleKind>, since: nat,
                     fits: bool)
    ensures var step := CreateUser(s, u, kind, branches, roles, since, fits);
            && (step.reply == "OK" <==> fits && OpenOnce(s, branches) && u !in s.users)
            && (step.reply != "OK" ==> step.next == s)
    ensures var next := CreateUser(s, u, kind, branches, roles, since, fits).next;
            CreateUser(s, u, kind, branches, roles, since, fits).reply == "OK" ==>
              && OthersKept(s, next, u) && u in next.users && next.users[u] == User(kind, true, 0)
              && (kind == BranchUser && |branches| > 0 ==>
                    ExactlyAssigned(next, u, branches, branches[0], roles, since))
              && (kind != BranchUser ==> forall p :: p in next.posts ==> p.user != u)
  {
    hide Assigned, AllOpen, OpenOnce;
    OpenExactly(s, branches);
    if |branches| > 0 {
      AssignedPosts(Without(s.posts, u), u, branches, branches[0], roles, since);
    }
  }

  /** A customer becomes a branch user with exactly the branches named, as admin, primary at the first. */
  lemma MakesAdminExactly(s: Register, u: Id, branches: seq<Id>, since: nat, fits: bool)
    ensures var step := ConvertToAdmin(s, u, branches, since, fits);
            && (step.reply == "OK" <==>
                  fits && OpenOnce(s, branches) && u in s.users && s.users[u].kind == Customer)
            && (step.reply != "OK" ==> step.next == s)
    ensures var next := ConvertToAdmin(s, u, branches, since, fits).next;
            ConvertToAdmin(s, u, branches, since, fits).reply == "OK" ==>
              && OthersKept(s, next, u) && u in next.users && u in s.users
              && next.users[u] == User(BranchUser, s.users[u].isActive, s.users[u].sessions)
              && (|branches| > 0 ==> ExactlyAssigned(next, u, branches, branches[0], {AdminRole}, since))
              && (|branches| == 0 ==> forall p :: p in next.posts ==> p.user != u)
  {
    hide Assigned, AllOpen, OpenOnce;
    OpenExactly(s, branches);
    if |branches| > 0 {
      AssignedPosts(Without(s.posts, u), u, branches, branches[0], {AdminRole}, since);
    }
  }

  /** One branch is marked primary, and no other. */
  ghost predicate OneMark(wanted: seq<Wanted>, i: nat)
  {
    i < |wanted| && wanted[i].isPrimary && forall j :: 0 <= j < |wanted| && j != i ==> !wanted[j].isPrimary
  }

  lemma {:induction false} NoMarks(wanted: seq<Wanted>)
    ensures PrimaryCount(wanted) == 0 <==> forall j :: 0 <= j < |wanted| ==> !wanted[j].isPrimary
  {
    if |wanted| > 0 {
      NoMarks(wanted[..|wanted| - 1]);
      assert forall j :: 0 <= j < |wanted| - 1 ==> wanted[..|wanted| - 1][j] == wanted[j];
    }
  }

  lemma {:induction false} OneMarkExactly(wanted: seq<Wanted>)
    ensures PrimaryCount(wanted) == 1 <==> exists i: nat :: OneMark(wanted, i)
  {
    if |wanted| > 0 {
      var front, last := wanted[..|wanted| - 1], |wanted| - 1;
      OneMarkExactly(front);
      NoMarks(front);
      assert forall j :: 0 <= j < last ==> front[j] == wanted[j];
      if PrimaryCount(wanted) == 1 {
        if wanted[last].isPrimary {
          assert OneMark(wanted, last);
        } else {
          var i: nat :| OneMark(front, i);
          assert OneMark(wanted, i);
        }
      }
      if i: nat :| OneMark(wanted, i) {
        if i < last {
          assert OneMark(front, i);
        }
      }
    }
  }

  /** A customer becomes staff exactly with one primary among distinct open branches, and gets those as asked. */
  lemma MakesStaffExactly(s: Register, u: Id, wanted: seq<Wanted>, roles: set<RoleKind>, since: nat, fits: bool)
    ensures var step := ConvertToStaff(s, u, wanted, roles, since, fits);
            && (step.reply == "OK" <==>
                  && fits && OpenOnce(s, BranchesOf(wanted)) && (exists i: nat :: OneMark(wanted, i))
                  && u in s.users && s.users[u].kind == Customer && s.users[u].isActive)
            && (step.reply != "OK" ==> step.next == s)
    ensures forall i: nat :: ConvertToStaff(s, u, wanted, roles, since, fits).reply == "OK" && OneMark(wanted, i) ==>
              var next := ConvertToStaff(s, u, wanted, roles, since, fits).next;
              && OthersKept(s, next, u) && u in next.users
              && next.users[u] == User(BranchUser, true, s.users[u].sessions)
              && ExactlyAssigned(next, u, BranchesOf(wanted), wanted[i].branch, roles, since)
  {
    hide AssignedAsWanted, AllOpen, PrimaryCount;
    OpenExactly(s, BranchesOf(wanted));
    OneMarkExactly(wanted);
    assert forall i :: 0 <= i < |wanted| ==> BranchesOf(wanted)[i] == wanted[i].branch;
    forall i: nat | ConvertToStaff(s, u, wanted, roles, since, fits).reply == "OK" && OneMark(wanted, i)
      ensures var next := ConvertToStaff(s, u, wanted, roles, since, fits).next;
              OthersKept(s, next, u) && ExactlyAssigned(next, u, BranchesOf(wanted), wanted[i].branch, roles, since)
    {
      WantedStored(s, u, wanted, roles, since, i);
    }
  }

  lemma WantedStored(s: Register, u: Id, wanted: seq<Wanted>, roles: set<RoleKind>, since: nat, i: nat)
    requires OneMark(wanted, i)
    requires forall j, k :: 0 <= j < k < |wanted| ==> wanted[j].branch != wanted[k].branch
    requires u in s.users
    ensures var next := s.(users := s.users[u := s.users[u].(kind := BranchUser)],
                           posts := AssignedAsWanted(Without(s.posts, u), u, wanted, roles, since));
            OthersKept(s, next, u) && ExactlyAssigned(next, u, BranchesOf(wanted), wanted[i].branch, roles, since)
  {
    hide AssignedAsWanted;
    var before := Without(s.posts, u);
    var posts := AssignedAsWanted(before, u, wanted, roles, since);
    WantedPosts(before, u, wanted, roles, since);
    KeepsOtherPosts(before, u, wanted, roles, since);
    var branches := BranchesOf(wanted);
    forall p: Post | p.user == u && p.branch in branches
      ensures p in posts && posts[p] == Assignment(true, p.branch == wanted[i].branch, roles, since)
    {
      var j :| 0 <= j < |branches| && branches[j] == p.branch;
      assert p == Post(u, wanted[j].branch);
    }
    forall p: Post | p.user == u && p in posts ensures p.branch in branches {
      assert p !in before;
      var j :| 0 <= j < |wanted| && wanted[j].branch == p.branch;
      assert branches[j] == p.branch;
    }
  }

  lemma {:induction false} KeepsOtherPosts(posts: Posts, u: Id, wanted: seq<Wanted>, roles: set<RoleKind>, since: nat)
    ensures posts.Keys <= AssignedAsWanted(posts, u, wanted, roles, since).Keys
  {
    if |wanted| > 0 {
      KeepsOtherPosts(posts, u, wanted[..|wanted| - 1], roles, since);
    }
  }

  // ---- single assignments

  /** Exactly this assignment of the user becomes that, the user's others stay. */
  ghost predicate OneBecomes(s: Register, next: Register, p: Post, a: Assignment)
  {
    next == s.(posts := s.posts[p := a])
  }

  /** A branch user gets a further branch exactly if it is open and new to them; it is primary if no other is active. */
  lemma AddsStaffExactly(s: Register, u: Id, b: Id, roles: set<RoleKind>, since: nat, fits: bool)
    ensures var step := AssignExisting(s, u, b, roles, since, fits);
            && (step.reply == "OK" <==>
                  && u in s.users && s.users[u].kind == BranchUser && b in s.branches && s.branches[b] && fits
                  && Post(u, b) !in s.posts)
            && (step.reply != "OK" ==> step.next == s)
            && (step.reply == "OK" ==>
                  OneBecomes(s, step.next, Post(u, b),
                             Assignment(true, !exists p :: p in s.posts && p.user == u && s.posts[p].isActive,
                                        roles, since)))
  {
  }

  /** The upsert activates the assignment and adds the role; an existing one keeps its flag and its other roles. */
  lemma AddsBranchExactly(s: Register, u: Id, b: Id, role: RoleKind, since: nat, fits: bool)
    ensures var step, p := AssignBranch(s, u, b, role, since, fits), Post(u, b);
            && (step.reply == "OK" <==>
                  u in s.users && s.users[u].kind == BranchUser && b in s.branches && s.branches[b] && fits)
            && (step.reply != "OK" ==> step.next == s)
            && (step.reply == "OK" ==>
                  OneBecomes(s, step.next, p,
                             if p in s.posts
                             then Assignment(true, s.posts[p].isPrimary, s.posts[p].roles + {role}, since)
                             else Assignment(true, false, {role}, since)))
  {
  }

  /** The chosen active assignment becomes the user's one primary, from now; nobody else's changes. */
  lemma ChoosesPrimary(s: Register, u: Id, b: Id, kind: RoleKind, since: nat)
    ensures var step, p := SetPrimary(s, u, b, kind, since), Post(u, b);
            && (step.reply == "OK" <==>
                  p in s.posts && s.posts[p].isActive && b in s.branches && s.branches[b] && kind in s.posts[p].roles)
            && (step.reply != "OK" ==> step.next == s)
    ensures var next := SetPrimary(s, u, b, kind, since).next;
            SetPrimary(s, u, b, kind, since).reply == "OK" ==>
              && OthersKept(s, next, u) && next.users == s.users && next.posts.Keys == s.posts.Keys
              && (forall p :: p in s.posts && p.user == u ==>
                    && (next.posts[p].isPrimary <==> p.branch == b)
                    && next.posts[p].isActive == s.posts[p].isActive && next.posts[p].roles == s.posts[p].roles
                    && next.posts[p].since == if p.branch == b then since else s.posts[p].since)
  {
  }

  // ---- leaving a branch

  /** The user is shut out, every session ended, if no active assignment in an open branch is left; else untouched. */
  ghost predicate AccessEnds(s: Register, next: Register, u: Id)
  {
    && (forall v :: v in next.users <==> v in s.users)
    && (forall v :: v in s.users ==>
          next.users[v] == if v == u && !exists p :: Serves(next, u, p)
                           then User(s.users[v].kind, false, 0) else s.users[v])
  }

  predicate Serves(s: Register, u: Id, p: Post)
  {
    p in s.posts && p.user == u && s.posts[p].isActive && p.branch in s.branches && s.branches[p.branch]
  }

  lemma SettledExactly(s: Register, u: Id)
    ensures AccessEnds(s, Settled(s, u), u) && Settled(s, u).posts == s.posts && Settled(s, u).branches == s.branches
  {
    var next := Settled(s, u);
    forall p ensures p in Serving(s, u) <==> Serves(next, u, p) {
    }
    if Serving(s, u) != {} {
      var p :| p in Serving(s, u);
      assert Serves(next, u, p);
    }
  }

  /** Among the user's rows this one becomes that, the heir, if any, primary and active, and the others stay. */
  ghost predicate HandsOver(s: Register, next: Register, u: Id, b: Id, heir: Option<Id>)
  {
    && next.branches == s.branches && AccessEnds(s, next, u)
    && (forall p :: p in s.posts && p != Post(u, b) ==>
          p in next.posts &&
          next.posts[p] == if heir.Some? && p == Post(u, heir.value)
                           then s.posts[p].(isPrimary := true, isActive := true) else s.posts[p])
    && (forall p :: p in next.posts ==> p in s.posts)
  }

  /** An assignment is reactivated as it was, in an open branch. */
  lemma Reactivates(s: Register, u: Id, b: Id, kind: RoleKind, replacement: Option<Id>)
    ensures var step, p := SetActive(s, u, b, true, kind, replacement), Post(u, b);
            && (step.reply == "OK" <==> b in s.branches && s.branches[b] && p in s.posts && kind in s.posts[p].roles)
            && (step.reply != "OK" ==> step.next == s)
            && (step.reply == "OK" ==> OneBecomes(s, step.next, p, s.posts[p].(isActive := true)))
  {
  }

  /** Another active assignment of the role may take over. */
  ghost predicate MayTakeOver(s: Register, u: Id, b: Id, kind: RoleKind, heir: Id)
  {
    heir != b && Serves(s, u, Post(u, heir)) && kind in s.posts[Post(u, heir)].roles
  }

  lemma HeirsExactly(s: Register, u: Id, b: Id, kind: RoleKind)
    ensures forall x :: x in Replacements(s, u, b, kind) <==> MayTakeOver(s, u, b, kind, x)
  {
    forall x | MayTakeOver(s, u, b, kind, x) ensures x in Replacements(s, u, b, kind) {
      assert Post(u, x) in Serving(s, u);
    }
  }

  /** A primary assignment needs an heir that may take over, where there is any. */
  ghost predicate HeirFits(s: Register, u: Id, b: Id, kind: RoleKind, heir: Option<Id>)
  {
    if exists x :: MayTakeOver(s, u, b, kind, x) then heir.Some? && MayTakeOver(s, u, b, kind, heir.value)
    else heir.Some? ==> heir.value != b && Post(u, heir.value) in s.posts
  }

  lemma HeirFitsExactly(s: Register, u: Id, b: Id, kind: RoleKind, heir: Option<Id>)
    ensures HeirFits(s, u, b, kind, heir) <==>
              var candidates := Replacements(s, u, b, kind);
              && !(candidates != {} && (heir.None? || heir.value !in candidates))
              && (heir.Some? ==> heir.value != b && Post(u, heir.value) in s.posts)
  {
    HeirsExactly(s, u, b, kind);
    hide Replacements;
    if x :| x in Replacements(s, u, b, kind) {
      assert MayTakeOver(s, u, b, kind, x);
    }
  }

  /** A deactivated assignment is inactive and not primary; a primary one has handed over. */
  lemma DeactivatesExactly(s: Register, u: Id, b: Id, kind: RoleKind, heir: Option<Id>)
    ensures var step, p := SetActive(s, u, b, false, kind, heir), Post(u, b);
            && (step.reply == "OK" <==>
                  p in s.posts && kind in s.posts[p].roles && (s.posts[p].isPrimary ==> HeirFits(s, u, b, kind, heir)))
            && (step.reply != "OK" ==> step.next == s)
            && (step.reply == "OK" ==>
                  && HandsOver(s, step.next, u, b, if s.posts[p].isPrimary then heir else None)
                  && p in step.next.posts
                  && step.next.posts[p] == s.posts[p].(isActive := false, isPrimary := false))
  {
    hide Settled, Replacements, HeirFits, AccessEnds;
    HeirFitsExactly(s, u, b, kind, heir);
    forall posts ensures Settled(s.(posts := posts), u).posts == posts {
      SettledExactly(s.(posts := posts), u);
    }
    forall posts ensures AccessEnds(s, Settled(s.(posts := posts), u), u) {
      SettledExactly(s.(posts := posts), u);
      SameUsers(s, s.(posts := posts), Settled(s.(posts := posts), u), u);
    }
    forall posts ensures Settled(s.(posts := posts), u).branches == s.branches {
      SettledExactly(s.(posts := posts), u);
    }
  }

  /**
   Asked for on what it has read, the service deactivates exactly with a replacement that may take over where
   there is one and the assignment is primary; that replacement is then primary, and no other change of flag.
   */
  lemma ServiceDeactivatesExactly(s: Register, u: Id, b: Id, kind: RoleKind, requested: Option<Id>)
    ensures var step, p := Deactivate(s, s, u, b, kind, requested), Post(u, b);
            var needed := p in s.posts && s.posts[p].isPrimary && exists x :: MayTakeOver(s, u, b, kind, x);
            && (step.reply == "OK" <==>
                  && p in s.posts && kind in s.posts[p].roles
                  && (needed ==> requested.Some? && MayTakeOver(s, u, b, kind, requested.value)))
            && (step.reply == "OK" ==> HandsOver(s, step.next, u, b, if needed then requested else None))
            && (step.reply != "OK" ==> step.next == s)
  {
    hide SetActive, Settled, Replacements, AccessEnds, HandsOver;
    HeirsExactly(s, u, b, kind);
    SelfIsNoHeir(s, u, b, kind);
    match ResolveReplacement(s, u, b, kind, requested)
    case Refused(code) =>
    case Ok(heir) => DeactivatesExactly(s, u, b, kind, heir);
  }

  lemma SameUsers(s: Register, mid: Register, next: Register, u: Id)
    requires mid.users == s.users && AccessEnds(mid, next, u)
    ensures AccessEnds(s, next, u)
  {
  }

  /** Where nobody may take over, naming the assignment itself is naming nobody. */
  ghost predicate HeirFitsRemoval(s: Register, u: Id, b: Id, kind: RoleKind, heir: Option<Id>)
  {
    HeirFits(s, u, b, kind, heir) || (heir == Some(b) && !exists x :: MayTakeOver(s, u, b, kind, x))
  }

  lemma SettlesAll(s: Register, posts: Posts, u: Id)
    ensures var next := Settled(s.(posts := posts), u);
            next.posts == posts && next.branches == s.branches && AccessEnds(s, next, u)
  {
    SettledExactly(s.(posts := posts), u);
  }

  lemma DemotedOnly(posts: Posts, u: Id, p: Post)
    requires PrimaryInv(posts) && p in posts && posts[p].isPrimary && p.user == u
    ensures Demoted(posts, u).Keys == posts.Keys
    ensures forall q :: q in posts && q != p ==> Demoted(posts, u)[q] == posts[q]
  {
  }

  /** A removed assignment is gone, and has handed over if it was primary; an admin with other roles loses that role. */
  lemma RemovesExactly(s: Register, u: Id, b: Id, kind: RoleKind, heir: Option<Id>)
    requires PrimaryInv(s.posts)
    ensures var step, p := Remove(s, u, b, kind, heir), Post(u, b);
            var roleOnly := p in s.posts && kind == AdminRole &&
                            AdminRole in s.posts[p].roles && s.posts[p].roles != {AdminRole};
            && (roleOnly ==> OneBecomes(s, step.next, p, s.posts[p].(roles := s.posts[p].roles - {AdminRole})))
            && (step.reply == "OK" <==>
                  && p in s.posts && kind in s.posts[p].roles && !roleOnly
                  && (s.posts[p].isPrimary ==> HeirFitsRemoval(s, u, b, kind, heir)))
            && (!roleOnly && step.reply != "OK" ==> step.next == s)
            && (step.reply == "OK" ==>
                  && HandsOver(s, step.next, u, b, if s.posts[p].isPrimary then heir else None)
                  && p !in step.next.posts)
  {
    hide Settled, Replacements, HeirFits, AccessEnds, MayTakeOver, PrimaryInv, Demoted;
    var p := Post(u, b);
    HeirFitsExactly(s, u, b, kind, heir);
    HeirsExactly(s, u, b, kind);
    SelfIsNoHeir(s, u, b, kind);
    if p in s.posts && s.posts[p].isPrimary {
      DemotedOnly(s.posts, u, p);
    }
    forall posts
      ensures Settled(s.(posts := posts), u).posts == posts && Settled(s.(posts := posts), u).branches == s.branches
      ensures AccessEnds(s, Settled(s.(posts := posts), u), u)
    {
      SettlesAll(s, posts, u);
    }
  }

  lemma SelfIsNoHeir(s: Register, u: Id, b: Id, kind: RoleKind)
    ensures !MayTakeOver(s, u, b, kind, b) && b !in Replacements(s, u, b, kind)
    ensures Replacements(s, u, b, kind) == {} <==> !exists x :: MayTakeOver(s, u, b, kind, x)
  {
    HeirsExactly(s, u, b, kind);
  }

  /** A transferred user serves at the target, primary there if they were at the source, and no longer at the source. */
  lemma TransfersExactly(s: Register, u: Id, source: Id, target: Id, roles: set<RoleKind>, since: nat, fits: bool)
    requires PrimaryInv(s.posts)
    ensures var step, src, dst := Transfer(s, u, source, target, roles, since, fits), Post(u, source), Post(u, target);
            && (step.reply == "OK" <==>
                  && u in s.users && s.users[u].kind == BranchUser && s.users[u].isActive
                  && Serves(s, u, src) && StaffRole in s.posts[src].roles
                  && target in s.branches && s.branches[target] && fits
                  && (dst in s.posts ==> !s.posts[dst].isActive)
                  && exists p :: Serves(s, u, p) && s.posts[p].isPrimary)
            && (step.reply != "OK" ==> step.next == s)
            && (step.reply == "OK" ==>
                  src in s.posts && src != dst &&
                  step.next == s.(posts := s.posts[dst := Assignment(true, s.posts[src].isPrimary, roles, since)]
                                                  [src := s.posts[src].(isActive := false, isPrimary := false)]))
  {
    hide PrimaryInv, PrimariesServing, TransferredPosts;
    var src, dst := Post(u, source), Post(u, target);
    ServingExactly(s, u);
    if u in s.users && s.users[u].kind == BranchUser && s.users[u].isActive && Serves(s, u, src) &&
       StaffRole in s.posts[src].roles && OpenBranch(s, target) && (dst in s.posts ==> !s.posts[dst].isActive)
    {
      TransferCountExactly(s, u, source, target, roles, since);
      TransferredRows(s, u, source, target, roles, since);
      PrimariesExactly(s, u);
    }
  }

  lemma ServingExactly(s: Register, u: Id)
    ensures forall p :: p in Serving(s, u) <==> Serves(s, u, p)
  {
  }

  lemma PrimariesExactly(s: Register, u: Id)
    ensures PrimariesServing(s, u) == {} <==> !exists p :: Serves(s, u, p) && s.posts[p].isPrimary
  {
    if p :| Serves(s, u, p) && s.posts[p].isPrimary {
      assert p in PrimariesServing(s, u);
    }
    if p :| p in PrimariesServing(s, u) {
      assert Serves(s, u, p) && s.posts[p].isPrimary;
    }
  }

  lemma TransferredRows(s: Register, u: Id, source: Id, target: Id, roles: set<RoleKind>, since: nat)
    requires PrimaryInv(s.posts) && Post(u, source) in s.posts && s.posts[Post(u, source)].isActive
    requires Post(u, target) in s.posts ==> !s.posts[Post(u, target)].isActive
    ensures var src, dst := Post(u, source), Post(u, target);
            TransferredPosts(s, u, source, target, roles, since)
            == s.posts[dst := Assignment(true, s.posts[src].isPrimary, roles, since)]
                      [src := s.posts[src].(isActive := false, isPrimary := false)]
  {
    var src, dst := Post(u, source), Post(u, target);
    var posts := TransferredPosts(s, u, source, target, roles, since);
    assert posts.Keys == s.posts.Keys + {dst};
  }

  /** An offboarded assignment is closed; a primary one hands over to the one that is listed first, if any remains. */
  lemma OffboardsExactly(s: Register, u: Id, b: Id)
    ensures var step, p := Offboard(s, u, b), Post(u, b);
            && (step.reply == "OK" <==> Serves(s, u, p) && StaffRole in s.posts[p].roles)
            && (step.reply != "OK" ==> step.next == s)
            && (step.reply == "OK" ==>
                  && p in step.next.posts && step.next.posts[p] == s.posts[p].(isActive := false, isPrimary := false)
                  && exists heir :: ComesFirst(s, u, b, heir) &&
                       HandsOver(s, step.next, u, b, if s.posts[p].isPrimary then heir else None))
  {
    hide Settled, AccessEnds, ListedFirst, Heir;
    var p := Post(u, b);
    ServingExactly(s, u);
    forall posts
      ensures Settled(s.(posts := posts), u).posts == posts && Settled(s.(posts := posts), u).branches == s.branches
      ensures AccessEnds(s, Settled(s.(posts := posts), u), u)
    {
      SettlesAll(s, posts, u);
    }
    if Offboard(s, u, b).reply == "OK" {
      var heir := HeirComesFirst(s, u, b);
      assert HandsOver(s, Offboard(s, u, b).next, u, b, if s.posts[p].isPrimary then heir else None);
    }
  }

  /** The branch of the earliest remaining assignment that serves, the lower of two that are as early, or none. */
  ghost predicate ComesFirst(s: Register, u: Id, b: Id, heir: Option<Id>)
  {
    && (heir.Some? ==> heir.value != b && Serves(s, u, Post(u, heir.value)))
    && forall p :: Serves(s, u, p) && p.branch != b ==>
         heir.Some? && Post(u, heir.value) in s.posts &&
         var first := s.posts[Post(u, heir.value)].since;
         first < s.posts[p].since || (first == s.posts[p].since && heir.value <= p.branch)
  }

  lemma HeirComesFirst(s: Register, u: Id, b: Id) returns (heir: Option<Id>)
    ensures ComesFirst(s, u, b, heir)
    ensures Heir(s, u, b).Some? <==> heir.Some?
    ensures heir.Some? ==> Heir(s, u, b) == Some(Post(u, heir.value))
  {
    ServingExactly(s, u);
    var among := Serving(s, u) - {Post(u, b)};
    if among == {} {
      heir := None;
      assert forall p :: Serves(s, u, p) && p.branch != b ==> p in among;
    } else {
      var first := SomebodyIsFirst(s.posts, u, among);
      var p := Heir(s, u, b).value;
      FirstIsUnique(s.posts, u, among, first, p);
      heir := Some(p.branch);
      assert p == Post(u, p.branch);
      assert forall q :: Serves(s, u, q) && q.branch != b ==> q in among;
    }
  }

  // ---- branches and accounts

  /** A branch is closed exactly while nobody's assignment there is active, and opened whenever it exists. */
  lemma BranchOpensExactly(s: Register, b: Id, open: bool)
    ensures var step := SetBranchOpen(s, b, open);
            && (step.reply == "OK" <==>
                  b in s.branches &&
                  (!open && s.branches[b] ==> forall p :: p in s.posts && p.branch == b ==> !s.posts[p].isActive))
            && (step.reply != "OK" ==> step.next == s)
            && (step.reply == "OK" ==> step.next == s.(branches := s.branches[b := open]))
  {
  }

  /** A disabled user is inactive and has no session left; assignments stay. */
  lemma DisablesExactly(s: Register, u: Id)
    ensures DisableUser(s, u).next
            == if u in s.users then s.(users := s.users[u := User(s.users[u].kind, false, 0)]) else s
  {
  }
}
