/**
 The rows behind the assignment mutators (authorization.repository.ts), written statement by statement. The
 table's check constraint and its partial unique index are demanded of every single write.
 */
module BranchRegister {
  import opened Wrappers
  import opened BranchAssignments

  class AssignmentTables {
    var users: map<Id, User>
    var branches: map<Id, bool>
    var posts: Posts

    ghost function Current(): Register
      reads this
    {
      Register(users, branches, posts)
    }

    ghost predicate Valid()
      reads this
    {
      PrimaryInv(posts)
    }

    constructor ()
      ensures Valid() && Current() == Register(map[], map[], map[])
    {
      users, branches, posts := map[], map[], map[];
    }

    /** One row: a primary one must be active and the only one of its user. */
    method WriteRow(p: Post, a: Assignment)
      requires Valid() && (a.isPrimary ==> a.isActive && NoOtherPrimary(posts, p))
      modifies this`posts
      ensures Valid() && posts == old(posts)[p := a]
    {
      posts := posts[p := a];
    }

    /** updateMany: no row of the user is primary any more. */
    method Demote(u: Id)
      requires Valid()
      modifies this`posts
      ensures Valid() && posts == Demoted(old(posts), u) && posts.Keys == old(posts).Keys
      ensures forall p: Post :: p.user == u ==> NoOtherPrimary(posts, p)
    {
      posts := Demoted(posts, u);
    }

    method Drop(p: Post)
      requires Valid()
      modifies this`posts
      ensures Valid() && posts == old(posts) - {p}
    {
      posts := posts - {p};
    }

    /** deleteMany: the user's rows go. */
    method DropAll(u: Id)
      requires Valid()
      modifies this`posts
      ensures Valid() && posts == Without(old(posts), u) && forall p :: p in posts ==> p.user != u
    {
      posts := Without(posts, u);
    }

    method AddPosts(u: Id, branchIds: seq<Id>, primary: Id, roles: set<RoleKind>, since: nat)
      requires Valid() && forall p :: p in posts ==> p.user != u
      modifies this`posts
      ensures Valid() && posts == Assigned(old(posts), u, branchIds, primary, roles, since)
    {
      hide PrimaryInv;
      ghost var start := posts;
      for i := 0 to |branchIds|
        invariant Valid() && posts == Assigned(start, u, branchIds[..i], primary, roles, since)
        invariant forall p :: p in posts && p.user == u && posts[p].isPrimary ==> p.branch == primary
      {
        assert branchIds[..i + 1][..i] == branchIds[..i];
        WriteRow(Post(u, branchIds[i]), Assignment(true, branchIds[i] == primary, roles, since));
      }
      assert branchIds[..|branchIds|] == branchIds;
    }

    /** The closing part of deactivation, removal and offboarding. */
    method Settle(u: Id)
      modifies this`users
      ensures Current() == Settled(old(Current()), u)
    {
      var remaining := Serving(Register(users, branches, posts), u);
      if |remaining| == 0 && u in users {
        users := users[u := users[u].(sessions := 0)];
        users := users[u := users[u].(isActive := false)];
      }
    }

    method CreateInternalUser(u: Id, kind: UserKind, branchIds: seq<Id>, roles: set<RoleKind>, since: nat,
                              rolesFit: bool)
      returns (reply: string)
      requires Valid()
      modifies this
      ensures Valid() && Step(Current(), reply)
              == CreateUser(old(Current()), u, kind, branchIds, roles, since, rolesFit)
    {
      hide PrimaryInv, Assigned, Without;
      if !rolesFit || !AllOpen(Register(users, branches, posts), branchIds) {
        return "INVALID";
      }
      if u in users {
        return "ID_TAKEN";
      }
      users := users[u := User(kind, true, 0)];
      DropAll(u);
      if kind == BranchUser && |branchIds| > 0 {
        AddPosts(u, branchIds, branchIds[0], roles, since);
      }
      reply := "OK";
    }

    method ConvertToBranchAdmin(u: Id, branchIds: seq<Id>, since: nat, rolesFit: bool) returns (reply: string)
      requires Valid()
      modifies this
      ensures Valid() && Step(Current(), reply) == ConvertToAdmin(old(Current()), u, branchIds, since, rolesFit)
    {
      hide PrimaryInv, Assigned, Without;
      if !rolesFit || !AllOpen(Register(users, branches, posts), branchIds) {
        return "INVALID";
      }
      if u !in users || users[u].kind != Customer {
        return "INVALID";
      }
      DropAll(u);
      users := users[u := users[u].(kind := BranchUser)];
      if |branchIds| > 0 {
        AddPosts(u, branchIds, branchIds[0], {AdminRole}, since);
      }
      reply := "OK";
    }

    method AddWantedPosts(u: Id, wanted: seq<Wanted>, roles: set<RoleKind>, since: nat)
      requires Valid() && PrimaryCount(wanted) == 1 && forall p :: p in posts ==> p.user != u
      modifies this`posts
      ensures Valid() && posts == AssignedAsWanted(old(posts), u, wanted, roles, since)
    {
      hide PrimaryInv, PrimaryCount;
      ghost var start := posts;
      for i := 0 to |wanted|
        invariant Valid() && posts == AssignedAsWanted(start, u, wanted[..i], roles, since)
        invariant forall p :: p in posts && p.user == u && posts[p].isPrimary ==>
                    exists j :: 0 <= j < i && wanted[j].isPrimary
      {
        assert wanted[..i + 1][..i] == wanted[..i];
        forall j | 0 <= j < i && wanted[j].isPrimary ensures !wanted[i].isPrimary {
          OneMarked(wanted, j, i);
        }
        WriteRow(Post(u, wanted[i].branch), Assignment(true, wanted[i].isPrimary, roles, since));
      }
      assert wanted[..|wanted|] == wanted;
    }

    method ConvertCustomerToStaff(u: Id, wanted: seq<Wanted>, roles: set<RoleKind>, since: nat, rolesFit: bool)
      returns (reply: string)
      requires Valid()
      modifies this
      ensures Valid() && Step(Current(), reply) == ConvertToStaff(old(Current()), u, wanted, roles, since, rolesFit)
    {
      hide PrimaryInv, AssignedAsWanted, Without, AllOpen;
      if exists i, j :: 0 <= i < j < |wanted| && wanted[i].branch == wanted[j].branch {
        return "DUPLICATE_BRANCH";
      }
      if PrimaryCount(wanted) != 1 {
        return "ONE_PRIMARY_REQUIRED";
      }
      if u !in users || users[u].kind != Customer || !users[u].isActive {
        return "INVALID";
      }
      if !rolesFit || !AllOpen(Register(users, branches, posts), BranchesOf(wanted)) {
        return "INVALID";
      }
      DropAll(u);
      users := users[u := users[u].(kind := BranchUser)];
      AddWantedPosts(u, wanted, roles, since);
      reply := "OK";
    }

    method AssignExistingStaff(u: Id, b: Id, roles: set<RoleKind>, since: nat, rolesFit: bool) returns (reply: string)
      requires Valid()
      modifies this
      ensures Valid() && Step(Current(), reply) == AssignExisting(old(Current()), u, b, roles, since, rolesFit)
    {
      if u !in users || users[u].kind != BranchUser || !OpenBranch(Register(users, branches, posts), b) || !rolesFit {
        return "INVALID";
      }
      if Post(u, b) in posts {
        return "CONFLICT";
      }
      WriteRow(Post(u, b), Assignment(true, !HasActivePost(posts, u), roles, since));
      reply := "OK";
    }

    method AssignUserBranch(u: Id, b: Id, role: RoleKind, since: nat, roleFits: bool) returns (reply: string)
      requires Valid()
      modifies this
      ensures Valid() && Step(Current(), reply) == AssignBranch(old(Current()), u, b, role, since, roleFits)
    {
      hide PrimaryInv;
      if !OpenBranch(Register(users, branches, posts), b) || u !in users || users[u].kind != BranchUser || !roleFits {
        return "INVALID";
      }
      var post := Post(u, b);
      ghost var start := posts;
      OwnPrimary(posts, post);
      if post in posts {
        WriteRow(post, posts[post].(isActive := true, since := since));
      } else {
        WriteRow(post, Assignment(true, false, {}, since));
      }
      OwnPrimary(posts, post);
      WriteRow(post, posts[post].(roles := posts[post].roles + {role}));
      if post in start {
        var joined := start[post].roles + {role};
        assert posts == start[post := start[post].(isActive := true, since := since, roles := joined)];
      } else {
        assert {} + {role} == {role};
        assert posts == start[post := Assignment(true, false, {role}, since)];
      }
      reply := "OK";
    }

    /** The writes of a transfer. */
    method MovePosts(u: Id, source: Id, target: Id, roles: set<RoleKind>, since: nat)
      requires Valid() && Post(u, source) in posts
      modifies this`posts
      ensures Valid() && posts == TransferredPosts(old(Current()), u, source, target, roles, since)
    {
      hide Demoted, PrimaryInv;
      var src, dst := Post(u, source), Post(u, target);
      ghost var start := posts;
      var wasPrimary := posts[src].isPrimary;
      if dst in posts {
        WriteRow(dst, posts[dst].(isActive := true, isPrimary := false, since := since));
      } else {
        WriteRow(dst, Assignment(true, false, {}, since));
      }
      WriteRow(dst, posts[dst].(roles := roles));
      assert posts == start[dst := Assignment(true, false, roles, since)];
      if wasPrimary {
        DemotedRow(posts, u, dst);
        Demote(u);
        WriteRow(dst, posts[dst].(isPrimary := true));
      }
      WriteRow(src, posts[src].(isActive := false, isPrimary := false));
    }

    method TransferStaffBranch(u: Id, source: Id, target: Id, roles: set<RoleKind>, since: nat, rolesFit: bool)
      returns (reply: string)
      requires Valid()
      modifies this
      ensures Valid() && Step(Current(), reply) == Transfer(old(Current()), u, source, target, roles, since, rolesFit)
    {
      hide PrimaryInv, PrimariesServing, TransferredPosts;
      var s := Register(users, branches, posts);
      var src, dst := Post(u, source), Post(u, target);
      if u !in users || users[u].kind != BranchUser || !users[u].isActive {
        return "INVALID_USER";
      }
      if src !in Serving(s, u) || StaffRole !in posts[src].roles {
        return "OUT_OF_SCOPE";
      }
      if !OpenBranch(s, target) {
        return "INVALID_BRANCH";
      }
      if !rolesFit {
        return "INVALID_ROLE";
      }
      if dst in posts && posts[dst].isActive {
        return "CONFLICT";
      }
      var before := posts;
      MovePosts(u, source, target, roles, since);
      if |PrimariesServing(Register(users, branches, posts), u)| != 1 {
        posts := before;
        return "PRIMARY_INVARIANT";
      }
      reply := "OK";
    }

    method SetUserBranchActive(u: Id, b: Id, active: bool, kind: RoleKind, replacement: Option<Id>)
      returns (reply: string)
      requires Valid()
      modifies this
      ensures Valid() && Step(Current(), reply) == SetActive(old(Current()), u, b, active, kind, replacement)
    {
      OwnPrimary(posts, Post(u, b));
      hide PrimaryInv, Settled, Replacements, OpenBranch;
      var s, post := Register(users, branches, posts), Post(u, b);
      if active && !OpenBranch(s, b) {
        return "INVALID";
      }
      if post !in posts || kind !in posts[post].roles {
        return "OUT_OF_SCOPE";
      }
      if !active && posts[post].isPrimary {
        var candidates := Replacements(s, u, b, kind);
        if |candidates| > 0 && (replacement.None? || replacement.value !in candidates) {
          return "REPLACEMENT_REQUIRED";
        }
        if replacement.Some? && Post(u, replacement.value) !in posts {
          return "REPLACEMENT_NOT_FOUND";
        }
        WriteRow(post, posts[post].(isPrimary := false));
        if replacement.Some? {
          var heir := Post(u, replacement.value);
          WriteRow(heir, posts[heir].(isPrimary := true, isActive := true));
        }
        if posts[post].isPrimary {
          // the check constraint refuses the next write and the transaction rolls back
          posts := s.posts;
          return "PRIMARY_MUST_BE_ACTIVE";
        }
      }
      WriteRow(post, posts[post].(isActive := active));
      if !active {
        Settle(u);
      }
      reply := "OK";
    }

    /** updateMany and update: another row becomes the primary one. */
    method HandOver(u: Id, heir: Post)
      requires Valid() && heir in posts && heir.user == u
      modifies this`posts
      ensures Valid() && posts == Demoted(old(posts), u)[heir := old(posts)[heir].(isPrimary := true, isActive := true)]
    {
      hide PrimaryInv, Demoted;
      DemotedRow(posts, u, heir);
      Demote(u);
      WriteRow(heir, posts[heir].(isPrimary := true, isActive := true));
    }

    method RemoveUserBranch(u: Id, b: Id, kind: RoleKind, replacement: Option<Id>) returns (reply: string)
      requires Valid()
      modifies this
      ensures Valid() && Step(Current(), reply) == Remove(old(Current()), u, b, kind, replacement)
    {
      OwnPrimary(posts, Post(u, b));
      hide PrimaryInv, Settled, Replacements, Serving, Demoted;
      var s, post := Register(users, branches, posts), Post(u, b);
      if post !in posts || kind !in posts[post].roles {
        return if kind == StaffRole then "NOTHING" else "OUT_OF_SCOPE";
      }
      if kind == AdminRole && posts[post].roles - {AdminRole} != {} {
        WriteRow(post, posts[post].(roles := posts[post].roles - {AdminRole}));
        return "ROLE_ONLY";
      }
      if posts[post].isPrimary {
        var candidates := Replacements(s, u, b, kind);
        if |candidates| > 0 && (replacement.None? || replacement.value !in candidates) {
          return "REPLACEMENT_REQUIRED";
        }
        if replacement.Some? && Post(u, replacement.value) !in posts {
          return "REPLACEMENT_NOT_FOUND";
        }
        if replacement.Some? {
          HandOver(u, Post(u, replacement.value));
        }
      }
      Drop(post);
      Settle(u);
      reply := "OK";
    }

    method SetPrimaryUserBranch(u: Id, b: Id, kind: RoleKind, since: nat) returns (reply: string)
      requires Valid()
      modifies this
      ensures Valid() && Step(Current(), reply) == SetPrimary(old(Current()), u, b, kind, since)
    {
      hide PrimaryInv;
      var s, post := Register(users, branches, posts), Post(u, b);
      if !OpenBranch(s, b) || post !in Serving(s, u) || kind !in posts[post].roles {
        return "INVALID";
      }
      DemotedRow(posts, u, post);
      Demote(u);
      WriteRow(post, posts[post].(isPrimary := true, since := since));
      reply := "OK";
    }

    /** The first of a listing ordered by time of assignment. */
    method FirstListed(u: Id, among: set<Post>) returns (first: Post)
      requires among != {} && forall p :: p in among ==> p in posts && p.user == u
      ensures ListedFirst(posts, among, first)
    {
      first :| first in among;
      var rest := among - {first};
      while rest != {}
        invariant rest <= among && first in among
        invariant ListedFirst(posts, among - rest, first)
        decreases rest
      {
        var p :| p in rest;
        if posts[p].since < posts[first].since || (posts[p].since == posts[first].since && p.branch <= first.branch) {
          first := p;
        }
        rest := rest - {p};
      }
      assert among - rest == among;
    }

    method OffboardUserFromBranch(u: Id, b: Id) returns (reply: string)
      requires Valid()
      modifies this
      ensures Valid() && Step(Current(), reply) == Offboard(old(Current()), u, b)
    {
      OwnPrimary(posts, Post(u, b));
      hide PrimaryInv, Settled, ListedFirst, Serving, Heir;
      ghost var s := Current();
      var post := Post(u, b);
      ServingPosts(s, u);
      if post !in Serving(Register(users, branches, posts), u) || StaffRole !in posts[post].roles {
        return "OUT_OF_SCOPE";
      }
      var wasPrimary := posts[post].isPrimary;
      WriteRow(post, posts[post].(isActive := false, isPrimary := false));
      var remaining := Serving(Register(users, branches, posts), u);
      ClosedServing(s, u, post, posts);
      if wasPrimary && |remaining| > 0 {
        var heir := FirstListed(u, remaining);
        SameHeir(s, u, b, posts, remaining, heir);
        WriteRow(heir, posts[heir].(isPrimary := true));
      } else {
        NoHeir(s, u, b);
      }
      Settle(u);
      reply := "OK";
    }
  }

  /** No row of the same user but this one is primary. */
  ghost predicate NoOtherPrimary(posts: Posts, p: Post)
  {
    forall q :: q in posts && q.user == p.user && q != p ==> !posts[q].isPrimary
  }

  lemma OwnPrimary(posts: Posts, p: Post)
    requires PrimaryInv(posts)
    ensures p in posts && posts[p].isPrimary ==> posts[p].isActive && NoOtherPrimary(posts, p)
  {
  }

  lemma DemotedRow(posts: Posts, u: Id, p: Post)
    requires p in posts
    ensures p in Demoted(posts, u) && Demoted(posts, u)[p] == posts[p].(isPrimary := posts[p].isPrimary && p.user != u)
  {
  }

  lemma ServingPosts(s: Register, u: Id)
    ensures forall p :: p in Serving(s, u) ==> p in s.posts && p.user == u
  {
  }

  lemma ClosedServing(s: Register, u: Id, post: Post, posts: Posts)
    requires post in s.posts && posts == s.posts[post := s.posts[post].(isActive := false, isPrimary := false)]
    ensures Serving(s.(posts := posts), u) == Serving(s, u) - {post}
    ensures forall p :: p in Serving(s, u) - {post} ==> p in posts && p.user == u && posts[p] == s.posts[p]
  {
  }

  lemma SameHeir(s: Register, u: Id, b: Id, posts: Posts, among: set<Post>, heir: Post)
    requires among == Serving(s, u) - {Post(u, b)} && posts.Keys == s.posts.Keys
    requires forall p :: p in among ==> p in posts && posts[p] == s.posts[p]
    requires ListedFirst(posts, among, heir)
    ensures heir in among && Heir(s, u, b) == Some(heir)
  {
    assert ListedFirst(s.posts, among, heir);
    FirstIsUnique(s.posts, u, among, heir, Heir(s, u, b).value);
  }

  lemma NoHeir(s: Register, u: Id, b: Id)
    ensures Serving(s, u) - {Post(u, b)} == {} ==> Heir(s, u, b) == None
  {
  }
}
