/**
 Assignments of users to branches (authorization.repository.ts): every step that writes them, and what
 all runs keep: at most one primary assignment per user, and that one active.
 */
module BranchAssignments {
  import opened Wrappers

  type Id = nat

  datatype RoleKind = StaffRole | AdminRole | OtherRole

  datatype UserKind = Customer | BranchUser | SystemUser

  /** A user, with the number of sessions that are not revoked. */
  datatype User = User(kind: UserKind, isActive: bool, sessions: nat)

  /** The unique pair an assignment is stored under. */
  datatype Post = Post(user: Id, branch: Id)

  /** `since` stands for the time of assignment; assignments of one time are listed by branch. */
  datatype Assignment = Assignment(isActive: bool, isPrimary: bool, roles: set<RoleKind>, since: nat)

  type Posts = map<Post, Assignment>

  datatype Register = Register(users: map<Id, User>, branches: map<Id, bool>, posts: Posts)

  datatype Step = Step(next: Register, reply: string)

  predicate OpenBranch(s: Register, b: Id)
  {
    b in s.branches && s.branches[b]
  }

  /** The active assignments of a user in active branches. */
  function Serving(s: Register, u: Id): set<Post>
  {
    set p | p in s.posts && p.user == u && s.posts[p].isActive && OpenBranch(s, p.branch)
  }

  /** updateMany { isPrimary: false } for one user. */
  function Demoted(posts: Posts, u: Id): Posts
  {
    map p | p in posts :: if p.user == u then posts[p].(isPrimary := false) else posts[p]
  }

  /** deleteMany for one user. */
  function Without(posts: Posts, u: Id): Posts
  {
    map p | p in posts && p.user != u :: posts[p]
  }

  function Promoted(posts: Posts, p: Post): Posts
    requires p in posts
  {
    posts[p := posts[p].(isPrimary := true)]
  }

  /** A user left without any active assignment in an active branch loses access and sessions. */
  function Settled(s: Register, u: Id): Register
  {
    if Serving(s, u) == {} && u in s.users then
      s.(users := s.users[u := s.users[u].(isActive := false, sessions := 0)])
    else s
  }

  /** The loop that gives a user one new assignment per branch, the listed one primary. */
  function Assigned(posts: Posts, u: Id, branches: seq<Id>, primary: Id, roles: set<RoleKind>, since: nat): Posts
  {
    if |branches| == 0 then posts
    else
      var last := branches[|branches| - 1];
      Assigned(posts, u, branches[..|branches| - 1], primary, roles, since)
        [Post(u, last) := Assignment(true, last == primary, roles, since)]
  }

  predicate AllOpen(s: Register, branches: seq<Id>)
  {
    && (forall i :: 0 <= i < |branches| ==> OpenBranch(s, branches[i]))
    && (forall i, j :: 0 <= i < j < |branches| ==> branches[i] != branches[j])
  }

  /** createInternalUser: the first branch is the primary one. `rolesFit` stands for the role and permission counts. */
  function CreateUser(s: Register, u: Id, kind: UserKind, branches: seq<Id>, roles: set<RoleKind>, since: nat,
                      rolesFit: bool): Step
  {
    if !rolesFit || !AllOpen(s, branches) then Step(s, "INVALID")
    else if u in s.users then Step(s, "ID_TAKEN")
    else
      var users := s.users[u := User(kind, true, 0)];
      if kind == BranchUser && |branches| > 0 then
        Step(s.(users := users, posts := Assigned(Without(s.posts, u), u, branches, branches[0], roles, since)), "OK")
      else Step(s.(users := users, posts := Without(s.posts, u)), "OK")
  }

  /** convertToBranchAdmin: earlier assignments go, the first branch is the primary one. */
  function ConvertToAdmin(s: Register, u: Id, branches: seq<Id>, since: nat, rolesFit: bool): Step
  {
    if !rolesFit || !AllOpen(s, branches) then Step(s, "INVALID")
    else if u !in s.users || s.users[u].kind != Customer then Step(s, "INVALID")
    else
      var users, posts := s.users[u := s.users[u].(kind := BranchUser)], Without(s.posts, u);
      if |branches| == 0 then Step(s.(users := users, posts := posts), "OK")
      else Step(s.(users := users, posts := Assigned(posts, u, branches, branches[0], {AdminRole}, since)), "OK")
  }

  datatype Wanted = Wanted(branch: Id, isPrimary: bool)

  function BranchesOf(wanted: seq<Wanted>): (branches: seq<Id>)
    ensures |branches| == |wanted| && forall i :: 0 <= i < |wanted| ==> branches[i] == wanted[i].branch
  {
    seq(|wanted|, i requires 0 <= i < |wanted| => wanted[i].branch)
  }

  function PrimaryCount(wanted: seq<Wanted>): nat
  {
    if |wanted| == 0 then 0
    else PrimaryCount(wanted[..|wanted| - 1]) + if wanted[|wanted| - 1].isPrimary then 1 else 0
  }

  function AssignedAsWanted(posts: Posts, u: Id, wanted: seq<Wanted>, roles: set<RoleKind>, since: nat): Posts
  {
    if |wanted| == 0 then posts
    else
      var last := wanted[|wanted| - 1];
      AssignedAsWanted(posts, u, wanted[..|wanted| - 1], roles, since)
        [Post(u, last.branch) := Assignment(true, last.isPrimary, roles, since)]
  }

  /** convertToStaff: the request must name exactly one primary branch. */
  function ConvertToStaff(s: Register, u: Id, wanted: seq<Wanted>, roles: set<RoleKind>, since: nat,
                          rolesFit: bool): Step
  {
    if !(forall i, j :: 0 <= i < j < |wanted| ==> wanted[i].branch != wanted[j].branch) then Step(s, "DUPLICATE_BRANCH")
    else if PrimaryCount(wanted) != 1 then Step(s, "ONE_PRIMARY_REQUIRED")
    else if u !in s.users || s.users[u].kind != Customer || !s.users[u].isActive then Step(s, "INVALID")
    else if !rolesFit || !AllOpen(s, BranchesOf(wanted)) then Step(s, "INVALID")
    else
      Step(s.(users := s.users[u := s.users[u].(kind := BranchUser)],
              posts := AssignedAsWanted(Without(s.posts, u), u, wanted, roles, since)), "OK")
  }

  predicate HasActivePost(posts: Posts, u: Id)
  {
    exists p :: p in posts && p.user == u && posts[p].isActive
  }

  /** assignExistingStaff: primary only where the user has no active assignment. */
  function AssignExisting(s: Register, u: Id, b: Id, roles: set<RoleKind>, since: nat, rolesFit: bool): Step
  {
    if u !in s.users || s.users[u].kind != BranchUser || !OpenBranch(s, b) then Step(s, "INVALID")
    else if !rolesFit then Step(s, "INVALID")
    else if Post(u, b) in s.posts then Step(s, "CONFLICT")
    else
      Step(s.(posts := s.posts[Post(u, b) := Assignment(true, !HasActivePost(s.posts, u), roles, since)]), "OK")
  }

  /** assignUserBranch: an upsert that never touches the primary flag of an existing row. */
  function AssignBranch(s: Register, u: Id, b: Id, role: RoleKind, since: nat, roleFits: bool): Step
  {
    if !OpenBranch(s, b) || u !in s.users || s.users[u].kind != BranchUser || !roleFits then Step(s, "INVALID")
    else if Post(u, b) in s.posts then
      var a := s.posts[Post(u, b)];
      Step(s.(posts := s.posts[Post(u, b) := a.(isActive := true, since := since, roles := a.roles + {role})]), "OK")
    else Step(s.(posts := s.posts[Post(u, b) := Assignment(true, false, {role}, since)]), "OK")
  }

  /** The rows as transferStaffBranch leaves them, before its closing count. */
  function TransferredPosts(s: Register, u: Id, source: Id, target: Id, roles: set<RoleKind>, since: nat): Posts
    requires Post(u, source) in s.posts
  {
    var src, dst := Post(u, source), Post(u, target);
    var joined := s.posts[dst := Assignment(true, false, roles, since)];
    var moved := if s.posts[src].isPrimary then Promoted(Demoted(joined, u), dst) else joined;
    if src in moved then moved[src := moved[src].(isActive := false, isPrimary := false)] else moved
  }

  function PrimariesServing(s: Register, u: Id): set<Post>
  {
    set p | p in Serving(s, u) && s.posts[p].isPrimary
  }

  function Transfer(s: Register, u: Id, source: Id, target: Id, roles: set<RoleKind>, since: nat, rolesFit: bool): Step
  {
    var src, dst := Post(u, source), Post(u, target);
    if u !in s.users || s.users[u].kind != BranchUser || !s.users[u].isActive then Step(s, "INVALID_USER")
    else if src !in s.posts || src !in Serving(s, u) || StaffRole !in s.posts[src].roles then Step(s, "OUT_OF_SCOPE")
    else if !OpenBranch(s, target) then Step(s, "INVALID_BRANCH")
    else if !rolesFit then Step(s, "INVALID_ROLE")
    else if dst in s.posts && s.posts[dst].isActive then Step(s, "CONFLICT")
    else
      var next := s.(posts := TransferredPosts(s, u, source, target, roles, since));
      if |PrimariesServing(next, u)| != 1 then Step(s, "PRIMARY_INVARIANT") else Step(next, "OK")
  }

  /** The active assignments that may take over as primary. */
  function Replacements(s: Register, u: Id, b: Id, kind: RoleKind): set<Id>
  {
    set p | p in Serving(s, u) && p.branch != b && kind in s.posts[p].roles :: p.branch
  }

  /**
   setUserBranchActive with a replacement already resolved. A row that would be primary and inactive is
   refused by the table's check constraint, and the transaction rolls back.
   */
  function SetActive(s: Register, u: Id, b: Id, active: bool, kind: RoleKind, replacement: Option<Id>): Step
  {
    var post := Post(u, b);
    if active && !OpenBranch(s, b) then Step(s, "INVALID")
    else if post !in s.posts || kind !in s.posts[post].roles then Step(s, "OUT_OF_SCOPE")
    else if active then Step(s.(posts := s.posts[post := s.posts[post].(isActive := true)]), "OK")
    else if !s.posts[post].isPrimary then
      Step(Settled(s.(posts := s.posts[post := s.posts[post].(isActive := false)]), u), "OK")
    else
      var candidates := Replacements(s, u, b, kind);
      if candidates != {} && (replacement.None? || replacement.value !in candidates)
      then Step(s, "REPLACEMENT_REQUIRED")
      else if replacement.Some? && Post(u, replacement.value) !in s.posts then Step(s, "REPLACEMENT_NOT_FOUND")
      else
        var demoted := s.posts[post := s.posts[post].(isPrimary := false)];
        var heir := if replacement.Some? then Post(u, replacement.value) else post;
        var posts := if replacement.Some? && heir in demoted
                     then demoted[heir := demoted[heir].(isPrimary := true, isActive := true)] else demoted;
        var closed := if post in posts then posts[post := posts[post].(isActive := false)] else posts;
        if post in closed && closed[post].isPrimary then Step(s, "PRIMARY_MUST_BE_ACTIVE")
        else Step(Settled(s.(posts := closed), u), "OK")
  }

  /** removeUserBranch with a replacement already resolved. */
  function Remove(s: Register, u: Id, b: Id, kind: RoleKind, replacement: Option<Id>): Step
  {
    var post := Post(u, b);
    if post !in s.posts || kind !in s.posts[post].roles then
      if kind == StaffRole then Step(s, "NOTHING") else Step(s, "OUT_OF_SCOPE")
    else if kind == AdminRole && s.posts[post].roles - {AdminRole} != {} then
      Step(s.(posts := s.posts[post := s.posts[post].(roles := s.posts[post].roles - {AdminRole})]), "ROLE_ONLY")
    else
      var candidates := Replacements(s, u, b, kind);
      if s.posts[post].isPrimary && candidates != {} && (replacement.None? || replacement.value !in candidates) then
        Step(s, "REPLACEMENT_REQUIRED")
      else if s.posts[post].isPrimary && replacement.Some? && Post(u, replacement.value) !in s.posts then
        Step(s, "REPLACEMENT_NOT_FOUND")
      else
        var posts :=
          if s.posts[post].isPrimary && replacement.Some? && Post(u, replacement.value) in s.posts then
            var heir := Post(u, replacement.value);
            Demoted(s.posts, u)[heir := s.posts[heir].(isPrimary := true, isActive := true)]
          else s.posts;
        Step(Settled(s.(posts := posts - {post}), u), "OK")
  }

  function SetPrimary(s: Register, u: Id, b: Id, kind: RoleKind, since: nat): Step
  {
    var post := Post(u, b);
    if !OpenBranch(s, b) then Step(s, "INVALID")
    else if post !in s.posts || post !in Serving(s, u) || kind !in s.posts[post].roles then Step(s, "INVALID")
    else
      Step(s.(posts := Demoted(s.posts, u)[post := s.posts[post].(isPrimary := true, since := since)]), "OK")
  }

  /** Among some assignments, the one listed first. */
  ghost predicate ListedFirst(posts: Posts, among: set<Post>, first: Post)
  {
    first in among &&
    forall p :: p in among && p in posts && first in posts ==>
      posts[first].since < posts[p].since || (posts[first].since == posts[p].since && first.branch <= p.branch)
  }

  /** The remaining assignment listed first, once this one is closed. */
  ghost function Heir(s: Register, u: Id, b: Id): Option<Post>
  {
    var among := Serving(s, u) - {Post(u, b)};
    if exists p :: ListedFirst(s.posts, among, p) then
      var p :| ListedFirst(s.posts, among, p);
      Some(p)
    else None
  }

  /** offboardUserFromBranch: a primary assignment hands over to the one listed first. */
  ghost function Offboard(s: Register, u: Id, b: Id): Step
  {
    var post := Post(u, b);
    if post !in s.posts || post !in Serving(s, u) || StaffRole !in s.posts[post].roles then Step(s, "OUT_OF_SCOPE")
    else
      var closed := s.posts[post := s.posts[post].(isActive := false, isPrimary := false)];
      var heir := Heir(s, u, b);
      var posts := if s.posts[post].isPrimary && heir.Some? && heir.value in closed
                   then Promoted(closed, heir.value) else closed;
      Step(Settled(s.(posts := posts), u), "OK")
  }

  /** updateBranchInScope: a branch with active assignments stays open. */
  function SetBranchOpen(s: Register, b: Id, open: bool): Step
  {
    if b !in s.branches then Step(s, "OUT_OF_SCOPE")
    else if !open && s.branches[b] && exists p :: p in s.posts && p.branch == b && s.posts[p].isActive then
      Step(s, "CONFLICT")
    else Step(s.(branches := s.branches[b := open]), "OK")
  }

  function DisableUser(s: Register, u: Id): Step
  {
    if u !in s.users then Step(s, "OUT_OF_SCOPE")
    else Step(s.(users := s.users[u := s.users[u].(isActive := false, sessions := 0)]), "OK")
  }

  // ---- the invariant

  /** At most one primary assignment per user, and an active one. */
  ghost predicate PrimaryInv(posts: Posts)
  {
    && (forall p :: p in posts && posts[p].isPrimary ==> posts[p].isActive)
    && (forall p, q :: p in posts && q in posts && posts[p].isPrimary && posts[q].isPrimary && p.user == q.user ==>
          p == q)
  }

  // ---- what the building blocks do to it

  lemma {:induction false} AssignedPosts(posts: Posts, u: Id, branches: seq<Id>, primary: Id, roles: set<RoleKind>,
                                         since: nat)
    ensures forall p ::
              p in Assigned(posts, u, branches, primary, roles, since) <==>
                p in posts || (p.user == u && p.branch in branches)
    ensures forall p :: p in Assigned(posts, u, branches, primary, roles, since) ==>
              Assigned(posts, u, branches, primary, roles, since)[p] ==
              if p.user == u && p.branch in branches then Assignment(true, p.branch == primary, roles, since)
              else posts[p]
  {
    if |branches| > 0 {
      AssignedPosts(posts, u, branches[..|branches| - 1], primary, roles, since);
    }
  }

  lemma AssignedKeeps(posts: Posts, u: Id, branches: seq<Id>, primary: Id, roles: set<RoleKind>, since: nat)
    requires PrimaryInv(posts)
    ensures PrimaryInv(Assigned(Without(posts, u), u, branches, primary, roles, since))
  {
    hide Assigned;
    AssignedPosts(Without(posts, u), u, branches, primary, roles, since);
  }

  /** The branches marked primary in a request, by how many there are. */
  lemma {:induction false} NoneMarked(wanted: seq<Wanted>, i: nat)
    requires PrimaryCount(wanted) == 0 && i < |wanted|
    ensures !wanted[i].isPrimary
  {
    if i < |wanted| - 1 {
      NoneMarked(wanted[..|wanted| - 1], i);
    }
  }

  lemma {:induction false} OneMarked(wanted: seq<Wanted>, i: nat, j: nat)
    requires PrimaryCount(wanted) <= 1 && i < j < |wanted| && wanted[i].isPrimary
    ensures !wanted[j].isPrimary
  {
    var front := wanted[..|wanted| - 1];
    if j < |wanted| - 1 {
      OneMarked(front, i, j);
    } else if wanted[j].isPrimary {
      NoneMarked(front, i);
    }
  }

  lemma {:induction false} WantedPosts(posts: Posts, u: Id, wanted: seq<Wanted>, roles: set<RoleKind>, since: nat)
    requires forall i, j :: 0 <= i < j < |wanted| ==> wanted[i].branch != wanted[j].branch
    ensures forall p :: p in AssignedAsWanted(posts, u, wanted, roles, since) && p.user != u ==>
              p in posts && AssignedAsWanted(posts, u, wanted, roles, since)[p] == posts[p]
    ensures forall p :: p in AssignedAsWanted(posts, u, wanted, roles, since) && p !in posts ==>
              p.user == u && exists i :: 0 <= i < |wanted| && wanted[i].branch == p.branch
    ensures forall i :: 0 <= i < |wanted| ==>
              Post(u, wanted[i].branch) in AssignedAsWanted(posts, u, wanted, roles, since) &&
              AssignedAsWanted(posts, u, wanted, roles, since)[Post(u, wanted[i].branch)] ==
              Assignment(true, wanted[i].isPrimary, roles, since)
  {
    if |wanted| > 0 {
      var front := wanted[..|wanted| - 1];
      WantedPosts(posts, u, front, roles, since);
      assert forall i :: 0 <= i < |front| ==> front[i] == wanted[i];
    }
  }

  lemma AssignedAsWantedKeeps(posts: Posts, u: Id, wanted: seq<Wanted>, roles: set<RoleKind>, since: nat)
    requires PrimaryInv(posts) && PrimaryCount(wanted) == 1
    requires forall i, j :: 0 <= i < j < |wanted| ==> wanted[i].branch != wanted[j].branch
    ensures PrimaryInv(AssignedAsWanted(Without(posts, u), u, wanted, roles, since))
  {
    hide AssignedAsWanted, PrimaryCount;
    var after := AssignedAsWanted(Without(posts, u), u, wanted, roles, since);
    WantedPosts(Without(posts, u), u, wanted, roles, since);
    forall p | p in after && after[p].isPrimary ensures after[p].isActive {
      if p.user == u {
        var i :| 0 <= i < |wanted| && wanted[i].branch == p.branch;
        assert p == Post(u, wanted[i].branch);
      }
    }
    forall p, q | p in after && q in after && after[p].isPrimary && after[q].isPrimary && p.user == q.user
      ensures p == q
    {
      if p.user == u {
        var i :| 0 <= i < |wanted| && wanted[i].branch == p.branch;
        var j :| 0 <= j < |wanted| && wanted[j].branch == q.branch;
        assert p == Post(u, wanted[i].branch) && q == Post(u, wanted[j].branch);
        if i < j {
          OneMarked(wanted, i, j);
        } else if j < i {
          OneMarked(wanted, j, i);
        }
      }
    }
  }

  lemma SettledPosts(s: Register, u: Id)
    ensures Settled(s, u).posts == s.posts
  {
  }

  // ---- every step keeps it

  lemma TransferKeeps(s: Register, u: Id, source: Id, target: Id, roles: set<RoleKind>, since: nat, rolesFit: bool)
    requires PrimaryInv(s.posts)
    ensures PrimaryInv(Transfer(s, u, source, target, roles, since, rolesFit).next.posts)
  {
    hide PrimariesServing;
    var dst := Post(u, target);
    if Post(u, source) in s.posts && !(dst in s.posts && s.posts[dst].isActive) {
      TransferredKeeps(s, u, source, target, roles, since);
    }
  }

  lemma TransferredKeeps(s: Register, u: Id, source: Id, target: Id, roles: set<RoleKind>, since: nat)
    requires PrimaryInv(s.posts) && Post(u, source) in s.posts
    ensures PrimaryInv(TransferredPosts(s, u, source, target, roles, since))
  {
  }

  /**
   The closing count of a transfer fails exactly when the source is not primary and no other active
   assignment in an active branch is.
   */
  lemma TransferCountExactly(s: Register, u: Id, source: Id, target: Id, roles: set<RoleKind>, since: nat)
    requires PrimaryInv(s.posts) && Post(u, source) in Serving(s, u) && OpenBranch(s, target)
    requires Post(u, target) in s.posts ==> !s.posts[Post(u, target)].isActive
    requires u in s.users && s.users[u].kind == BranchUser && s.users[u].isActive
    requires StaffRole in s.posts[Post(u, source)].roles
    ensures Transfer(s, u, source, target, roles, since, true).reply ==
            if PrimariesServing(s, u) == {} then "PRIMARY_INVARIANT" else "OK"
  {
    var src, dst := Post(u, source), Post(u, target);
    var next := s.(posts := TransferredPosts(s, u, source, target, roles, since));
    TransferredKeeps(s, u, source, target, roles, since);
    if s.posts[src].isPrimary {
      assert src in PrimariesServing(s, u);
      assert PrimariesServing(next, u) == {dst};
    } else {
      forall p ensures p in PrimariesServing(next, u) <==> p in PrimariesServing(s, u) {
        if p != src && p != dst {
          assert p in s.posts <==> p in next.posts;
          assert p in s.posts ==> next.posts[p] == s.posts[p];
        }
      }
      assert PrimariesServing(next, u) == PrimariesServing(s, u);
      if p :| p in PrimariesServing(s, u) {
        assert PrimariesServing(s, u) == {p};
      }
    }
  }

  /**
   The check constraint stops a deactivation exactly when a primary is named as its own replacement with
   nobody to take over.
   */
  lemma CheckStopsExactly(s: Register, u: Id, b: Id, kind: RoleKind, replacement: Option<Id>)
    requires PrimaryInv(s.posts)
    ensures SetActive(s, u, b, false, kind, replacement).reply == "PRIMARY_MUST_BE_ACTIVE" <==>
            Post(u, b) in s.posts && kind in s.posts[Post(u, b)].roles && s.posts[Post(u, b)].isPrimary &&
            replacement == Some(b) && Replacements(s, u, b, kind) == {}
  {
    hide Serving, PrimaryInv;
    assert b !in Replacements(s, u, b, kind);
  }

  lemma DeactivateRowsKeep(s: Register, u: Id, b: Id, kind: RoleKind, replacement: Option<Id>)
    requires PrimaryInv(s.posts)
    ensures PrimaryInv(SetActive(s, u, b, false, kind, replacement).next.posts)
  {
    hide Serving, Replacements;
  }

  lemma ActivateKeeps(s: Register, u: Id, b: Id, kind: RoleKind, replacement: Option<Id>)
    requires PrimaryInv(s.posts)
    ensures PrimaryInv(SetActive(s, u, b, true, kind, replacement).next.posts)
  {
  }

  lemma RemoveKeeps(s: Register, u: Id, b: Id, kind: RoleKind, replacement: Option<Id>)
    requires PrimaryInv(s.posts)
    ensures PrimaryInv(Remove(s, u, b, kind, replacement).next.posts)
  {
    hide Serving, Replacements;
  }

  lemma OffboardKeeps(s: Register, u: Id, b: Id)
    requires PrimaryInv(s.posts)
    ensures PrimaryInv(Offboard(s, u, b).next.posts)
  {
    var heir := Heir(s, u, b);
    if heir.Some? {
      assert heir.value in Serving(s, u) - {Post(u, b)};
    }
  }

  // ---- a primary assignment that closes hands over

  lemma {:induction false} SomebodyIsFirst(posts: Posts, u: Id, among: set<Post>) returns (first: Post)
    requires among != {} && forall p :: p in among ==> p in posts && p.user == u
    ensures ListedFirst(posts, among, first)
    decreases |among|
  {
    var p :| p in among;
    var rest := among - {p};
    if rest == {} {
      first := p;
      assert among == {p};
    } else {
      var q := SomebodyIsFirst(posts, u, rest);
      first := if posts[q].since < posts[p].since || (posts[q].since == posts[p].since && q.branch <= p.branch)
               then q else p;
    }
  }

  lemma FirstIsUnique(posts: Posts, u: Id, among: set<Post>, p: Post, q: Post)
    requires ListedFirst(posts, among, p) && ListedFirst(posts, among, q)
    requires forall r :: r in among ==> r in posts && r.user == u
    ensures p == q
  {
  }

  /**
   Offboarding from the primary branch leaves exactly one primary assignment, the one listed first, if any remains.
   */
  lemma OffboardHandsOver(s: Register, u: Id, b: Id)
    requires PrimaryInv(s.posts) && Offboard(s, u, b).reply == "OK" && s.posts[Post(u, b)].isPrimary
    ensures var next, among := Offboard(s, u, b).next, Serving(s, u) - {Post(u, b)};
            && Serving(next, u) == among
            && (among != {} ==> exists p :: ListedFirst(s.posts, among, p) && PrimariesServing(next, u) == {p})
  {
    var next, among := Offboard(s, u, b).next, Serving(s, u) - {Post(u, b)};
    SettledPosts(s, u);
    if among != {} {
      var first := SomebodyIsFirst(s.posts, u, among);
      var p := Heir(s, u, b).value;
      FirstIsUnique(s.posts, u, among, first, p);
      assert PrimariesServing(next, u) == {p};
    }
  }

  // ---- access follows the last assignment

  /** The user is shut out exactly when nothing is left to serve; otherwise no user is touched. */
  ghost predicate AccessFollows(s: Register, next: Register, u: Id)
  {
    && (forall v :: v in s.users && v != u ==> v in next.users && next.users[v] == s.users[v])
    && u in s.users && u in next.users
    && next.users[u] == if Serving(next, u) == {} then s.users[u].(isActive := false, sessions := 0) else s.users[u]
  }

  lemma SettledAccess(s: Register, posts: Posts, u: Id)
    requires u in s.users
    ensures AccessFollows(s, Settled(s.(posts := posts), u), u)
  {
    assert Serving(Settled(s.(posts := posts), u), u) == Serving(s.(posts := posts), u);
  }

  /**
   Deactivation, removal and offboarding shut out a user they leave without an active assignment in an active branch.
   */
  lemma LastAssignmentEndsAccess(s: Register, u: Id, b: Id, kind: RoleKind, replacement: Option<Id>)
    requires u in s.users
    ensures SetActive(s, u, b, false, kind, replacement).reply == "OK" ==>
              AccessFollows(s, SetActive(s, u, b, false, kind, replacement).next, u)
    ensures Remove(s, u, b, kind, replacement).reply == "OK" ==>
              AccessFollows(s, Remove(s, u, b, kind, replacement).next, u)
    ensures Offboard(s, u, b).reply == "OK" ==> AccessFollows(s, Offboard(s, u, b).next, u)
  {
    hide AccessFollows, Serving, Settled, Replacements, Demoted, Heir;
    SettledAccess(s, SetActive(s, u, b, false, kind, replacement).next.posts, u);
    forall posts: Posts ensures AccessFollows(s, Settled(s.(posts := posts), u), u) {
      SettledAccess(s, posts, u);
    }
  }

  // ---- the service's choice of a replacement

  /** resolvePrimaryReplacement, on the register as it was when read. */
  function ResolveReplacement(seen: Register, u: Id, b: Id, kind: RoleKind, requested: Option<Id>): Result<Option<Id>>
  {
    var post := Post(u, b);
    if post !in seen.posts || kind !in seen.posts[post].roles then Refused("NOT_FOUND")
    else if !seen.posts[post].isPrimary then Ok(None)
    else if Replacements(seen, u, b, kind) == {} then Ok(None)
    else if requested.None? then Refused("REPLACEMENT_REQUIRED")
    else if requested.value == b || Post(u, requested.value) !in seen.posts ||
            kind !in seen.posts[Post(u, requested.value)].roles || !OpenBranch(seen, requested.value) then
      Refused("REPLACEMENT_INVALID")
    else Ok(requested)
  }

  /** Deactivation as the service runs it: the read of `seen` comes first and may be stale. */
  function Deactivate(seen: Register, s: Register, u: Id, b: Id, kind: RoleKind, requested: Option<Id>): Step
  {
    match ResolveReplacement(seen, u, b, kind, requested)
    case Refused(code) => Step(s, code)
    case Ok(replacement) => SetActive(s, u, b, false, kind, replacement)
  }

  // ---- runs

  datatype Request =
    | HireUser(u: Id, userKind: UserKind, branches: seq<Id>, roles: set<RoleKind>, since: nat, fits: bool)
    | MakeAdmin(u: Id, branches: seq<Id>, since: nat, fits: bool)
    | MakeStaff(u: Id, wanted: seq<Wanted>, roles: set<RoleKind>, since: nat, fits: bool)
    | AddStaff(u: Id, b: Id, roles: set<RoleKind>, since: nat, fits: bool)
    | AddBranch(u: Id, b: Id, role: RoleKind, since: nat, fits: bool)
    | MoveStaff(u: Id, source: Id, target: Id, roles: set<RoleKind>, since: nat, fits: bool)
    | Reactivate(u: Id, b: Id, kind: RoleKind)
    | CloseAssignment(seen: Register, u: Id, b: Id, kind: RoleKind, requested: Option<Id>)
    | RemoveAssignment(u: Id, b: Id, kind: RoleKind, replacement: Option<Id>)
    | ChoosePrimary(u: Id, b: Id, kind: RoleKind, since: nat)
    | OffboardStaff(u: Id, b: Id)
    | OpenOrCloseBranch(b: Id, open: bool)
    | DisableAccount(u: Id)

  ghost function Apply(s: Register, r: Request): Step
  {
    match r
    case HireUser(u, kind, branches, roles, since, fits) => CreateUser(s, u, kind, branches, roles, since, fits)
    case MakeAdmin(u, branches, since, fits) => ConvertToAdmin(s, u, branches, since, fits)
    case MakeStaff(u, wanted, roles, since, fits) => ConvertToStaff(s, u, wanted, roles, since, fits)
    case AddStaff(u, b, roles, since, fits) => AssignExisting(s, u, b, roles, since, fits)
    case AddBranch(u, b, role, since, fits) => AssignBranch(s, u, b, role, since, fits)
    case MoveStaff(u, source, target, roles, since, fits) => Transfer(s, u, source, target, roles, since, fits)
    case Reactivate(u, b, kind) => SetActive(s, u, b, true, kind, None)
    case CloseAssignment(seen, u, b, kind, requested) => Deactivate(seen, s, u, b, kind, requested)
    case RemoveAssignment(u, b, kind, replacement) => Remove(s, u, b, kind, replacement)
    case ChoosePrimary(u, b, kind, since) => SetPrimary(s, u, b, kind, since)
    case OffboardStaff(u, b) => Offboard(s, u, b)
    case OpenOrCloseBranch(b, open) => SetBranchOpen(s, b, open)
    case DisableAccount(u) => DisableUser(s, u)
  }

  ghost function Run(s: Register, requests: seq<Request>): Register
  {
    if |requests| == 0 then s else Apply(Run(s, requests[..|requests| - 1]), requests[|requests| - 1]).next
  }

  /** The service never reaches the check constraint, even where it chose the replacement on a stale read. */
  lemma DeactivateKeeps(seen: Register, s: Register, u: Id, b: Id, kind: RoleKind, requested: Option<Id>)
    requires PrimaryInv(s.posts)
    ensures PrimaryInv(Deactivate(seen, s, u, b, kind, requested).next.posts)
    ensures Deactivate(seen, s, u, b, kind, requested).reply != "PRIMARY_MUST_BE_ACTIVE"
  {
    hide SetActive, PrimaryInv, Replacements;
    match ResolveReplacement(seen, u, b, kind, requested)
    case Refused(code) =>
    case Ok(replacement) =>
      DeactivateRowsKeep(s, u, b, kind, replacement);
      CheckStopsExactly(s, u, b, kind, replacement);
  }

  lemma HireKeeps(s: Register, r: Request)
    requires PrimaryInv(s.posts) && (r.HireUser? || r.MakeAdmin? || r.MakeStaff?)
    ensures PrimaryInv(Apply(s, r).next.posts)
  {
    hide Assigned, AssignedAsWanted;
    match r
    case HireUser(u, kind, branches, roles, since, fits) =>
      if |branches| > 0 {
        AssignedKeeps(s.posts, u, branches, branches[0], roles, since);
      }
    case MakeAdmin(u, branches, since, fits) =>
      if |branches| > 0 {
        AssignedKeeps(s.posts, u, branches, branches[0], {AdminRole}, since);
      }
    case MakeStaff(u, wanted, roles, since, fits) =>
      if PrimaryCount(wanted) == 1 && forall i, j :: 0 <= i < j < |wanted| ==> wanted[i].branch != wanted[j].branch {
        AssignedAsWantedKeeps(s.posts, u, wanted, roles, since);
      }
  }

  lemma RequestKeepsPrimaries(s: Register, r: Request)
    requires PrimaryInv(s.posts)
    ensures PrimaryInv(Apply(s, r).next.posts)
  {
    hide SetActive, Remove, Transfer, Offboard, Deactivate, Replacements, CreateUser, ConvertToAdmin, ConvertToStaff;
    if r.HireUser? || r.MakeAdmin? || r.MakeStaff? {
      HireKeeps(s, r);
    } else {
      match r
      case MoveStaff(u, source, target, roles, since, fits) => TransferKeeps(s, u, source, target, roles, since, fits);
      case Reactivate(u, b, kind) => ActivateKeeps(s, u, b, kind, None);
      case CloseAssignment(seen, u, b, kind, requested) => DeactivateKeeps(seen, s, u, b, kind, requested);
      case RemoveAssignment(u, b, kind, replacement) => RemoveKeeps(s, u, b, kind, replacement);
      case OffboardStaff(u, b) => OffboardKeeps(s, u, b);
      case _ =>
    }
  }

  /** In every run each user has at most one primary assignment, and it is active. */
  lemma {:induction false} EveryRunKeepsPrimaries(s: Register, requests: seq<Request>)
    requires PrimaryInv(s.posts)
    ensures PrimaryInv(Run(s, requests).posts)
  {
    hide PrimaryInv, Apply;
    if |requests| > 0 {
      EveryRunKeepsPrimaries(s, requests[..|requests| - 1]);
      RequestKeepsPrimaries(Run(s, requests[..|requests| - 1]), requests[|requests| - 1]);
    }
  }
}
