/** Members, groups, spaces and grants of one tenant, as the queries of the access service see them,
    and the administrative operations as whole transactions. */
module Access {
  import opened Common
  import opened Groups

  datatype MemberStatus = Active | Suspended | Left
  datatype Member = Member(user: Id, admin: bool, status: MemberStatus)

  datatype Subject = TENANT | GROUP | MEMBER
  datatype Role = VIEWER | EDITOR | MANAGER
  datatype Grant = Grant(space: Id, subject: Subject, group: Option<Id>, member: Option<Id>, role: Role, revoked: bool)

  datatype Tables = Tables(
    tenantActive: bool,
    users: map<Id, bool>,         // user -> is_active
    members: map<Id, Member>,
    tree: Tree,
    links: set<(Id, Id)>,         // (group, member)
    spaces: set<Id>,
    grants: map<Id, Grant>)

  datatype Ctx = Ctx(member: Id, user: Id)

  datatype Error =
    | TenantContextInvalid | PermissionDenied | ResourceNotFound | InvalidSubject
    | LastSpaceManager | TakeoverReasonRequired | MembershipExists | LastTenantAdmin
    | Tree(cause: TreeError) | IntegrityError

  // ---------- Who may do what ----------

  /** Rows of `tenant_memberships` joined with an active user, with status 'active'. */
  predicate Eligible(t: Tables, m: Id) {
    m in t.members && t.members[m].status == Active && t.members[m].user in t.users && t.users[t.members[m].user]
  }

  /** CTE `active_member`. */
  predicate Acting(t: Tables, c: Ctx) {
    t.tenantActive && Eligible(t, c.member) && t.members[c.member].user == c.user
  }

  function GroupsOf(t: Tables, m: Id): set<Id> {
    set l <- t.links | l.1 == m :: l.0
  }

  /** CTE `member_groups`: the closure that starts at one member's groups. */
  function MemberGroups(t: Tables, c: Ctx): set<Id> {
    if Acting(t, c) then Closure(t.tree, ActiveIds(t.tree), GroupsOf(t, c.member)) else {}
  }

  /** CTE `matched_grants`. */
  predicate Matched(t: Tables, c: Ctx, g: Grant) {
    && !g.revoked && Acting(t, c)
    && (g.subject == TENANT
        || (g.subject == MEMBER && g.member == Some(c.member))
        || (g.subject == GROUP && g.group.Some? && g.group.value in MemberGroups(t, c)))
  }

  predicate CanManage(t: Tables, c: Ctx, space: Id) {
    exists g <- t.grants :: t.grants[g].space == space && t.grants[g].role == MANAGER && Matched(t, c, t.grants[g])
  }

  predicate CanSee(t: Tables, c: Ctx, space: Id) {
    exists g <- t.grants :: t.grants[g].space == space && Matched(t, c, t.grants[g])
  }

  /** CTE `eligible_groups`: one closure that starts at the groups of all eligible members. */
  function EligibleGroups(t: Tables): set<Id> {
    Closure(t.tree, ActiveIds(t.tree), set l <- t.links | Eligible(t, l.1) :: l.0)
  }

  predicate ManagerGrant(t: Tables, space: Id, g: Grant) {
    && g.space == space && !g.revoked && g.role == MANAGER
    && (g.subject == TENANT
        || (g.group.Some? && g.group.value in EligibleGroups(t))
        || (g.member.Some? && Eligible(t, g.member.value)))
  }

  /** The query of `_has_manager`. */
  predicate HasManager(t: Tables, space: Id) {
    exists g <- t.grants :: ManagerGrant(t, space, t.grants[g])
  }

  /** What the query is for: some member, seen through the access query, manages the space. */
  ghost predicate SomeoneManages(t: Tables, space: Id) {
    exists m <- t.members :: CanManage(t, Ctx(m, t.members[m].user), space)
  }

  predicate TenantWideManager(t: Tables, space: Id) {
    exists g <- t.grants :: t.grants[g] == Grant(space, TENANT, t.grants[g].group, t.grants[g].member, MANAGER, false)
  }

  /** The CHECK constraint of `space_grants`. */
  predicate ShapeOk(g: Grant) {
    match g.subject
    case TENANT => g.group.None? && g.member.None?
    case GROUP => g.group.Some? && g.member.None?
    case MEMBER => g.group.None? && g.member.Some?
  }

  ghost predicate Shapes(t: Tables) {
    forall g <- t.grants :: ShapeOk(t.grants[g])
  }

  predicate SameTarget(a: Grant, b: Grant) {
    a.space == b.space && a.subject == b.subject && a.group == b.group && a.member == b.member
  }

  /** The partial unique indexes: one unrevoked grant per space and subject. */
  ghost predicate OneLiveGrant(t: Tables) {
    forall a <- t.grants, b <- t.grants ::
      !t.grants[a].revoked && !t.grants[b].revoked && SameTarget(t.grants[a], t.grants[b]) ==> a == b
  }

  predicate IsAdmin(t: Tables, m: Id) {
    Eligible(t, m) && t.members[m].admin
  }

  predicate SomeAdmin(t: Tables) {
    exists m <- t.members :: IsAdmin(t, m)
  }

  ghost predicate OneMembershipPerUser(t: Tables) {
    forall m <- t.members, n <- t.members :: t.members[m].user == t.members[n].user ==> m == n
  }

  ghost predicate Inv(t: Tables) {
    TreeInv(t.tree) && Shapes(t) && OneLiveGrant(t) && SomeAdmin(t) && OneMembershipPerUser(t)
  }

  // ---------- The two closures agree ----------

  /** The group closure over everybody is the union of the closures of the single members. */
  lemma EligibleGroupsAreMembersGroups(t: Tables, h: Id)
    requires t.tenantActive
    ensures h in EligibleGroups(t) <==>
            exists m <- t.members :: Eligible(t, m) && h in MemberGroups(t, Ctx(m, t.members[m].user))
  {
    var keep := ActiveIds(t.tree);
    var seeds := set m <- t.members | Eligible(t, m) :: GroupsOf(t, m);
    var all := set l <- t.links | Eligible(t, l.1) :: l.0;
    forall g ensures g in all <==> exists s <- seeds :: g in s {
      if g in all {
        var l :| l in t.links && Eligible(t, l.1) && l.0 == g;
        assert GroupsOf(t, l.1) in seeds && g in GroupsOf(t, l.1);
      }
    }
    ClosureOfUnion(t.tree, keep, seeds, all, h);
    if h in EligibleGroups(t) {
      var s :| s in seeds && h in Closure(t.tree, keep, s);
      var m :| m in t.members && Eligible(t, m) && GroupsOf(t, m) == s;
      assert h in MemberGroups(t, Ctx(m, t.members[m].user));
    }
    if m :| m in t.members && Eligible(t, m) && h in MemberGroups(t, Ctx(m, t.members[m].user)) {
      assert GroupsOf(t, m) in seeds;
    }
  }

  /** One live manager grant reaches somebody through the access query exactly when `_has_manager` counts
      it, for all but a tenant-wide grant, which needs at least one eligible member. */
  lemma GrantReachesSomeone(t: Tables, space: Id, g: Grant)
    requires t.tenantActive && ShapeOk(g) && g.space == space && g.role == MANAGER
    ensures (exists m <- t.members :: Matched(t, Ctx(m, t.members[m].user), g)) <==>
            ManagerGrant(t, space, g) && exists m <- t.members :: Eligible(t, m)
  {
    if g.subject == GROUP {
      EligibleGroupsAreMembersGroups(t, g.group.value);
    }
    if ManagerGrant(t, space, g) && exists m <- t.members :: Eligible(t, m) {
      var m :| m in t.members && Eligible(t, m) && match g.subject
        case TENANT => true
        case GROUP => g.group.value in MemberGroups(t, Ctx(m, t.members[m].user))
        case MEMBER => m == g.member.value;
      assert Matched(t, Ctx(m, t.members[m].user), g);
    }
  }

  /** In an active tenant `_has_manager` holds exactly when somebody manages the space, unless nobody at all
      is eligible and a tenant-wide manager grant is live: only then does the query answer true wrongly. */
  lemma HasManagerIsExactIff(t: Tables, space: Id)
    requires t.tenantActive && Shapes(t)
    ensures (HasManager(t, space) <==> SomeoneManages(t, space))
            <==> ((exists m <- t.members :: Eligible(t, m)) || !TenantWideManager(t, space))
  {
    forall g <- t.grants | t.grants[g].space == space && t.grants[g].role == MANAGER {
      GrantReachesSomeone(t, space, t.grants[g]);
    }
    if SomeoneManages(t, space) {
      var m :| m in t.members && CanManage(t, Ctx(m, t.members[m].user), space);
      var g :| g in t.grants && t.grants[g].space == space && t.grants[g].role == MANAGER
               && Matched(t, Ctx(m, t.members[m].user), t.grants[g]);
      assert ManagerGrant(t, space, t.grants[g]);
    }
    if HasManager(t, space) && exists m <- t.members :: Eligible(t, m) {
      var g :| g in t.grants && ManagerGrant(t, space, t.grants[g]);
      var m :| m in t.members && Matched(t, Ctx(m, t.members[m].user), t.grants[g]);
      assert CanManage(t, Ctx(m, t.members[m].user), space);
    }
    if !exists m <- t.members :: Eligible(t, m) {
      NobodyEligible(t, space);
    }
  }

  lemma NobodyEligible(t: Tables, space: Id)
    requires t.tenantActive && Shapes(t) && !exists m <- t.members :: Eligible(t, m)
    ensures HasManager(t, space) <==> TenantWideManager(t, space)
  {
    forall h ensures h !in EligibleGroups(t) {
      EligibleGroupsAreMembersGroups(t, h);
    }
    if g :| g in t.grants && ManagerGrant(t, space, t.grants[g]) {
      assert t.grants[g] == Grant(space, TENANT, t.grants[g].group, t.grants[g].member, MANAGER, false);
    }
    if g :| g in t.grants
            && t.grants[g] == Grant(space, TENANT, t.grants[g].group, t.grants[g].member, MANAGER, false) {
      assert ManagerGrant(t, space, t.grants[g]);
    }
  }

  /** Inside any operation that passed `_lock`, the query is exact. */
  lemma HasManagerIsExactUnderLock(t: Tables, c: Ctx, space: Id)
    requires Acting(t, c) && Shapes(t)
    ensures HasManager(t, space) <==> SomeoneManages(t, space)
  {
    HasManagerIsExactIff(t, space);
  }

  /** On an intact tree a group grant reaches exactly the members of the group and of the groups below it. */
  lemma GroupGrantReaches(t: Tables, c: Ctx, h: Id)
    requires ActiveUpward(t.tree) && Acting(t, c)
    ensures h in MemberGroups(t, c) <==>
            exists g <- t.tree :: (g, c.member) in t.links && t.tree[g].active && Reaches(t.tree, g, h)
  {
    StatusFilterNeverCuts(t.tree, GroupsOf(t, c.member), h);
    forall g ensures g in GroupsOf(t, c.member) <==> (g, c.member) in t.links {
      if (g, c.member) in t.links {
        assert (g, c.member).0 in GroupsOf(t, c.member);
      }
    }
  }

  // ---------- Operations ----------

  datatype Preset = Private | ForGroup | Public

  datatype Step =
    | CreateSpace(ctx: Ctx, space: Id, preset: Preset, group: Option<Id>, groupRole: Role, own: Id, shared: Id)
    | PutGrant(ctx: Ctx, space: Id, id: Id, subject: Subject, role: Role, group: Option<Id>, member: Option<Id>)
    | RevokeGrant(ctx: Ctx, space: Id, id: Id)
    | Takeover(ctx: Ctx, space: Id, id: Id, reasonBlank: bool)
    | AddMember(ctx: Ctx, user: Id, admin: bool, newMember: Id, newSpace: Id, id: Id)
    | UpdateMember(ctx: Ctx, target: Id, newAdmin: Option<bool>, newStatus: Option<MemberStatus>)
    | SaveGroup(ctx: Ctx, newId: Id, name: Option<string>, parent: Option<Id>, group: Option<Id>,
                changeParent: bool, archive: bool)
    | GroupMembers(ctx: Ctx, ofGroup: Id, member: Option<Id>, remove: bool)

  /** `_lock`: None when the caller may go on. */
  function Lock(t: Tables, c: Ctx, admin: bool): Option<Error> {
    if !Acting(t, c) then Some(TenantContextInvalid)
    else if admin && !t.members[c.member].admin then Some(PermissionDenied)
    else None
  }

  /** `_space`. */
  function SpaceCheck(t: Tables, c: Ctx, space: Id, control: bool): Option<Error> {
    if space !in t.spaces then Some(ResourceNotFound)
    else if control then None
    else if !CanSee(t, c, space) then Some(ResourceNotFound)
    else if !CanManage(t, c, space) then Some(PermissionDenied)
    else None
  }

  /** `_active_subject`. */
  function SubjectCheck(t: Tables, subject: Subject, group: Option<Id>, member: Option<Id>): Option<Error> {
    if subject == TENANT then
      if group.Some? || member.Some? then Some(InvalidSubject) else None
    else if subject == GROUP && group.Some? && member.None? then
      if IsActive(t.tree, group.value) then None else Some(ResourceNotFound)
    else if subject == MEMBER && member.Some? && group.None? then
      if member.value in t.members && t.members[member.value].status == Active then None else Some(ResourceNotFound)
    else Some(InvalidSubject)
  }

  /** The UPDATE of `_write_grant`: revoke what is live for the same target. */
  function RevokeTarget(grants: map<Id, Grant>, g: Grant): map<Id, Grant> {
    map i <- grants :: if SameTarget(grants[i], g) then grants[i].(revoked := true) else grants[i]
  }

  /** `_write_grant`. */
  function WriteGrant(t: Tables, id: Id, space: Id, subject: Subject, role: Role, group: Option<Id>, member: Option<Id>)
    : (r: Result<Tables, Error>)
  {
    var bad := SubjectCheck(t, subject, group, member);
    var g := Grant(space, subject, group, member, role, false);
    if bad.Some? then Err(bad.value)
    else if id in t.grants || space !in t.spaces then Err(IntegrityError)
    else Ok(t.(grants := RevokeTarget(t.grants, g)[id := g]))
  }

  function NeedManager(r: Result<Tables, Error>, space: Id): Result<Tables, Error> {
    if r.Ok? && !HasManager(r.value, space) then Err(LastSpaceManager) else r
  }

  /** The INSERT of a space and its owner's manager grant. */
  function NewOwnedSpace(t: Tables, space: Id, id: Id, owner: Id): Result<Tables, Error> {
    if space in t.spaces then Err(IntegrityError)
    else WriteGrant(t.(spaces := t.spaces + {space}), id, space, MEMBER, MANAGER, None, Some(owner))
  }

  function DoCreateSpace(t: Tables, c: Ctx, space: Id, preset: Preset, group: Option<Id>, groupRole: Role, own: Id,
                         shared: Id)
    : Result<Tables, Error>
  {
    var bad := Lock(t, c, preset == Public);
    if bad.Some? then Err(bad.value) else
    var r := NewOwnedSpace(t, space, own, c.member);
    if r.Err? then r else
    match preset
    case Private => r
    case ForGroup => WriteGrant(r.value, shared, space, GROUP, groupRole, group, None)
    case Public => WriteGrant(r.value, shared, space, TENANT, VIEWER, None, None)
  }

  function DoPutGrant(t: Tables, c: Ctx, space: Id, id: Id, subject: Subject, role: Role, group: Option<Id>,
                      member: Option<Id>)
    : Result<Tables, Error>
  {
    var bad := Lock(t, c, subject == TENANT);
    if bad.Some? then Err(bad.value) else
    var bad' := SpaceCheck(t, c, space, false);
    if bad'.Some? then Err(bad'.value) else
    NeedManager(WriteGrant(t, id, space, subject, role, group, member), space)
  }

  function DoRevokeGrant(t: Tables, c: Ctx, space: Id, id: Id): Result<Tables, Error> {
    var bad := Lock(t, c, false);
    if bad.Some? then Err(bad.value) else
    var bad' := SpaceCheck(t, c, space, false);
    if bad'.Some? then Err(bad'.value)
    else if id !in t.grants || t.grants[id].space != space || t.grants[id].revoked then Err(ResourceNotFound)
    else if t.grants[id].subject == TENANT && !t.members[c.member].admin then Err(PermissionDenied)
    else NeedManager(Ok(t.(grants := t.grants[id := t.grants[id].(revoked := true)])), space)
  }

  function DoTakeover(t: Tables, c: Ctx, space: Id, id: Id, reasonBlank: bool): Result<Tables, Error> {
    if reasonBlank then Err(TakeoverReasonRequired) else
    var bad := Lock(t, c, true);
    if bad.Some? then Err(bad.value) else
    var bad' := SpaceCheck(t, c, space, true);
    if bad'.Some? then Err(bad'.value) else
    WriteGrant(t, id, space, MEMBER, MANAGER, None, Some(c.member))
  }

  function DoAddMember(t: Tables, c: Ctx, user: Id, admin: bool, newMember: Id, newSpace: Id, id: Id)
    : Result<Tables, Error>
  {
    var bad := Lock(t, c, true);
    if bad.Some? then Err(bad.value)
    else if user !in t.users || !t.users[user] then Err(ResourceNotFound)
    else if exists m <- t.members :: t.members[m].user == user then Err(MembershipExists)
    else if newMember in t.members then Err(IntegrityError)
    else NewOwnedSpace(t.(members := t.members[newMember := Member(user, admin, Active)]), newSpace, id, newMember)
  }

  function DoUpdateMember(t: Tables, c: Ctx, target: Id, newAdmin: Option<bool>, newStatus: Option<MemberStatus>)
    : Result<Tables, Error>
  {
    var bad := Lock(t, c, true);
    if bad.Some? then Err(bad.value)
    else if target !in t.members then Err(ResourceNotFound)
    else
      var row := t.members[target];
      var row' := Member(row.user, if newAdmin.Some? then newAdmin.value else row.admin,
                         if newStatus.Some? then newStatus.value else row.status);
      var t' := t.(members := t.members[target := row']);
      if SomeAdmin(t') then Ok(t') else Err(LastTenantAdmin)
  }

  function DoSaveGroup(t: Tables, c: Ctx, newId: Id, name: Option<string>, parent: Option<Id>, group: Option<Id>,
                       changeParent: bool, archive: bool): Result<Tables, Error>
  {
    var bad := Lock(t, c, true);
    if bad.Some? then Err(bad.value)
    else match Groups.SaveGroup(t.tree, newId, name, parent, group, changeParent, archive)
      case Ok(tree') => Ok(t.(tree := tree'))
      case Err(e) => Err(Tree(e))
  }

  function DoGroupMembers(t: Tables, c: Ctx, g: Id, member: Option<Id>, remove: bool): Result<Tables, Error> {
    var bad := Lock(t, c, true);
    if bad.Some? then Err(bad.value)
    else if !IsActive(t.tree, g) then Err(ResourceNotFound)
    else if member.None? then Ok(t)
    else if remove then Ok(t.(links := t.links - {(g, member.value)}))
    else
      var bad' := SubjectCheck(t, MEMBER, None, member);
      if bad'.Some? then Err(bad'.value) else Ok(t.(links := t.links + {(g, member.value)}))
  }

  /** The outcome of one operation: the committed tables or the error that rolled it back. */
  function Perform(t: Tables, s: Step): Result<Tables, Error> {
    match s
    case CreateSpace(c, space, preset, group, groupRole, own, shared) =>
      DoCreateSpace(t, c, space, preset, group, groupRole, own, shared)
    case PutGrant(c, space, id, subject, role, group, member) =>
      DoPutGrant(t, c, space, id, subject, role, group, member)
    case RevokeGrant(c, space, id) => DoRevokeGrant(t, c, space, id)
    case Takeover(c, space, id, reasonBlank) => DoTakeover(t, c, space, id, reasonBlank)
    case AddMember(c, user, admin, newMember, newSpace, id) => DoAddMember(t, c, user, admin, newMember, newSpace, id)
    case UpdateMember(c, target, newAdmin, newStatus) => DoUpdateMember(t, c, target, newAdmin, newStatus)
    case SaveGroup(c, newId, name, parent, group, changeParent, archive) =>
      DoSaveGroup(t, c, newId, name, parent, group, changeParent, archive)
    case GroupMembers(c, g, member, remove) => DoGroupMembers(t, c, g, member, remove)
  }

  /** How a transaction ends: it commits the operation's tables, or reports its error and leaves no trace. */
  predicate Outcome(r: Result<Tables, Error>, error: Option<Error>, before: Tables, after: Tables) {
    match r
    case Ok(t) => error == None && after == t
    case Err(e) => error == Some(e) && after == before
  }

  /** A failed operation leaves the tables as they were. */
  function Apply(t: Tables, s: Step): Tables {
    var r := Perform(t, s);
    if r.Ok? then r.value else t
  }

  function Run(t: Tables, steps: seq<Step>): Tables
    decreases |steps|
  {
    if steps == [] then t else Run(Apply(t, steps[0]), steps[1..])
  }

  /** `register_organization`: a tenant, its administrator, a public and a personal space. */
  function Register(users: map<Id, bool>, user: Id, member: Id, public: Id, personal: Id, g: nat): Tables {
    Tables(true, users[user := true], map[member := Member(user, true, Active)], map[], {}, {public, personal},
           map[g := Grant(public, MEMBER, None, Some(member), MANAGER, false),
               g + 1 := Grant(public, TENANT, None, None, VIEWER, false),
               g + 2 := Grant(personal, MEMBER, None, Some(member), MANAGER, false)])
  }

  // ---------- Invariants over whole histories ----------

  /** After `_write_grant` there is exactly one live grant for the target, the new one, and no live grant of
      another target is touched. */
  lemma WriteGrantKeepsOneLive(t: Tables, id: Id, space: Id, subject: Subject, role: Role, group: Option<Id>,
                               member: Option<Id>)
    requires Shapes(t) && OneLiveGrant(t) && WriteGrant(t, id, space, subject, role, group, member).Ok?
    ensures var t' := WriteGrant(t, id, space, subject, role, group, member).value;
            && Shapes(t') && OneLiveGrant(t')
            && (forall i <- t'.grants :: SameTarget(t'.grants[i], Grant(space, subject, group, member, role, false)) ==>
                  (!t'.grants[i].revoked <==> i == id))
            && (forall i <- t.grants :: i in t'.grants &&
                  (!SameTarget(t.grants[i], Grant(space, subject, group, member, role, false)) ==>
                   t'.grants[i] == t.grants[i]))
  {
  }

  lemma NewOwnedSpaceKeepsGrants(t: Tables, space: Id, id: Id, owner: Id)
    requires Shapes(t) && OneLiveGrant(t) && NewOwnedSpace(t, space, id, owner).Ok?
    ensures var t' := NewOwnedSpace(t, space, id, owner).value;
            Shapes(t') && OneLiveGrant(t') && t' == t.(spaces := t'.spaces, grants := t'.grants)
            && id in t'.grants && t'.grants[id] == Grant(space, MEMBER, None, Some(owner), MANAGER, false)
            && forall g <- t.grants :: g in t'.grants && (t.grants[g].space != space ==> t'.grants[g] == t.grants[g])
  {
    WriteGrantKeepsOneLive(t.(spaces := t.spaces + {space}), id, space, MEMBER, MANAGER, None, Some(owner));
  }

  /** The step changed spaces and the grants of its own space, and kept the grants well formed. */
  ghost predicate GrantsKept(t: Tables, t': Tables, space: Id) {
    && Shapes(t') && OneLiveGrant(t') && t' == t.(spaces := t'.spaces, grants := t'.grants)
    && forall g <- t.grants :: g in t'.grants && (t.grants[g].space != space ==> t'.grants[g] == t.grants[g])
  }

  lemma CreateSpaceKeepsGrants(t: Tables, s: Step)
    requires Inv(t) && s.CreateSpace? && Perform(t, s).Ok?
    ensures var t' := Apply(t, s);
            && GrantsKept(t, t', s.space) && s.own in t'.grants
            && t'.grants[s.own] == Grant(s.space, MEMBER, None, Some(s.ctx.member), MANAGER, false)
  {
    NewOwnedSpaceKeepsGrants(t, s.space, s.own, s.ctx.member);
    var t2 := NewOwnedSpace(t, s.space, s.own, s.ctx.member).value;
    if s.preset == ForGroup {
      WriteGrantKeepsOneLive(t2, s.shared, s.space, GROUP, s.groupRole, s.group, None);
    } else if s.preset == Public {
      WriteGrantKeepsOneLive(t2, s.shared, s.space, TENANT, VIEWER, None, None);
    }
  }

  lemma RevokeKeepsGrants(t: Tables, s: Step)
    requires Inv(t) && s.RevokeGrant? && Perform(t, s).Ok?
    ensures GrantsKept(t, Apply(t, s), s.space)
  {
  }

  lemma GrantStepKeepsGrants(t: Tables, s: Step)
    requires Inv(t) && Perform(t, s).Ok?
    requires s.CreateSpace? || s.PutGrant? || s.RevokeGrant? || s.Takeover?
    ensures GrantsKept(t, Apply(t, s), s.space)
    ensures s.CreateSpace? ==>
              s.own in Apply(t, s).grants
              && Apply(t, s).grants[s.own] == Grant(s.space, MEMBER, None, Some(s.ctx.member), MANAGER, false)
  {
    match s
    case CreateSpace(_, _, _, _, _, _, _) => CreateSpaceKeepsGrants(t, s);
    case PutGrant(c, space, id, subject, role, group, member) =>
      WriteGrantKeepsOneLive(t, id, space, subject, role, group, member);
    case RevokeGrant(_, _, _) => RevokeKeepsGrants(t, s);
    case Takeover(c, space, id, _) =>
      WriteGrantKeepsOneLive(t, id, space, MEMBER, MANAGER, None, Some(c.member));
  }

  lemma AddMemberKeepsInv(t: Tables, s: Step)
    requires Inv(t) && s.AddMember? && Perform(t, s).Ok?
    ensures Inv(Apply(t, s))
  {
    var t1 := t.(members := t.members[s.newMember := Member(s.user, s.admin, Active)]);
    NewOwnedSpaceKeepsGrants(t1, s.newSpace, s.id, s.newMember);
    var m :| m in t.members && IsAdmin(t, m);
    assert IsAdmin(Apply(t, s), m);
  }

  lemma StepKeepsInv(t: Tables, s: Step)
    requires Inv(t)
    ensures Inv(Apply(t, s))
  {
    if Perform(t, s).Ok? {
      match s
      case CreateSpace(_, _, _, _, _, _, _) => GrantStepKeepsGrants(t, s); AdminsUnchanged(t, Apply(t, s));
      case PutGrant(_, _, _, _, _, _, _) => GrantStepKeepsGrants(t, s); AdminsUnchanged(t, Apply(t, s));
      case RevokeGrant(_, _, _) => GrantStepKeepsGrants(t, s); AdminsUnchanged(t, Apply(t, s));
      case Takeover(_, _, _, _) => GrantStepKeepsGrants(t, s); AdminsUnchanged(t, Apply(t, s));
      case AddMember(_, _, _, _, _, _) => AddMemberKeepsInv(t, s);
      case UpdateMember(_, _, _, _) =>
      case SaveGroup(_, newId, name, parent, group, changeParent, archive) =>
        SaveGroupKeepsTree(t.tree, newId, name, parent, group, changeParent, archive);
        AdminsUnchanged(t, Apply(t, s));
      case GroupMembers(_, _, _, _) => AdminsUnchanged(t, Apply(t, s));
    }
  }

  lemma AdminsUnchanged(t: Tables, t': Tables)
    requires SomeAdmin(t) && t'.members == t.members && t'.users == t.users
    ensures SomeAdmin(t')
  {
    var m :| m in t.members && IsAdmin(t, m);
    assert IsAdmin(t', m);
  }

  lemma {:induction false} RunKeepsInv(t: Tables, steps: seq<Step>)
    requires Inv(t)
    ensures Inv(Run(t, steps))
    decreases |steps|
  {
    if steps != [] {
      StepKeepsInv(t, steps[0]);
      RunKeepsInv(Apply(t, steps[0]), steps[1..]);
    }
  }

  /** Over every history from registration: the group tree is acyclic with active groups closed upward, grants
      are well formed with one live grant per space and subject, and some active administrator remains. */
  lemma HistoriesKeepInv(users: map<Id, bool>, user: Id, member: Id, public: Id, personal: Id, g: nat, steps: seq<Step>)
    requires public != personal
    ensures Inv(Run(Register(users, user, member, public, personal, g), steps))
  {
    var t := Register(users, user, member, public, personal, g);
    assert IsAdmin(t, member);
    RunKeepsInv(t, steps);
  }

  /** An archived group is never changed again, by any later step. */
  lemma {:induction false} ArchivedForever(t: Tables, steps: seq<Step>, g: Id)
    requires g in t.tree && !t.tree[g].active
    ensures g in Run(t, steps).tree && Run(t, steps).tree[g] == t.tree[g]
    decreases |steps|
  {
    if steps != [] {
      ArchivedStep(t, steps[0], g);
      ArchivedForever(Apply(t, steps[0]), steps[1..], g);
    }
  }

  lemma OnlySavesChangeTheTree(t: Tables, s: Step)
    requires !s.SaveGroup?
    ensures Apply(t, s).tree == t.tree
  {
  }

  lemma ArchivedStep(t: Tables, s: Step, g: Id)
    requires g in t.tree && !t.tree[g].active
    ensures g in Apply(t, s).tree && Apply(t, s).tree[g] == t.tree[g]
  {
    if s.SaveGroup? {
      ArchivedIsFinal(t.tree, s.newId, s.name, s.parent, s.group, s.changeParent, s.archive, g);
    } else {
      OnlySavesChangeTheTree(t, s);
    }
  }

  // ---------- Spaces keep a manager ----------

  /** The space an operation that must leave a manager is about. */
  function Touched(s: Step): Option<Id> {
    match s
    case CreateSpace(_, space, _, _, _, _, _) => Some(space)
    case PutGrant(_, space, _, _, _, _, _) => Some(space)
    case RevokeGrant(_, space, _) => Some(space)
    case Takeover(_, space, _, _) => Some(space)
    case AddMember(_, _, _, _, newSpace, _) => Some(newSpace)
    case _ => None
  }

  /** `t'` differs from `t` by members added and by grants on `space`. */
  ghost predicate OnlySpaceChanged(t: Tables, t': Tables, space: Id) {
    && t'.tree == t.tree && t'.links == t.links && t'.users == t.users && t'.tenantActive == t.tenantActive
    && (forall m <- t.members :: m in t'.members && t'.members[m] == t.members[m])
    && (forall g <- t.grants :: g in t'.grants && (t.grants[g].space != space ==> t'.grants[g] == t.grants[g]))
  }

  lemma OtherSpacesKeepManager(t: Tables, t': Tables, space: Id, other: Id)
    requires OnlySpaceChanged(t, t', space) && other != space && SomeoneManages(t, other)
    ensures SomeoneManages(t', other)
  {
    var m :| m in t.members && CanManage(t, Ctx(m, t.members[m].user), other);
    var c := Ctx(m, t.members[m].user);
    var g :| g in t.grants && t.grants[g].space == other && t.grants[g].role == MANAGER && Matched(t, c, t.grants[g]);
    assert GroupsOf(t', m) == GroupsOf(t, m);
    assert Matched(t', c, t'.grants[g]);
    assert CanManage(t', c, other);
  }

  lemma OwnGrantManages(t: Tables, m: Id, id: Id, space: Id)
    requires t.tenantActive && Eligible(t, m) && id in t.grants
    requires t.grants[id] == Grant(space, MEMBER, None, Some(m), MANAGER, false)
    ensures SomeoneManages(t, space)
  {
    assert Matched(t, Ctx(m, t.members[m].user), t.grants[id]);
    assert CanManage(t, Ctx(m, t.members[m].user), space);
  }

  lemma TouchedIsManaged(t: Tables, s: Step)
    requires Inv(t) && Touched(s).Some? && Perform(t, s).Ok?
    ensures SomeoneManages(Apply(t, s), Touched(s).value)
  {
    var t' := Apply(t, s);
    var space := Touched(s).value;
    if s.AddMember? {
      var t1 := t.(members := t.members[s.newMember := Member(s.user, s.admin, Active)]);
      NewOwnedSpaceKeepsGrants(t1, space, s.id, s.newMember);
      OwnGrantManages(t', s.newMember, s.id, space);
    } else {
      GrantStepKeepsGrants(t, s);
      if s.CreateSpace? {
        OwnGrantManages(t', s.ctx.member, s.own, space);
      } else if s.Takeover? {
        OwnGrantManages(t', s.ctx.member, s.id, space);
      } else {
        HasManagerIsExactUnderLock(t', s.ctx, space);
      }
    }
  }

  lemma OnlyTouchedChanges(t: Tables, s: Step)
    requires Inv(t) && Touched(s).Some? && Perform(t, s).Ok?
    ensures OnlySpaceChanged(t, Apply(t, s), Touched(s).value)
  {
    if s.AddMember? {
      var t1 := t.(members := t.members[s.newMember := Member(s.user, s.admin, Active)]);
      NewOwnedSpaceKeepsGrants(t1, s.newSpace, s.id, s.newMember);
    } else {
      GrantStepKeepsGrants(t, s);
    }
  }

  /** `create_space`, `put_grant`, `revoke_grant`, `takeover` and `add_member`: when one of them commits, the
      space it is about has somebody who manages it, and no other space loses its managers. */
  lemma GrantOperationsKeepManagers(t: Tables, s: Step, other: Id)
    requires Inv(t) && Touched(s).Some? && Perform(t, s).Ok?
    ensures SomeoneManages(Apply(t, s), Touched(s).value)
    ensures SomeoneManages(t, other) ==> SomeoneManages(Apply(t, s), other)
  {
    TouchedIsManaged(t, s);
    if other != Touched(s).value && SomeoneManages(t, other) {
      OnlyTouchedChanges(t, s);
      OtherSpacesKeepManager(t, Apply(t, s), Touched(s).value, other);
    }
  }

  /** However a transaction ends, it leaves the invariant; one that is about a space never takes the last
      manager of any space, and leaves one on its own space when it commits. */
  lemma OutcomeKeeps(t: Tables, s: Step, error: Option<Error>, t': Tables)
    requires Inv(t) && Outcome(Perform(t, s), error, t, t')
    ensures Inv(t')
    ensures Touched(s).Some? ==>
              && (error.None? ==> SomeoneManages(t', Touched(s).value))
              && forall other: Id :: SomeoneManages(t, other) ==> SomeoneManages(t', other)
  {
    StepKeepsInv(t, s);
    if Touched(s).Some? && error.None? {
      TouchedIsManaged(t, s);
      forall other: Id | SomeoneManages(t, other) ensures SomeoneManages(t', other) {
        GrantOperationsKeepManagers(t, s, other);
      }
    }
  }
}
