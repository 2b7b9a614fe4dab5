/** The access service over its mutable tables: each method is one transaction that writes rows step by step
    and, when a check fails, restores what it wrote. Every method ends as the operation of `Access` does, keeps
    the invariant of the tables, and says what a caller may rely on afterwards. */
module AccessStore {
  import opened Common
  import opened Groups
  import opened Access
  import opened SpaceManagers
  import opened AccessOutcomes

  class AccessService {
    var tenantActive: bool
    var users: map<Id, bool>
    var members: map<Id, Member>
    var tree: Tree
    var links: set<(Id, Id)>
    var spaces: set<Id>
    var grants: map<Id, Grant>

    function Snapshot(): Tables
      reads this
    {
      Tables(tenantActive, users, members, tree, links, spaces, grants)
    }

    ghost predicate Valid()
      reads this
    {
      Inv(Snapshot())
    }

    ghost predicate Manages(m: Id, space: Id)
      reads this
    {
      m in members && CanManage(Snapshot(), Ctx(m, members[m].user), space)
    }

    ghost predicate GrantsOk()
      reads this
    {
      Shapes(Snapshot()) && OneLiveGrant(Snapshot())
    }

    /** Grant `id` is live, and the only live one for its target. */
    ghost predicate OnlyLiveGrant(id: Id)
      reads this
    {
      && id in grants && !grants[id].revoked
      && forall i <- grants :: !grants[i].revoked && SameTarget(grants[i], grants[id]) ==> i == id
    }

    ghost predicate Managed(space: Id)
      reads this
    {
      SomeoneManages(Snapshot(), space)
    }

    constructor Register(users: map<Id, bool>, user: Id, member: Id, public: Id, personal: Id, g: nat)
      requires public != personal
      ensures Snapshot() == Access.Register(users, user, member, public, personal, g)
      ensures Valid() && IsAdmin(Snapshot(), member) && Manages(member, public) && Manages(member, personal)
      ensures tenantActive && this.users == users[user := true] && members == map[member := Member(user, true, Active)]
      ensures tree == map[] && links == {} && spaces == {public, personal}
      ensures grants == map[g := Grant(public, MEMBER, None, Some(member), MANAGER, false),
                            g + 1 := Grant(public, TENANT, None, None, VIEWER, false),
                            g + 2 := Grant(personal, MEMBER, None, Some(member), MANAGER, false)]
    {
      this.tenantActive := true;
      this.users := users[user := true];
      this.members := map[member := Member(user, true, Active)];
      this.tree := map[];
      this.links := {};
      this.spaces := {public, personal};
      this.grants := map[g := Grant(public, MEMBER, None, Some(member), MANAGER, false),
                         g + 1 := Grant(public, TENANT, None, None, VIEWER, false),
                         g + 2 := Grant(personal, MEMBER, None, Some(member), MANAGER, false)];
      new;
      HistoriesKeepInv(users, user, member, public, personal, g, []);
      assert Matched(Snapshot(), Ctx(member, user), grants[g]) && Matched(Snapshot(), Ctx(member, user), grants[g + 2]);
    }

    /** `_write_grant`: revoke the live grant of the target, then insert the new row. */
    method WriteGrant(id: Id, space: Id, subject: Subject, role: Role, group: Option<Id>, member: Option<Id>)
      returns (error: Option<Error>)
      modifies `grants
      ensures Outcome(Access.WriteGrant(old(Snapshot()), id, space, subject, role, group, member), error,
                      old(Snapshot()), Snapshot())
      ensures error.None? ==>
                && id in grants && grants[id] == Grant(space, subject, group, member, role, false)
                && Written(old(grants), grants, id, grants[id])
      ensures old(GrantsOk()) ==> GrantsOk() && (error.None? ==> OnlyLiveGrant(id))
    {
      error := SubjectCheck(Snapshot(), subject, group, member);
      if error.Some? {
        return;
      }
      ghost var t := Snapshot();
      var row := Grant(space, subject, group, member, role, false);
      var before := grants;
      grants := RevokeTarget(grants, row);
      if id in grants || space !in spaces {
        grants := before;
        return Some(IntegrityError);
      }
      grants := grants[id := row];
      WriteGrantMeans(t, id, space, subject, role, group, member, None, Snapshot());
      if Shapes(t) && OneLiveGrant(t) {
        WriteGrantKeepsOneLive(t, id, space, subject, role, group, member);
      }
    }

    method NewOwnedSpace(space: Id, id: Id, owner: Id) returns (error: Option<Error>)
      modifies `spaces, `grants
      ensures Outcome(Access.NewOwnedSpace(old(Snapshot()), space, id, owner), error, old(Snapshot()), Snapshot())
    {
      if space in spaces {
        return Some(IntegrityError);
      }
      var before := spaces;
      spaces := spaces + {space};
      error := WriteGrant(id, space, MEMBER, MANAGER, None, Some(owner));
      if error.Some? {
        spaces := before;
      }
    }

    method CreateSpace(c: Ctx, space: Id, preset: Preset, group: Option<Id>, groupRole: Role, own: Id, shared: Id)
      returns (error: Option<Error>)
      requires Valid()
      modifies this
      ensures Outcome(DoCreateSpace(old(Snapshot()), c, space, preset, group, groupRole, own, shared), error,
                      old(Snapshot()), Snapshot())
      ensures Valid() && forall other: Id :: old(Managed(other)) ==> Managed(other)
      ensures error.None? ==> Managed(space) && space !in old(spaces)
      ensures error.None? ==>
                SpaceRows(old(Snapshot()), Snapshot(), space, own, c.member,
                          match preset
                          case Private => map[]
                          case ForGroup => map[shared := Grant(space, GROUP, group, None, groupRole, false)]
                          case Public => map[shared := Grant(space, TENANT, None, None, VIEWER, false)])
    {
      ghost var t := Snapshot();
      error := Lock(Snapshot(), c, preset == Public);
      if error.Some? {
        return;
      }
      var spaces0, grants0 := spaces, grants;
      error := NewOwnedSpace(space, own, c.member);
      ghost var t1, e1 := Snapshot(), error;
      if error.None? && preset == Public {
        error := WriteGrant(shared, space, TENANT, VIEWER, None, None);
      } else if error.None? && preset == ForGroup {
        error := WriteGrant(shared, space, GROUP, groupRole, group, None);
      }
      ghost var t2 := Snapshot();
      if error.Some? {
        spaces, grants := spaces0, grants0;
      }
      Created(t, c, space, preset, group, groupRole, own, shared, t1, t2, e1, error);
      if error.None? {
        CreateSpaceMeans(t, c, space, preset, group, groupRole, own, shared, error, Snapshot());
      }
    }

    method PutGrant(c: Ctx, space: Id, id: Id, subject: Subject, role: Role, group: Option<Id>, member: Option<Id>)
      returns (error: Option<Error>)
      requires Valid()
      modifies this
      ensures Outcome(DoPutGrant(old(Snapshot()), c, space, id, subject, role, group, member), error, old(Snapshot()),
                      Snapshot())
      ensures Valid() && forall other: Id :: old(Managed(other)) ==> Managed(other)
      ensures error.None? ==>
                && Managed(space) && id in grants && grants[id] == Grant(space, subject, group, member, role, false)
                && Written(old(grants), grants, id, grants[id])
      ensures error.None? ==>
                RightsAfter(old(Snapshot()), Snapshot(), Grant(space, subject, group, member, role, false))
    {
      ghost var t := Snapshot();
      error := Lock(Snapshot(), c, subject == TENANT);
      if error.None? {
        error := SpaceCheck(Snapshot(), c, space, false);
      }
      if error.Some? {
        PutGrantRefused(t, c, space, id, subject, role, group, member, error);
        return;
      }
      var before := grants;
      error := WriteGrant(id, space, subject, role, group, member);
      ghost var t1, e1 := Snapshot(), error;
      if error.None? && !HasManager(Snapshot(), space) {
        grants := before;
        error := Some(LastSpaceManager);
      }
      PutGrantEnds(t, c, space, id, subject, role, group, member, t1, e1, error, Snapshot());
    }

    method RevokeGrant(c: Ctx, space: Id, id: Id) returns (error: Option<Error>)
      requires Valid()
      modifies this
      ensures Outcome(DoRevokeGrant(old(Snapshot()), c, space, id), error, old(Snapshot()), Snapshot())
      ensures Valid() && forall other: Id :: old(Managed(other)) ==> Managed(other)
      ensures error.None? ==>
                && Managed(space) && id in old(grants) && !old(grants)[id].revoked && old(grants)[id].space == space
                && grants == old(grants)[id := old(grants)[id].(revoked := true)]
      ensures error.None? ==>
                forall m <- members, other: Id :: Manages(m, other) <==> ManagesWithout(old(Snapshot()), m, id, other)
    {
      ghost var t := Snapshot();
      error := Lock(Snapshot(), c, false);
      if error.None? {
        error := SpaceCheck(Snapshot(), c, space, false);
      }
      if error.Some? {
        return;
      }
      if id !in grants || grants[id].space != space || grants[id].revoked {
        return Some(ResourceNotFound);
      }
      if grants[id].subject == TENANT && !members[c.member].admin {
        return Some(PermissionDenied);
      }
      var before := grants;
      grants := grants[id := grants[id].(revoked := true)];
      if !HasManager(Snapshot(), space) {
        grants := before;
        error := Some(LastSpaceManager);
      }
      OutcomeKeeps(t, Step.RevokeGrant(c, space, id), error, Snapshot());
      if error.None? {
        forall m <- members, other: Id {
          RevokedManages(t, Snapshot(), id, m, other);
        }
      }
    }

    /** Only an administrator's role and the space's existence decide; afterwards the caller manages the space
        and nobody has lost another. */
    method Takeover(c: Ctx, space: Id, id: Id, reasonBlank: bool) returns (error: Option<Error>)
      requires Valid()
      modifies this
      ensures Outcome(DoTakeover(old(Snapshot()), c, space, id, reasonBlank), error, old(Snapshot()), Snapshot())
      ensures Valid() && forall other: Id :: old(Managed(other)) ==> Managed(other)
      ensures error.None? ==>
                && Manages(c.member, space) && id in grants
                && grants[id] == Grant(space, MEMBER, None, Some(c.member), MANAGER, false)
                && Written(old(grants), grants, id, grants[id])
      ensures error.None? <==>
                && !reasonBlank
                && old(tenantActive && IsAdmin(Snapshot(), c.member) && members[c.member].user == c.user)
                && old(space in spaces && id !in grants)
    {
      ghost var t := Snapshot();
      if reasonBlank {
        return Some(TakeoverReasonRequired);
      }
      error := Lock(Snapshot(), c, true);
      if error.None? {
        error := SpaceCheck(Snapshot(), c, space, true);
      }
      if error.None? {
        error := WriteGrant(id, space, MEMBER, MANAGER, None, Some(c.member));
        assert error.None? ==> Matched(Snapshot(), c, grants[id]);
      }
      OutcomeKeeps(t, Step.Takeover(c, space, id, reasonBlank), error, Snapshot());
    }

    method AddMember(c: Ctx, user: Id, admin: bool, newMember: Id, newSpace: Id, id: Id) returns (error: Option<Error>)
      requires Valid()
      modifies this
      ensures Outcome(DoAddMember(old(Snapshot()), c, user, admin, newMember, newSpace, id), error, old(Snapshot()),
                      Snapshot())
      ensures Valid() && forall other: Id :: old(Managed(other)) ==> Managed(other)
      ensures error.None? ==>
                && newMember !in old(members) && Manages(newMember, newSpace)
                && members == old(members)[newMember := Member(user, admin, Active)]
                && spaces == old(spaces) + {newSpace} && id in grants
                && Written(old(grants), grants, id, Grant(newSpace, MEMBER, None, Some(newMember), MANAGER, false))
    {
      ghost var t := Snapshot();
      error := Lock(Snapshot(), c, true);
      if error.Some? {
        return;
      }
      if user !in users || !users[user] {
        return Some(ResourceNotFound);
      }
      if exists m <- members :: members[m].user == user {
        return Some(MembershipExists);
      }
      if newMember in members {
        return Some(IntegrityError);
      }
      var before := members;
      members := members[newMember := Member(user, admin, Active)];
      error := NewOwnedSpace(newSpace, id, newMember);
      if error.Some? {
        members := before;
      }
      AddMemberKeeps(t, c, user, admin, newMember, newSpace, id, error, Snapshot());
    }

    /** Refused for the last administrator exactly when every administrator is the member that stops being one. */
    method UpdateMember(c: Ctx, target: Id, newAdmin: Option<bool>, newStatus: Option<MemberStatus>)
      returns (error: Option<Error>)
      requires Valid()
      modifies this
      ensures Outcome(DoUpdateMember(old(Snapshot()), c, target, newAdmin, newStatus), error, old(Snapshot()),
                      Snapshot())
      ensures Valid() && SomeAdmin(Snapshot())
      ensures error.None? ==> target in old(members) && target in members
      ensures error.None? ==>
                var row := old(members)[target];
                members == old(members)[target := Member(row.user,
                                                         if newAdmin.Some? then newAdmin.value else row.admin,
                                                         if newStatus.Some? then newStatus.value else row.status)]
      ensures error == Some(LastTenantAdmin) <==>
                && old(Lock(Snapshot(), c, true).None? && target in members)
                && (newAdmin == Some(false) || (newStatus.Some? && newStatus != Some(Active)))
                && (forall m: Id :: old(IsAdmin(Snapshot(), m)) ==> m == target)
    {
      ghost var t := Snapshot();
      error := Lock(Snapshot(), c, true);
      if error.Some? {
        return;
      }
      if target !in members {
        return Some(ResourceNotFound);
      }
      var before, row := members, members[target];
      if newAdmin.Some? {
        row := row.(admin := newAdmin.value);
      }
      if newStatus.Some? {
        row := row.(status := newStatus.value);
      }
      members := members[target := row];
      AdminsAfterUpdate(t, Snapshot(), target);
      if !SomeAdmin(Snapshot()) {
        members := before;
        error := Some(LastTenantAdmin);
      }
      OutcomeKeeps(t, Step.UpdateMember(c, target, newAdmin, newStatus), error, Snapshot());
    }

    /** The tree stays a tree; archived groups are out of reach; a refused move would have closed a cycle; a
        moved group has the new parent's ancestors; an archived one takes only itself out of every closure. */
    method SaveGroup(c: Ctx, newId: Id, name: Option<string>, parent: Option<Id>, group: Option<Id>,
                     changeParent: bool, archive: bool) returns (error: Option<Error>)
      requires Valid()
      modifies this
      ensures Outcome(DoSaveGroup(old(Snapshot()), c, newId, name, parent, group, changeParent, archive), error,
                      old(Snapshot()), Snapshot())
      ensures Valid() && forall g <- old(tree) :: g in tree && (old(tree[g].active) || tree[g] == old(tree[g]))
      ensures error.None? ==>
                var x := if group.Some? then group.value else newId;
                && x in tree && tree == old(tree)[x := tree[x]] && (tree[x].active <==> group.None? || !archive)
                && (name.Some? ==> tree[x].name == name.value)
                && (group.None? || changeParent ==> tree[x].parent == parent)
                && (group.Some? && !changeParent ==> x in old(tree) && tree[x].parent == old(tree)[x].parent)
      ensures error == Some(Error.Tree(GroupCycle)) ==>
                && group.Some? && parent.Some? && IsActive(tree, group.value)
                && !Acyclic(tree[group.value := tree[group.value].(parent := parent)])
      ensures error.None? && group.Some? && changeParent && parent.Some? && !archive ==>
                Above(tree, {group.value}) == {group.value} + Above(old(tree), {parent.value})
      ensures error.None? && group.Some? && archive ==>
                forall seeds: set<Id> :: Above(tree, seeds) == Above(old(tree), seeds - {group.value})
    {
      ghost var t := Snapshot();
      error := Lock(Snapshot(), c, true);
      if error.Some? {
        return;
      }
      if group.Some? && !IsActive(tree, group.value) {
        return Some(Error.Tree(NotFound));
      }
      if parent.Some? && !IsActive(tree, parent.value) {
        return Some(Error.Tree(NotFound));
      }
      if group.Some? && changeParent && parent.Some? {
        var inAncestors := CycleCheck(tree, parent.value, group.value);
        if inAncestors {
          CycleRefusedIffItWouldClose(tree, newId, name, parent.value, group.value, archive);
          return Some(Error.Tree(GroupCycle));
        }
      }
      if archive && group.Some? && HasActiveChild(tree, group.value) {
        return Some(Error.Tree(GroupHasChildren));
      }
      if group.Some? {
        var row := tree[group.value].(active := !archive);
        if name.Some? {
          row := row.(name := name.value);
        }
        if changeParent {
          row := row.(parent := parent);
        }
        tree := tree[group.value := row];
      } else {
        if name.None? || newId in tree {
          return Some(Error.Tree(Integrity));
        }
        tree := tree[newId := Group(name.value, parent, true)];
      }
      SavedGroupRow(t, c, newId, name, parent, group, changeParent, archive, Snapshot());
      SaveGroupKeeps(t, c, newId, name, parent, group, changeParent, archive, Snapshot());
    }

    /** A member that joins gains exactly the spaces the group's closure manages; one that leaves keeps exactly
        those its other groups and its own grants give; nobody else's change. */
    method GroupMembers(c: Ctx, g: Id, member: Option<Id>, remove: bool) returns (error: Option<Error>)
      requires Valid()
      modifies this
      ensures Outcome(DoGroupMembers(old(Snapshot()), c, g, member, remove), error, old(Snapshot()), Snapshot())
      ensures Valid()
      ensures error.None? && member.Some? && !remove ==> links == old(links) + {(g, member.value)}
      ensures error.None? && member.Some? && remove ==> links == old(links) - {(g, member.value)}
      ensures error.None? && member.None? ==> links == old(links)
      ensures error.None? && member.Some? && !remove ==>
                forall m: Id, space: Id :: Manages(m, space) <==>
                  || old(Manages(m, space))
                  || (m == member.value && ManagesFrom(old(Snapshot()), m, {g}, space))
      ensures error.None? && member.Some? && remove ==>
                forall m <- members, space: Id :: Manages(m, space) <==>
                  if m == member.value then ManagesFrom(old(Snapshot()), m, GroupsOf(old(Snapshot()), m) - {g}, space)
                  else old(Manages(m, space))
    {
      ghost var t := Snapshot();
      error := Lock(Snapshot(), c, true);
      if error.Some? {
        return;
      }
      if !IsActive(tree, g) {
        return Some(ResourceNotFound);
      }
      ghost var s := Step.GroupMembers(c, g, member, remove);
      if member.Some? {
        if remove {
          links := links - {(g, member.value)};
          forall m <- members, space { LeavingKeepsTheOthers(t, s, m, space); }
        } else {
          error := SubjectCheck(Snapshot(), MEMBER, None, member);
          if error.None? {
            links := links + {(g, member.value)};
            forall m <- members, space { JoiningAddsTheGroup(t, s, m, space); }
          }
        }
      }
      OutcomeKeeps(t, s, error, Snapshot());
    }
  }

  /** Whether an administrator remains, from the one row that was written. */
  lemma AdminsAfterUpdate(t: Tables, t': Tables, target: Id)
    requires SomeAdmin(t) && target in t.members && target in t'.members
    requires t' == t.(members := t.members[target := t'.members[target]])
             && t'.members[target].user == t.members[target].user
    ensures SomeAdmin(t') <==> IsAdmin(t', target) || exists m: Id :: m != target && IsAdmin(t, m)
  {
    if m :| m != target && IsAdmin(t, m) {
      assert IsAdmin(t', m);
    }
    if m :| m in t'.members && IsAdmin(t', m) {
      assert m != target ==> IsAdmin(t, m);
    }
  }

  /** The end of `create_space` from the ends of its two writes. */
  lemma Created(t: Tables, c: Ctx, space: Id, preset: Preset, group: Option<Id>, groupRole: Role, own: Id, shared: Id,
                t1: Tables, t2: Tables, e1: Option<Error>, error: Option<Error>)
    requires Inv(t) && Lock(t, c, preset == Public).None?
    requires Outcome(Access.NewOwnedSpace(t, space, own, c.member), e1, t, t1)
    requires e1.Some? || preset == Private ==> error == e1 && t2 == t1
    requires e1.None? && preset == Public ==>
               Outcome(Access.WriteGrant(t1, shared, space, TENANT, VIEWER, None, None), error, t1, t2)
    requires e1.None? && preset == ForGroup ==>
               Outcome(Access.WriteGrant(t1, shared, space, GROUP, groupRole, group, None), error, t1, t2)
    ensures var t' := if error.None? then t2 else t;
            && Outcome(DoCreateSpace(t, c, space, preset, group, groupRole, own, shared), error, t, t') && Inv(t')
            && (error.None? ==> SomeoneManages(t', space))
            && forall other: Id :: SomeoneManages(t, other) ==> SomeoneManages(t', other)
  {
    var t' := if error.None? then t2 else t;
    OutcomeKeeps(t, Step.CreateSpace(c, space, preset, group, groupRole, own, shared), error, t');
  }

  lemma PutGrantRefused(t: Tables, c: Ctx, space: Id, id: Id, subject: Subject, role: Role, group: Option<Id>,
                        member: Option<Id>, error: Option<Error>)
    requires var bad := Lock(t, c, subject == TENANT);
             error.Some? && error == if bad.Some? then bad else SpaceCheck(t, c, space, false)
    ensures Outcome(DoPutGrant(t, c, space, id, subject, role, group, member), error, t, t)
  {
  }

  /** The end of `put_grant` from the end of its write and the check that follows. */
  lemma PutGrantEnds(t: Tables, c: Ctx, space: Id, id: Id, subject: Subject, role: Role, group: Option<Id>,
                     member: Option<Id>, t1: Tables, e1: Option<Error>, error: Option<Error>, t': Tables)
    requires Inv(t) && Lock(t, c, subject == TENANT).None? && SpaceCheck(t, c, space, false).None?
    requires Outcome(Access.WriteGrant(t, id, space, subject, role, group, member), e1, t, t1)
    requires e1.Some? ==> error == e1
    requires e1.None? ==> error == if HasManager(t1, space) then None else Some(LastSpaceManager)
    requires t' == if error.None? then t1 else t
    ensures Outcome(DoPutGrant(t, c, space, id, subject, role, group, member), error, t, t') && Inv(t')
    ensures forall other: Id :: SomeoneManages(t, other) ==> SomeoneManages(t', other)
    ensures var row := Grant(space, subject, group, member, role, false);
            error.None? ==>
              SomeoneManages(t', space) && Written(t.grants, t'.grants, id, row) && RightsAfter(t, t', row)
  {
    PutGrantKeeps(t, c, space, id, subject, role, group, member, error, t');
  }

  lemma PutGrantKeeps(t: Tables, c: Ctx, space: Id, id: Id, subject: Subject, role: Role, group: Option<Id>,
                      member: Option<Id>, error: Option<Error>, t': Tables)
    requires Inv(t) && Outcome(DoPutGrant(t, c, space, id, subject, role, group, member), error, t, t')
    ensures Inv(t') && (error.None? ==> SomeoneManages(t', space))
    ensures forall other: Id :: SomeoneManages(t, other) ==> SomeoneManages(t', other)
    ensures var row := Grant(space, subject, group, member, role, false);
            error.None? ==> Written(t.grants, t'.grants, id, row) && RightsAfter(t, t', row)
  {
    OutcomeKeeps(t, Step.PutGrant(c, space, id, subject, role, group, member), error, t');
    PutGrantMeans(t, c, space, id, subject, role, group, member, error, t');
    if error.None? {
      WrittenRights(t, t', id, Grant(space, subject, group, member, role, false));
    }
  }

  lemma AddMemberKeeps(t: Tables, c: Ctx, user: Id, admin: bool, newMember: Id, newSpace: Id, id: Id,
                       error: Option<Error>, t': Tables)
    requires Inv(t) && Outcome(DoAddMember(t, c, user, admin, newMember, newSpace, id), error, t, t')
    ensures Inv(t') && forall other: Id :: SomeoneManages(t, other) ==> SomeoneManages(t', other)
    ensures error.None? ==>
              && newMember !in t.members && t'.members == t.members[newMember := Member(user, admin, Active)]
              && t'.spaces == t.spaces + {newSpace} && CanManage(t', Ctx(newMember, user), newSpace)
              && Written(t.grants, t'.grants, id, Grant(newSpace, MEMBER, None, Some(newMember), MANAGER, false))
  {
    OutcomeKeeps(t, Step.AddMember(c, user, admin, newMember, newSpace, id), error, t');
    AddMemberMeans(t, c, user, admin, newMember, newSpace, id, error, t');
    assert error.None? ==> Matched(t', Ctx(newMember, user), t'.grants[id]);
  }

  lemma SaveGroupKeeps(t: Tables, c: Ctx, newId: Id, name: Option<string>, parent: Option<Id>, group: Option<Id>,
                       changeParent: bool, archive: bool, t': Tables)
    requires Inv(t) && DoSaveGroup(t, c, newId, name, parent, group, changeParent, archive) == Ok(t')
    ensures Inv(t')
    ensures group.Some? && changeParent && parent.Some? && !archive ==>
              Above(t'.tree, {group.value}) == {group.value} + Above(t.tree, {parent.value})
    ensures group.Some? && archive ==>
              forall seeds: set<Id> :: Above(t'.tree, seeds) == Above(t.tree, seeds - {group.value})
  {
    OutcomeKeeps(t, Step.SaveGroup(c, newId, name, parent, group, changeParent, archive), None, t');
    if group.Some? && archive {
      forall seeds {
        LeafClosure(t.tree, t'.tree, group.value, seeds);
      }
    } else if group.Some? && changeParent && parent.Some? {
      MovedAncestors(t.tree, newId, name, parent.value, group.value);
    }
  }
}
