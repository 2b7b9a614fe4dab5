/** The operations on grants, members and groups row by row: which rows each writes, who can do what afterwards,
    and which error stops it. Nothing here mentions how an operation is computed. */
module AccessOutcomes {
  import opened Common
  import opened Groups
  import opened Access
  import opened SpaceManagers

  // ---------- Rows and rights ----------

  /** What a lock with or without administrator rights asks of the caller. */
  predicate May(t: Tables, c: Ctx, admin: bool) {
    Acting(t, c) && (admin ==> t.members[c.member].admin)
  }

  /** The subject of the grant exists and is active. */
  predicate Present(t: Tables, g: Grant) {
    && (g.subject == GROUP && g.group.Some? ==> IsActive(t.tree, g.group.value))
    && (g.subject == MEMBER && g.member.Some? ==>
          g.member.value in t.members && t.members[g.member.value].status == Active)
  }

  /** The grant `row` takes the place of `g`. */
  predicate Replaces(row: Grant, g: Grant) {
    g.space == row.space && g.subject == row.subject && g.group == row.group && g.member == row.member
  }

  /** One new row; what it replaces is revoked, and nothing else changes. */
  ghost predicate Written(before: map<Id, Grant>, after: map<Id, Grant>, id: Id, row: Grant) {
    && id !in before && after.Keys == before.Keys + {id} && after[id] == row
    && forall i <- before :: after[i] == before[i].(revoked := before[i].revoked || Replaces(row, before[i]))
  }

  /** The grant reaches the member. */
  predicate Covered(t: Tables, m: Id, g: Grant) {
    Eligible(t, m) && Covers(g, m, Above(t.tree, GroupsOf(t, m)))
  }

  predicate ManagesBy(t: Tables, m: Id, g: Grant, space: Id) {
    !g.revoked && g.role == MANAGER && g.space == space && Covered(t, m, g)
  }

  function CtxOf(t: Tables, m: Id): Ctx
    requires m in t.members
  {
    Ctx(m, t.members[m].user)
  }

  lemma ManagesIff(t: Tables, m: Id, space: Id)
    requires t.tenantActive && m in t.members
    ensures CanManage(t, CtxOf(t, m), space) <==> exists i <- t.grants :: ManagesBy(t, m, t.grants[i], space)
  {
    CanManageIff(t, m, space);
    if CanManage(t, CtxOf(t, m), space) {
      var i :| i in t.grants && t.grants[i].space == space && t.grants[i].role == MANAGER && !t.grants[i].revoked
               && Covers(t.grants[i], m, Above(t.tree, GroupsOf(t, m)));
      assert ManagesBy(t, m, t.grants[i], space);
    }
  }

  lemma SeesIff(t: Tables, m: Id, space: Id)
    requires t.tenantActive && m in t.members
    ensures CanSee(t, CtxOf(t, m), space)
            <==> exists i <- t.grants ::
                   !t.grants[i].revoked && t.grants[i].space == space && Covered(t, m, t.grants[i])
  {
    forall i <- t.grants
      ensures Matched(t, CtxOf(t, m), t.grants[i]) <==> !t.grants[i].revoked && Covered(t, m, t.grants[i])
    {
    }
  }

  /** Only an active member of an active tenant, with an active user of its own, sees or manages anything. */
  lemma OnlyActiveMembersSee(t: Tables, c: Ctx, space: Id)
    requires CanSee(t, c, space) || CanManage(t, c, space)
    ensures t.tenantActive && c.member in t.members && t.members[c.member].status == Active
    ensures t.members[c.member].user == c.user && c.user in t.users && t.users[c.user]
  {
  }

  /** Would the member manage the space once `row` is written? */
  predicate ManagesOnce(t: Tables, m: Id, row: Grant, space: Id) {
    || ManagesBy(t, m, row, space)
    || exists i <- t.grants :: !Replaces(row, t.grants[i]) && ManagesBy(t, m, t.grants[i], space)
  }

  lemma WrittenManages(t: Tables, t': Tables, id: Id, row: Grant, m: Id, space: Id)
    requires t.tenantActive && m in t.members && t' == t.(grants := t'.grants)
    requires Written(t.grants, t'.grants, id, row) && !row.revoked
    ensures CanManage(t', CtxOf(t', m), space) <==> ManagesOnce(t, m, row, space)
  {
    ManagesIff(t', m, space);
    assert GroupsOf(t', m) == GroupsOf(t, m);
    forall g ensures ManagesBy(t', m, g, space) <==> ManagesBy(t, m, g, space) {
    }
    if ManagesOnce(t, m, row, space) {
      if ManagesBy(t, m, row, space) {
        assert ManagesBy(t', m, t'.grants[id], space);
      } else {
        var i :| i in t.grants && !Replaces(row, t.grants[i]) && ManagesBy(t, m, t.grants[i], space);
        assert ManagesBy(t', m, t'.grants[i], space);
      }
    }
    if i :| i in t'.grants && ManagesBy(t', m, t'.grants[i], space) {
      assert i == id || !Replaces(row, t.grants[i]);
    }
  }

  /** Who gains and who loses a space by one written grant. */
  lemma WrittenChanges(t: Tables, t': Tables, id: Id, row: Grant, m: Id, space: Id)
    requires t.tenantActive && m in t.members && t' == t.(grants := t'.grants)
    requires Written(t.grants, t'.grants, id, row) && !row.revoked
    ensures CanManage(t', CtxOf(t', m), space) && !CanManage(t, CtxOf(t, m), space) ==>
              row.role == MANAGER && space == row.space && Covered(t, m, row)
    ensures row.role == MANAGER && space == row.space && Covered(t, m, row) ==> CanManage(t', CtxOf(t', m), space)
    ensures space != row.space || !Covered(t, m, row) ==>
              (CanManage(t', CtxOf(t', m), space) <==> CanManage(t, CtxOf(t, m), space))
    ensures Covered(t, m, row) ==> CanSee(t', CtxOf(t', m), row.space)
  {
    WrittenManages(t, t', id, row, m, space);
    ManagesIff(t, m, space);
    SeesIff(t', m, row.space);
    assert GroupsOf(t', m) == GroupsOf(t, m);
    assert Covered(t, m, row) ==> Covered(t', m, t'.grants[id]);
    forall i <- t.grants | Replaces(row, t.grants[i]) ensures Covered(t, m, t.grants[i]) <==> Covered(t, m, row) {
    }
  }

  /** With a manager's grant nobody loses the space, as whoever the replaced grant reached is reached again. */
  lemma WrittenKeeps(t: Tables, t': Tables, id: Id, row: Grant, m: Id, space: Id)
    requires t.tenantActive && m in t.members && t' == t.(grants := t'.grants)
    requires Written(t.grants, t'.grants, id, row) && !row.revoked && row.role == MANAGER
    ensures CanManage(t, CtxOf(t, m), space) ==> CanManage(t', CtxOf(t', m), space)
  {
    WrittenManages(t, t', id, row, m, space);
    ManagesIff(t, m, space);
    if i :| i in t.grants && ManagesBy(t, m, t.grants[i], space) && Replaces(row, t.grants[i]) {
      assert ManagesBy(t, m, row, space);
    }
  }

  /** The rights of one member on one space after `row` was written. */
  ghost predicate RightsOnce(t: Tables, t': Tables, m: Id, space: Id, row: Grant)
    requires m in t.members && m in t'.members
  {
    var before, after := CanManage(t, CtxOf(t, m), space), CanManage(t', CtxOf(t', m), space);
    if row.role == MANAGER then after <==> before || (space == row.space && Covered(t, m, row))
    else (after ==> before) && (space != row.space || !Covered(t, m, row) ==> (after <==> before))
  }

  /** The rights of everybody after `row` was written: with a manager's grant exactly those it covers gain the
      space and nobody loses any; with another role nobody gains any, and only those it covers may lose the space.
      All it covers see the space. */
  ghost predicate RightsAfter(t: Tables, t': Tables, row: Grant) {
    && t'.members == t.members
    && forall m <- t.members ::
         && (Covered(t, m, row) ==> CanSee(t', CtxOf(t', m), row.space))
         && forall other: Id :: RightsOnce(t, t', m, other, row)
  }

  lemma WrittenRights(t: Tables, t': Tables, id: Id, row: Grant)
    requires t.tenantActive && t' == t.(grants := t'.grants) && Written(t.grants, t'.grants, id, row) && !row.revoked
    ensures RightsAfter(t, t', row)
  {
    forall m <- t.members, other: Id
      ensures RightsOnce(t, t', m, other, row) && (Covered(t, m, row) ==> CanSee(t', CtxOf(t', m), row.space))
    {
      WrittenChanges(t, t', id, row, m, other);
      WrittenChanges(t, t', id, row, m, row.space);
      if row.role == MANAGER {
        WrittenKeeps(t, t', id, row, m, other);
      }
    }
  }

  // ---------- Operations on grants ----------

  lemma WriteGrantMeans(t: Tables, id: Id, space: Id, subject: Subject, role: Role, group: Option<Id>,
                        member: Option<Id>, error: Option<Error>, t': Tables)
    requires Outcome(Access.WriteGrant(t, id, space, subject, role, group, member), error, t, t')
    ensures var row := Grant(space, subject, group, member, role, false);
            && (error == Some(InvalidSubject) <==> !ShapeOk(row))
            && (error == Some(ResourceNotFound) <==> ShapeOk(row) && !Present(t, row))
            && (error == Some(IntegrityError) <==>
                  ShapeOk(row) && Present(t, row) && (id in t.grants || space !in t.spaces))
            && (error.None? <==> ShapeOk(row) && Present(t, row) && id !in t.grants && space in t.spaces)
            && (error.None? ==> t' == t.(grants := t'.grants) && Written(t.grants, t'.grants, id, row))
  {
  }

  /** `put_grant` writes exactly the row it was asked for, in place of the live grant of the same subject. */
  lemma PutGrantMeans(t: Tables, c: Ctx, space: Id, id: Id, subject: Subject, role: Role, group: Option<Id>,
                      member: Option<Id>, error: Option<Error>, t': Tables)
    requires Shapes(t) && Outcome(DoPutGrant(t, c, space, id, subject, role, group, member), error, t, t')
    ensures var row := Grant(space, subject, group, member, role, false);
            var asked := May(t, c, subject == TENANT);
            var seen := asked && space in t.spaces && CanSee(t, c, space);
            var mine := seen && CanManage(t, c, space);
            && (error == Some(TenantContextInvalid) <==> !Acting(t, c))
            && (error == Some(PermissionDenied) <==> Acting(t, c) && (!asked || (seen && !mine)))
            && (error == Some(ResourceNotFound) <==>
                  (asked && !seen) || (mine && ShapeOk(row) && !Present(t, row)))
            && (error == Some(InvalidSubject) <==> mine && !ShapeOk(row))
            && (error == Some(IntegrityError) <==> mine && ShapeOk(row) && Present(t, row) && id in t.grants)
            && (error == Some(LastSpaceManager) <==>
                  mine && ShapeOk(row) && Present(t, row) && id !in t.grants
                  && forall m <- t.members :: !ManagesOnce(t, m, row, space))
            && (error.None? <==>
                  mine && ShapeOk(row) && Present(t, row) && id !in t.grants
                  && exists m <- t.members :: ManagesOnce(t, m, row, space))
            && (error.None? ==> t' == t.(grants := t'.grants) && Written(t.grants, t'.grants, id, row))
  {
    var row := Grant(space, subject, group, member, role, false);
    var r := Access.WriteGrant(t, id, space, subject, role, group, member);
    WriteGrantMeans(t, id, space, subject, role, group, member,
                    if r.Ok? then None else Some(r.error), if r.Ok? then r.value else t);
    if r.Ok? && Acting(t, c) {
      LeavesManager(t, r.value, c, id, row, space);
    }
  }

  lemma LeavesManager(t: Tables, t': Tables, c: Ctx, id: Id, row: Grant, space: Id)
    requires Shapes(t) && Acting(t, c) && ShapeOk(row) && !row.revoked
    requires t' == t.(grants := t'.grants) && Written(t.grants, t'.grants, id, row)
    ensures HasManager(t', space) <==> exists m <- t.members :: ManagesOnce(t, m, row, space)
  {
    assert Shapes(t');
    HasManagerIsExactUnderLock(t', c, space);
    forall m <- t.members {
      WrittenManages(t, t', id, row, m, space);
    }
    if SomeoneManages(t', space) {
      var m :| m in t'.members && CanManage(t', CtxOf(t', m), space);
      assert ManagesOnce(t, m, row, space);
    }
    if m :| m in t.members && ManagesOnce(t, m, row, space) {
      assert CanManage(t', CtxOf(t', m), space);
    }
  }

  /** `revoke_grant` revokes exactly the one grant. */
  lemma RevokeGrantMeans(t: Tables, c: Ctx, space: Id, id: Id, error: Option<Error>, t': Tables)
    requires Outcome(DoRevokeGrant(t, c, space, id), error, t, t')
    ensures var seen := Acting(t, c) && space in t.spaces && CanSee(t, c, space);
            var mine := seen && CanManage(t, c, space);
            var live := id in t.grants && t.grants[id].space == space && !t.grants[id].revoked;
            && (error == Some(TenantContextInvalid) <==> !Acting(t, c))
            && (error == Some(ResourceNotFound) <==> Acting(t, c) && (!seen || (mine && !live)))
            && (error == Some(PermissionDenied) <==>
                  seen && (!mine || (live && t.grants[id].subject == TENANT && !t.members[c.member].admin)))
            && (error.None? || error == Some(LastSpaceManager) <==>
                  mine && live && (t.grants[id].subject == TENANT ==> t.members[c.member].admin))
            && (error.None? ==> t' == t.(grants := t.grants[id := t.grants[id].(revoked := true)]))
  {
  }

  /** Without the grant `id`, would the member manage the space? */
  predicate ManagesWithout(t: Tables, m: Id, id: Id, space: Id) {
    exists i <- t.grants :: i != id && ManagesBy(t, m, t.grants[i], space)
  }

  lemma RevokedManages(t: Tables, t': Tables, id: Id, m: Id, space: Id)
    requires t.tenantActive && m in t.members && id in t.grants
    requires t' == t.(grants := t.grants[id := t.grants[id].(revoked := true)])
    ensures CanManage(t', CtxOf(t', m), space) <==> ManagesWithout(t, m, id, space)
  {
    ManagesIff(t', m, space);
    assert GroupsOf(t', m) == GroupsOf(t, m);
    forall g ensures ManagesBy(t', m, g, space) <==> ManagesBy(t, m, g, space) {
    }
    if i :| i in t.grants && i != id && ManagesBy(t, m, t.grants[i], space) {
      assert ManagesBy(t', m, t'.grants[i], space);
    }
    if i :| i in t'.grants && ManagesBy(t', m, t'.grants[i], space) {
      assert i != id && ManagesBy(t, m, t.grants[i], space);
    }
  }

  /** The last manager's grant is the one that cannot be revoked. */
  lemma RevokeGrantIff(t: Tables, c: Ctx, space: Id, id: Id, error: Option<Error>, t': Tables)
    requires Shapes(t) && Outcome(DoRevokeGrant(t, c, space, id), error, t, t')
    requires error.None? || error == Some(LastSpaceManager)
    ensures error.None? <==> exists m <- t.members :: ManagesWithout(t, m, id, space)
  {
    var t1 := t.(grants := t.grants[id := t.grants[id].(revoked := true)]);
    assert Shapes(t1);
    HasManagerIsExactUnderLock(t1, c, space);
    forall m <- t.members {
      RevokedManages(t, t1, id, m, space);
    }
    if SomeoneManages(t1, space) {
      var m :| m in t1.members && CanManage(t1, CtxOf(t1, m), space);
      assert ManagesWithout(t, m, id, space);
    }
    if m :| m in t.members && ManagesWithout(t, m, id, space) {
      assert CanManage(t1, CtxOf(t1, m), space);
    }
  }

  lemma TakeoverMeans(t: Tables, c: Ctx, space: Id, id: Id, reasonBlank: bool, error: Option<Error>, t': Tables)
    requires Outcome(DoTakeover(t, c, space, id, reasonBlank), error, t, t')
    ensures && (error == Some(TakeoverReasonRequired) <==> reasonBlank)
            && (error == Some(TenantContextInvalid) <==> !reasonBlank && !Acting(t, c))
            && (error == Some(PermissionDenied) <==> !reasonBlank && Acting(t, c) && !May(t, c, true))
            && (error == Some(ResourceNotFound) <==> !reasonBlank && May(t, c, true) && space !in t.spaces)
            && (error == Some(IntegrityError) <==>
                  !reasonBlank && May(t, c, true) && space in t.spaces && id in t.grants)
            && (error.None? <==> !reasonBlank && May(t, c, true) && space in t.spaces && id !in t.grants)
            && (error.None? ==>
                  && t' == t.(grants := t'.grants)
                  && Written(t.grants, t'.grants, id, Grant(space, MEMBER, None, Some(c.member), MANAGER, false)))
  {
  }

  lemma NewOwnedSpaceMeans(t: Tables, space: Id, id: Id, owner: Id, error: Option<Error>, t': Tables)
    requires Outcome(Access.NewOwnedSpace(t, space, id, owner), error, t, t')
    requires owner in t.members && t.members[owner].status == Active
    ensures error.None? || error == Some(IntegrityError)
    ensures error.None? <==> space !in t.spaces && id !in t.grants
    ensures error.None? ==>
              && t' == t.(spaces := t.spaces + {space}, grants := t'.grants)
              && Written(t.grants, t'.grants, id, Grant(space, MEMBER, None, Some(owner), MANAGER, false))
  {
  }

  lemma CreateSpaceErrors(t: Tables, c: Ctx, space: Id, preset: Preset, group: Option<Id>, groupRole: Role, own: Id,
                          shared: Id, error: Option<Error>, t': Tables)
    requires Outcome(DoCreateSpace(t, c, space, preset, group, groupRole, own, shared), error, t, t')
    ensures var asked := May(t, c, preset == Public);
            var mine := asked && space !in t.spaces && own !in t.grants;
            && (error == Some(TenantContextInvalid) <==> !Acting(t, c))
            && (error == Some(PermissionDenied) <==> Acting(t, c) && !asked)
            && (error == Some(InvalidSubject) <==> mine && preset == ForGroup && group.None?)
            && (error == Some(ResourceNotFound) <==>
                  mine && preset == ForGroup && group.Some? && !IsActive(t.tree, group.value))
            && (error.None? <==>
                  && mine && (preset != Private ==> shared != own && shared !in t.grants)
                  && (preset == ForGroup ==> group.Some? && IsActive(t.tree, group.value)))
            && (error.Some? ==>
                  error.value in {TenantContextInvalid, PermissionDenied, InvalidSubject, ResourceNotFound,
                                  IntegrityError})
  {
    if May(t, c, preset == Public) {
      var r := Access.NewOwnedSpace(t, space, own, c.member);
      NewOwnedSpaceMeans(t, space, own, c.member,
                         if r.Ok? then None else Some(r.error), if r.Ok? then r.value else t);
    }
  }

  /** The rows of a space: the owner's grant, and perhaps one more. */
  ghost predicate SpaceRows(t: Tables, t': Tables, space: Id, own: Id, owner: Id, shared: map<Id, Grant>) {
    && t' == t.(spaces := t.spaces + {space}, grants := t'.grants)
    && t'.grants.Keys == t.grants.Keys + {own} + shared.Keys
    && t'.grants[own] == Grant(space, MEMBER, None, Some(owner), MANAGER, false)
    && (forall i <- shared :: t'.grants[i] == shared[i])
    && (forall i <- t.grants :: t.grants[i].space != space ==> t'.grants[i] == t.grants[i])
  }

  lemma SharedRow(t: Tables, t1: Tables, t': Tables, space: Id, own: Id, owner: Id, shared: Id, row: Grant)
    requires SpaceRows(t, t1, space, own, owner, map[]) && own !in t.grants && shared !in t1.grants
    requires row.space == space && row.subject != MEMBER && t' == t1.(grants := t'.grants)
    requires Written(t1.grants, t'.grants, shared, row)
    ensures SpaceRows(t, t', space, own, owner, map[shared := row])
  {
    assert !Replaces(row, t1.grants[own]);
    forall i <- t.grants | t.grants[i].space != space ensures t'.grants[i] == t.grants[i] {
      assert t1.grants[i] == t.grants[i] && !Replaces(row, t1.grants[i]);
    }
  }

  /** A private space is its owner's; a public one can be seen by everybody; a group's space is shared with the
      group in exactly the role that was asked for. */
  lemma CreateSpaceMeans(t: Tables, c: Ctx, space: Id, preset: Preset, group: Option<Id>, groupRole: Role, own: Id,
                         shared: Id, error: Option<Error>, t': Tables)
    requires Outcome(DoCreateSpace(t, c, space, preset, group, groupRole, own, shared), error, t, t') && error.None?
    ensures SpaceRows(t, t', space, own, c.member,
                      match preset
                      case Private => map[]
                      case ForGroup => map[shared := Grant(space, GROUP, group, None, groupRole, false)]
                      case Public => map[shared := Grant(space, TENANT, None, None, VIEWER, false)])
  {
    var t1 := Access.NewOwnedSpace(t, space, own, c.member).value;
    NewOwnedSpaceMeans(t, space, own, c.member, None, t1);
    if preset == ForGroup {
      WriteGrantMeans(t1, shared, space, GROUP, groupRole, group, None, None, t');
      SharedRow(t, t1, t', space, own, c.member, shared, Grant(space, GROUP, group, None, groupRole, false));
    } else if preset == Public {
      WriteGrantMeans(t1, shared, space, TENANT, VIEWER, None, None, None, t');
      SharedRow(t, t1, t', space, own, c.member, shared, Grant(space, TENANT, None, None, VIEWER, false));
    }
  }

  // ---------- Operations on members and groups ----------

  lemma AddMemberMeans(t: Tables, c: Ctx, user: Id, admin: bool, newMember: Id, newSpace: Id, id: Id,
                       error: Option<Error>, t': Tables)
    requires Outcome(DoAddMember(t, c, user, admin, newMember, newSpace, id), error, t, t')
    ensures var may := May(t, c, true);
            var known := may && user in t.users && t.users[user];
            var free := known && forall m <- t.members :: t.members[m].user != user;
            && (error == Some(TenantContextInvalid) <==> !Acting(t, c))
            && (error == Some(PermissionDenied) <==> Acting(t, c) && !may)
            && (error == Some(ResourceNotFound) <==> may && !known)
            && (error == Some(MembershipExists) <==> known && !free)
            && (error == Some(IntegrityError) <==>
                  free && (newMember in t.members || newSpace in t.spaces || id in t.grants))
            && (error.None? <==> free && newMember !in t.members && newSpace !in t.spaces && id !in t.grants)
            && (error.None? ==>
                  && t' == t.(members := t.members[newMember := Member(user, admin, Active)],
                              spaces := t.spaces + {newSpace}, grants := t'.grants)
                  && Written(t.grants, t'.grants, id, Grant(newSpace, MEMBER, None, Some(newMember), MANAGER, false)))
  {
    var t1 := t.(members := t.members[newMember := Member(user, admin, Active)]);
    var r := Access.NewOwnedSpace(t1, newSpace, id, newMember);
    NewOwnedSpaceMeans(t1, newSpace, id, newMember,
                       if r.Ok? then None else Some(r.error), if r.Ok? then r.value else t1);
  }

  lemma UpdateMemberMeans(t: Tables, c: Ctx, target: Id, newAdmin: Option<bool>, newStatus: Option<MemberStatus>,
                          error: Option<Error>, t': Tables)
    requires Outcome(DoUpdateMember(t, c, target, newAdmin, newStatus), error, t, t')
    ensures && (error == Some(TenantContextInvalid) <==> !Acting(t, c))
            && (error == Some(PermissionDenied) <==> Acting(t, c) && !May(t, c, true))
            && (error == Some(ResourceNotFound) <==> May(t, c, true) && target !in t.members)
            && (error.None? || error == Some(LastTenantAdmin) <==> May(t, c, true) && target in t.members)
            && (error.None? ==>
                  && target in t'.members && t' == t.(members := t.members[target := t'.members[target]])
                  && t'.members[target].user == t.members[target].user
                  && t'.members[target].admin == (if newAdmin == None then t.members[target].admin else newAdmin.value)
                  && t'.members[target].status == (if newStatus == None then t.members[target].status
                                                   else newStatus.value))
  {
  }

  /** `save_group`: each check, in its order, and the row that is written. */
  lemma SaveGroupOutcome(t: Tables, c: Ctx, newId: Id, name: Option<string>, parent: Option<Id>, group: Option<Id>,
                         changeParent: bool, archive: bool, error: Option<Error>, t': Tables)
    requires Outcome(DoSaveGroup(t, c, newId, name, parent, group, changeParent, archive), error, t, t')
    ensures var may := May(t, c, true);
            var found := may && (group.Some? ==> IsActive(t.tree, group.value))
                         && (parent.Some? ==> IsActive(t.tree, parent.value));
            var cyclic := group.Some? && changeParent && parent.Some? && Reaches(t.tree, parent.value, group.value);
            var busy := archive && group.Some?
                        && exists x <- t.tree :: t.tree[x].active && t.tree[x].parent == group;
            && (error == Some(TenantContextInvalid) <==> !Acting(t, c))
            && (error == Some(PermissionDenied) <==> Acting(t, c) && !may)
            && (error == Some(Error.Tree(NotFound)) <==> may && !found)
            && (error == Some(Error.Tree(GroupCycle)) <==> found && cyclic)
            && (error == Some(Error.Tree(GroupHasChildren)) <==> found && !cyclic && busy)
            && (error == Some(Error.Tree(Integrity)) <==> found && group.None? && (name.None? || newId in t.tree))
            && (error.None? <==> found && !cyclic && !busy && (group.None? ==> name.Some? && newId !in t.tree))
  {
    if parent.Some? && group.Some? {
      CycleCheckIsReachability(t.tree, parent.value, group.value);
    }
  }

  lemma SavedGroupRow(t: Tables, c: Ctx, newId: Id, name: Option<string>, parent: Option<Id>, group: Option<Id>,
                      changeParent: bool, archive: bool, t': Tables)
    requires DoSaveGroup(t, c, newId, name, parent, group, changeParent, archive) == Ok(t')
    ensures var x := if group.Some? then group.value else newId;
            && x in t'.tree && t' == t.(tree := t.tree[x := t'.tree[x]])
            && t'.tree[x].name == (if name.Some? then name.value else t.tree[x].name)
            && t'.tree[x].parent == (if group.None? || changeParent then parent else t.tree[x].parent)
            && (t'.tree[x].active <==> group.None? || !archive)
  {
  }

  lemma GroupMembersMeans(t: Tables, c: Ctx, g: Id, member: Option<Id>, remove: bool, error: Option<Error>, t': Tables)
    requires Outcome(DoGroupMembers(t, c, g, member, remove), error, t, t')
    ensures var found := May(t, c, true) && IsActive(t.tree, g);
            var active := member.Some? && member.value in t.members && t.members[member.value].status == Active;
            && (error == Some(TenantContextInvalid) <==> !Acting(t, c))
            && (error == Some(PermissionDenied) <==> Acting(t, c) && !May(t, c, true))
            && (error == Some(ResourceNotFound) <==>
                  May(t, c, true) && (!IsActive(t.tree, g) || (member.Some? && !remove && !active)))
            && (error.None? <==> found && (member.Some? && !remove ==> active))
            && (error.None? ==>
                  && t' == t.(links := t'.links)
                  && forall x, m :: (x, m) in t'.links <==>
                       if x == g && member == Some(m) then !remove else (x, m) in t.links)
  {
  }
}
