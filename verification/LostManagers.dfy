/** Histories from registration in which a space loses its last manager. */
module LostManagers {
  import opened Common
  import opened Groups
  import opened Access
  import opened SpaceManagers

  const ADMIN := Ctx(10, 0)

  /** A new organisation, with one more registered user. */
  const FOUNDED := Register(map[1 := true], 0, 10, 20, 21, 30)

  const JOIN := AddMember(ADMIN, 1, false, 11, 22, 40)

  lemma Joined() returns (t: Tables)
    ensures t == Run(FOUNDED, [JOIN]) && Perform(FOUNDED, JOIN) == Ok(t)
    ensures t == FOUNDED.(members := map[10 := Member(0, true, Active), 11 := Member(1, false, Active)],
                          spaces := {20, 21, 22},
                          grants := FOUNDED.grants[40 := Grant(22, MEMBER, None, Some(11), MANAGER, false)])
  {
    t := Apply(FOUNDED, JOIN);
    var added := FOUNDED.(members := FOUNDED.members[11 := Member(1, false, Active)]);
    assert RevokeTarget(added.grants, Grant(22, MEMBER, None, Some(11), MANAGER, false)) == added.grants;
    assert added.members == map[10 := Member(0, true, Active), 11 := Member(1, false, Active)];
  }

  /** In a history from registration: suspending the only manager of a personal space leaves it without one. */
  lemma SuspendingCanOrphanASpace()
    ensures var t := Run(FOUNDED, [JOIN]);
            var s := UpdateMember(ADMIN, 11, None, Some(Suspended));
            Perform(t, s).Ok? && SomeoneManages(t, 22) && !SomeoneManages(Apply(t, s), 22)
  {
    var t := Joined();
    var s := UpdateMember(ADMIN, 11, None, Some(Suspended));
    OwnGrantManages(t, 11, 40, 22);
    assert IsAdmin(t.(members := t.members[11 := Member(1, false, Suspended)]), 10);
    SuspensionKeepsManagerIff(t, s, 22);
    forall m <- t.members | m != 11 ensures !CanManage(t, Ctx(m, t.members[m].user), 22) {
    }
  }

  // ---------- A space managed through a group ----------

  const PARENT := SaveGroup(ADMIN, 51, Some("parent"), None, None, true, false)
  const CHILD := SaveGroup(ADMIN, 50, Some("child"), Some(51), None, true, false)
  const ENTER := GroupMembers(ADMIN, 50, Some(11), false)
  const OPEN := CreateSpace(ADMIN, 23, Private, None, VIEWER, 41, 42)
  const SHARE := PutGrant(ADMIN, 23, 43, GROUP, MANAGER, Some(51), None)
  const LEAVE := RevokeGrant(ADMIN, 23, 41)

  const TREE: Tree := map[51 := Group("parent", None, true), 50 := Group("child", Some(51), true)]

  lemma Placed(t: Tables) returns (t': Tables)
    requires Perform(FOUNDED, JOIN) == Ok(t)
    ensures t' == Run(t, [PARENT, CHILD, ENTER]) && t' == t.(tree := TREE, links := {(50, 11)})
  {
    var _ := Joined();
    var t1 := Apply(t, PARENT);
    assert t1 == t.(tree := map[51 := Group("parent", None, true)]);
    var t2 := Apply(t1, CHILD);
    assert t2 == t.(tree := TREE);
    t' := Apply(t2, ENTER);
    RunThree(t, PARENT, CHILD, ENTER);
  }

  lemma RunThree(t: Tables, a: Step, b: Step, c: Step)
    ensures Run(t, [a, b, c]) == Apply(Apply(Apply(t, a), b), c)
  {
    assert [a, b, c][1..] == [b, c] && [b, c][1..] == [c] && [c][1..] == [];
    assert Run(Apply(t, a), [b, c]) == Run(Apply(Apply(t, a), b), [c]);
  }

  lemma {:induction false} RunAppend(t: Tables, xs: seq<Step>, ys: seq<Step>)
    ensures Run(t, xs + ys) == Run(Run(t, xs), ys)
    decreases |xs|
  {
    if xs == [] {
      assert xs + ys == ys;
    } else {
      assert (xs + ys)[0] == xs[0] && (xs + ys)[1..] == xs[1..] + ys;
      RunAppend(Apply(t, xs[0]), xs[1..], ys);
    }
  }

  lemma Opened(t: Tables) returns (t': Tables)
    requires Acting(t, ADMIN) && 41 !in t.grants && 23 !in t.spaces
             && forall g <- t.grants :: t.grants[g].space in t.spaces
    ensures t' == Apply(t, OPEN)
    ensures t' == t.(spaces := t.spaces + {23},
                     grants := t.grants[41 := Grant(23, MEMBER, None, Some(10), MANAGER, false)])
  {
    t' := Apply(t, OPEN);
    assert RevokeTarget(t.grants, Grant(23, MEMBER, None, Some(10), MANAGER, false)) == t.grants;
  }

  lemma AboveChild(t: Tables)
    requires t.tree == TREE
    ensures Above(t.tree, {50}) == {50, 51} && Above(t.tree, {}) == {}
  {
    var k := Kept(TREE, ActiveIds(TREE));
    assert k == TREE;
    assert Up(TREE, 50, 0) == Some(50);
    assert Up(TREE, 50, 1) == Up(TREE, 51, 0) == Some(51);
    forall h ensures h in Above(TREE, {50}) <==> h in {50, 51} {
      ClosureIsReachability(TREE, ActiveIds(TREE), {50}, h);
      forall n: nat ensures Up(TREE, 50, n) in {Some(50), Some(51), None} {
        assert n > 1 ==> Up(TREE, 50, n) == Up(TREE, 51, n - 1);
      }
    }
  }

  /** The only live manager grant on space 23 is the group's. */
  ghost predicate OnlyThroughGroup(t: Tables) {
    && t.tenantActive && t.tree == TREE && t.links == {(50, 11)} && t.users == map[1 := true, 0 := true]
    && t.members == map[10 := Member(0, true, Active), 11 := Member(1, false, Active)]
    && 43 in t.grants && t.grants[43] == Grant(23, GROUP, Some(51), None, MANAGER, false)
    && forall g <- t.grants :: t.grants[g].space == 23 && !t.grants[g].revoked ==> g == 43
  }

  lemma Shared(t: Tables) returns (t': Tables)
    requires Acting(t, ADMIN) && t.tree == TREE && t.links == {(50, 11)} && Eligible(t, 11) && t.members[11].user == 1
    requires 23 in t.spaces && 41 in t.grants && t.grants[41] == Grant(23, MEMBER, None, Some(10), MANAGER, false)
             && 43 !in t.grants
    requires forall g <- t.grants :: t.grants[g].space == 23 ==> g == 41
    ensures t' == Apply(t, SHARE)
            && t' == t.(grants := t.grants[43 := Grant(23, GROUP, Some(51), None, MANAGER, false)])
  {
    t' := Apply(t, SHARE);
    var row := Grant(23, GROUP, Some(51), None, MANAGER, false);
    assert RevokeTarget(t.grants, row) == t.grants;
    assert Matched(t, ADMIN, t.grants[41]);
    var written := t.(grants := t.grants[43 := row]);
    assert ManagerGrant(written, 23, written.grants[41]);
  }

  lemma Left(t: Tables) returns (t': Tables)
    requires Acting(t, ADMIN) && t.tree == TREE && t.links == {(50, 11)} && Eligible(t, 11)
    requires 23 in t.spaces && 41 in t.grants && t.grants[41] == Grant(23, MEMBER, None, Some(10), MANAGER, false)
    requires 43 in t.grants && t.grants[43] == Grant(23, GROUP, Some(51), None, MANAGER, false)
    ensures t' == Apply(t, LEAVE)
            && t' == t.(grants := t.grants[41 := Grant(23, MEMBER, None, Some(10), MANAGER, true)])
  {
    t' := Apply(t, LEAVE);
    assert Matched(t, ADMIN, t.grants[41]);
    var revoked := t.(grants := t.grants[41 := Grant(23, MEMBER, None, Some(10), MANAGER, true)]);
    AboveChild(revoked);
    assert (set l <- revoked.links | Eligible(revoked, l.1) :: l.0) == {50} by {
      assert (50, 11) in revoked.links;
    }
    assert EligibleGroups(revoked) == Above(revoked.tree, {50});
    assert ManagerGrant(revoked, 23, revoked.grants[43]);
  }

  /** A member joins, a group below another is made and the member enters it; a space is opened, shared with the
      upper group, and left by its owner. */
  lemma SharedWithGroup() returns (steps: seq<Step>)
    ensures OnlyThroughGroup(Run(FOUNDED, steps))
  {
    var t1 := Joined();
    var t2 := Placed(t1);
    var t3 := Opened(t2);
    var t4 := Shared(t3);
    var t5 := Left(t4);
    RunThree(t2, OPEN, SHARE, LEAVE);
    RunAppend(FOUNDED, [JOIN], [PARENT, CHILD, ENTER]);
    RunAppend(FOUNDED, [JOIN] + [PARENT, CHILD, ENTER], [OPEN, SHARE, LEAVE]);
    steps := [JOIN] + [PARENT, CHILD, ENTER] + [OPEN, SHARE, LEAVE];
    assert Run(FOUNDED, steps) == t5;
  }

  lemma GroupManages(t: Tables)
    requires OnlyThroughGroup(t)
    ensures SomeoneManages(t, 23) && GroupsOf(t, 11) == {50} && GroupsOf(t, 10) == {}
  {
    assert (50, 11) in t.links && (50, 11).0 in GroupsOf(t, 11);
    assert GroupsOf(t, 11) == {50} && GroupsOf(t, 10) == {};
    AboveChild(t);
    CanManageIff(t, 11, 23);
    assert Covers(t.grants[43], 11, Above(t.tree, GroupsOf(t, 11)));
  }

  /** Nobody manages the space without the upper group. */
  lemma NobodyWithout(t: Tables, m: Id, groups: set<Id>)
    requires OnlyThroughGroup(t) && 51 !in groups
    ensures !ManagesWith(t, m, groups, 23)
  {
  }

  /** Removing the member from the group, archiving the group, or moving it away from its parent: each is accepted
      after the same history, and each leaves the space without a manager. */
  lemma GroupStepsCanOrphanASpace() returns (steps: seq<Step>)
    ensures var t := Run(FOUNDED, steps);
            && SomeoneManages(t, 23)
            && (forall s <- [GroupMembers(ADMIN, 50, Some(11), true),
                             SaveGroup(ADMIN, 0, None, None, Some(50), false, true),
                             SaveGroup(ADMIN, 0, None, None, Some(50), true, false)] ::
                  Perform(t, s).Ok? && !SomeoneManages(Apply(t, s), 23))
  {
    steps := SharedWithGroup();
    var t := Run(FOUNDED, steps);
    GroupManages(t);
    RemovalOrphans(t);
    ArchiveOrphans(t);
    MoveOrphans(t);
  }

  lemma RemovalOrphans(t: Tables)
    requires OnlyThroughGroup(t)
    ensures var s := GroupMembers(ADMIN, 50, Some(11), true); Perform(t, s).Ok? && !SomeoneManages(Apply(t, s), 23)
  {
    GroupManages(t);
    AboveChild(t);
    RemovalKeepsManagerIff(t, GroupMembers(ADMIN, 50, Some(11), true), 23);
    CanManageIff(t, 10, 23);
    NobodyWithout(t, 10, {});
    NobodyWithout(t, 11, {});
    assert GroupsOf(t, 11) - {50} == {};
  }

  lemma ArchiveOrphans(t: Tables)
    requires OnlyThroughGroup(t)
    ensures var s := SaveGroup(ADMIN, 0, None, None, Some(50), false, true);
            Perform(t, s).Ok? && !SomeoneManages(Apply(t, s), 23)
  {
    GroupManages(t);
    AboveChild(t);
    ArchiveKeepsManagerIff(t, SaveGroup(ADMIN, 0, None, None, Some(50), false, true), 23);
    forall m <- t.members ensures !ManagesFrom(t, m, GroupsOf(t, m) - {50}, 23) {
      assert GroupsOf(t, m) - {50} == {};
      NobodyWithout(t, m, {});
    }
  }

  lemma MoveOrphans(t: Tables)
    requires OnlyThroughGroup(t)
    ensures var s := SaveGroup(ADMIN, 0, None, None, Some(50), true, false);
            Perform(t, s).Ok? && !SomeoneManages(Apply(t, s), 23)
  {
    GroupManages(t);
    MoveKeepsManagerIff(t, SaveGroup(ADMIN, 0, None, None, Some(50), true, false), 23);
    forall m <- t.members ensures 51 !in AboveMoved(t.tree, 50, None, GroupsOf(t, m)) {
      CutOffBelow(GroupsOf(t, m));
    }
    forall m <- t.members {
      NobodyWithout(t, m, AboveMoved(t.tree, 50, None, GroupsOf(t, m)));
    }
  }

  lemma CutOffBelow(seeds: set<Id>)
    requires seeds <= {50}
    ensures 51 !in Above(CutOff(TREE, 50), seeds)
  {
    var cut := CutOff(TREE, 50);
    ClosureIsReachability(cut, ActiveIds(cut), seeds, 51);
    assert forall n: nat :: Up(Kept(cut, ActiveIds(cut)), 50, n) != Some(51);
  }
}
