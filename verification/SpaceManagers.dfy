/** The operations that do not re-check that a space keeps a manager, and exactly when they leave one. */
module SpaceManagers {
  import opened Common
  import opened Groups
  import opened Access

  /** Would member `m` manage the space, were `groups` the groups whose grants reach it? */
  predicate ManagesWith(t: Tables, m: Id, groups: set<Id>, space: Id) {
    && t.tenantActive && Eligible(t, m)
    && exists g <- t.grants ::
         && t.grants[g].space == space && t.grants[g].role == MANAGER && !t.grants[g].revoked
         && Covers(t.grants[g], m, groups)
  }

  function Above(t: Tree, seeds: set<Id>): set<Id> {
    Closure(t, ActiveIds(t), seeds)
  }

  /** Would member `m` manage the space, were `seeds` the groups it belongs to? */
  predicate ManagesFrom(t: Tables, m: Id, seeds: set<Id>, space: Id) {
    ManagesWith(t, m, Above(t.tree, seeds), space)
  }

  predicate Covers(g: Grant, m: Id, groups: set<Id>) {
    g.subject == TENANT || (g.subject == MEMBER && g.member == Some(m))
    || (g.subject == GROUP && g.group.Some? && g.group.value in groups)
  }

  lemma CanManageIff(t: Tables, m: Id, space: Id)
    requires m in t.members
    ensures CanManage(t, Ctx(m, t.members[m].user), space) <==> ManagesFrom(t, m, GroupsOf(t, m), space)
  {
    var c := Ctx(m, t.members[m].user);
    if CanManage(t, c, space) {
      var g :| g in t.grants && t.grants[g].space == space && t.grants[g].role == MANAGER && Matched(t, c, t.grants[g]);
      assert Covers(t.grants[g], m, Above(t.tree, GroupsOf(t, m)));
    }
    if ManagesFrom(t, m, GroupsOf(t, m), space) {
      var g :| g in t.grants && t.grants[g].space == space && t.grants[g].role == MANAGER && !t.grants[g].revoked
               && Covers(t.grants[g], m, Above(t.tree, GroupsOf(t, m)));
      assert Matched(t, c, t.grants[g]);
    }
  }

  /** Tables that differ in links and groups, with the groups above each member in the second. */
  lemma SomeoneManagesIff(t: Tables, t': Tables, above: map<Id, set<Id>>, space: Id)
    requires t' == t.(links := t'.links, tree := t'.tree) && above.Keys == t.members.Keys
    requires forall m <- t.members :: Above(t'.tree, GroupsOf(t', m)) == above[m]
    ensures SomeoneManages(t', space) <==> exists m <- t.members :: ManagesWith(t, m, above[m], space)
  {
    forall m <- t.members {
      CanManageIff(t', m, space);
    }
  }

  /** `update_member` to a status other than active keeps a manager of the space exactly when somebody else
      manages it. */
  lemma SuspensionKeepsManagerIff(t: Tables, s: Step, space: Id)
    requires s.UpdateMember? && Perform(t, s).Ok? && s.newStatus.Some? && s.newStatus.value != Active
    ensures SomeoneManages(Apply(t, s), space)
            <==> exists m <- t.members :: m != s.target && CanManage(t, Ctx(m, t.members[m].user), space)
  {
    var t' := Apply(t, s);
    forall m <- t.members ensures CanManage(t', Ctx(m, t'.members[m].user), space)
                                  <==> m != s.target && CanManage(t, Ctx(m, t.members[m].user), space) {
      CanManageIff(t, m, space);
      CanManageIff(t', m, space);
      assert GroupsOf(t', m) == GroupsOf(t, m);
      assert m != s.target ==> (Eligible(t', m) <==> Eligible(t, m));
      assert !Eligible(t', s.target);
    }
  }

  /** Removing a member from a group keeps a manager exactly when somebody else manages the space now, or the
      member would without the link. */
  lemma RemovalKeepsManagerIff(t: Tables, s: Step, space: Id)
    requires s.GroupMembers? && s.remove && s.member.Some? && Perform(t, s).Ok?
    ensures SomeoneManages(Apply(t, s), space)
            <==> || (exists m <- t.members :: m != s.member.value && CanManage(t, Ctx(m, t.members[m].user), space))
                 || (s.member.value in t.members
                     && ManagesFrom(t, s.member.value, GroupsOf(t, s.member.value) - {s.ofGroup}, space))
  {
    var t' := Apply(t, s);
    var x := s.member.value;
    var above := map m <- t.members :: Above(t.tree, GroupsOf(t, m) - (if m == x then {s.ofGroup} else {}));
    forall m <- t.members ensures Above(t'.tree, GroupsOf(t', m)) == above[m] {
      LinkRemoved(t, t', s.ofGroup, x, m);
    }
    SomeoneManagesIff(t, t', above, space);
    forall m <- t.members | m != x
      ensures CanManage(t, Ctx(m, t.members[m].user), space) <==> ManagesWith(t, m, above[m], space)
    {
      CanManageIff(t, m, space);
      assert GroupsOf(t, m) - {} == GroupsOf(t, m);
    }
  }

  lemma LinkRemoved(t: Tables, t': Tables, g: Id, x: Id, m: Id)
    requires t'.links == t.links - {(g, x)}
    ensures GroupsOf(t', m) == GroupsOf(t, m) - (if m == x then {g} else {})
  {
    forall h ensures h in GroupsOf(t, m) <==> (h, m) in t.links {
      assert (h, m) in t.links ==> (h, m).0 in GroupsOf(t, m);
    }
    forall h ensures h in GroupsOf(t', m) <==> (h, m) in t'.links {
      assert (h, m) in t'.links ==> (h, m).0 in GroupsOf(t', m);
    }
  }

  lemma AboveOfUnion(t: Tree, a: set<Id>, b: set<Id>)
    ensures Above(t, a + b) == Above(t, a) + Above(t, b)
  {
    forall h ensures h in Above(t, a + b) <==> h in Above(t, a) + Above(t, b) {
      ClosureOfUnion(t, ActiveIds(t), {a, b}, a + b, h);
    }
  }

  /** Putting a member into a group gives it exactly the spaces that the group and the groups above it manage,
      on top of its own, and changes nobody else's. */
  lemma JoiningAddsTheGroup(t: Tables, s: Step, m: Id, space: Id)
    requires s.GroupMembers? && !s.remove && s.member.Some? && Perform(t, s).Ok? && m in t.members
    ensures CanManage(Apply(t, s), Ctx(m, t.members[m].user), space)
            <==> || CanManage(t, Ctx(m, t.members[m].user), space)
                 || (m == s.member.value && ManagesFrom(t, m, {s.ofGroup}, space))
  {
    var t' := Apply(t, s);
    CanManageIff(t, m, space);
    CanManageIff(t', m, space);
    var joined := if m == s.member.value then {s.ofGroup} else {};
    forall h ensures h in GroupsOf(t', m) <==> h in GroupsOf(t, m) + joined {
      assert (h, m) in t.links ==> (h, m).0 in GroupsOf(t, m);
      assert (h, m) in t'.links ==> (h, m).0 in GroupsOf(t', m);
    }
    assert GroupsOf(t', m) == GroupsOf(t, m) + joined;
    if m == s.member.value {
      AboveOfUnion(t.tree, GroupsOf(t, m), joined);
    } else {
      assert GroupsOf(t', m) == GroupsOf(t, m);
    }
  }

  /** Taking a member out of a group leaves it what its other groups give, and changes nobody else's spaces. */
  lemma LeavingKeepsTheOthers(t: Tables, s: Step, m: Id, space: Id)
    requires s.GroupMembers? && s.remove && s.member.Some? && Perform(t, s).Ok? && m in t.members
    ensures CanManage(Apply(t, s), Ctx(m, t.members[m].user), space)
            <==> if m == s.member.value then ManagesFrom(t, m, GroupsOf(t, m) - {s.ofGroup}, space)
                 else CanManage(t, Ctx(m, t.members[m].user), space)
  {
    var t' := Apply(t, s);
    CanManageIff(t, m, space);
    CanManageIff(t', m, space);
    LinkRemoved(t, t', s.ofGroup, s.member.value, m);
    assert m != s.member.value ==> GroupsOf(t', m) == GroupsOf(t, m);
  }

  /** Archiving a group keeps a manager exactly when somebody manages the space without belonging to it. */
  lemma ArchiveKeepsManagerIff(t: Tables, s: Step, space: Id)
    requires s.SaveGroup? && s.archive && s.group.Some? && Perform(t, s).Ok?
    ensures SomeoneManages(Apply(t, s), space)
            <==> exists m <- t.members :: ManagesFrom(t, m, GroupsOf(t, m) - {s.group.value}, space)
  {
    var t' := Apply(t, s);
    var above := map m <- t.members :: Above(t.tree, GroupsOf(t, m) - {s.group.value});
    forall m <- t.members ensures Above(t'.tree, GroupsOf(t', m)) == above[m] {
      assert GroupsOf(t', m) == GroupsOf(t, m);
      LeafClosure(t.tree, t'.tree, s.group.value, GroupsOf(t, m));
    }
    SomeoneManagesIff(t, t', above, space);
  }

  lemma {:induction false} WalkAvoids(t: Tree, t': Tree, g: Id, x: Id, n: nat)
    requires DiffersOnlyAt(t, t', g) && g in t && !t'[g].active && !HasActiveChild(t, g) && x != g
    ensures Up(Kept(t', ActiveIds(t')), x, n) == Up(Kept(t, ActiveIds(t)), x, n)
    decreases n
  {
    if n > 0 && IsActive(t, x) && t[x].parent.Some? {
      WalkAvoids(t, t', g, t[x].parent.value, n - 1);
    }
  }

  /** An archived group without active children takes exactly itself, as a starting point, out of a closure. */
  lemma LeafClosure(t: Tree, t': Tree, g: Id, seeds: set<Id>)
    requires DiffersOnlyAt(t, t', g) && g in t && !t'[g].active && !HasActiveChild(t, g)
    ensures Above(t', seeds) == Above(t, seeds - {g})
  {
    var k, k' := Kept(t, ActiveIds(t)), Kept(t', ActiveIds(t'));
    forall h ensures h in Above(t', seeds) <==> h in Above(t, seeds - {g}) {
      ClosureIsReachability(t', ActiveIds(t'), seeds, h);
      ClosureIsReachability(t, ActiveIds(t), seeds - {g}, h);
      forall x <- seeds ensures Reaches(k', x, h) <==> x != g && Reaches(k, x, h) {
        if x == g {
          assert forall n: nat :: Up(k', g, n).None?;
        } else {
          forall n: nat {
            WalkAvoids(t, t', g, x, n);
          }
        }
      }
    }
  }

  // ---------- Moving a group ----------

  /** The tree with group `g` cut off from its parent. */
  function CutOff(t: Tree, g: Id): Tree
    requires g in t
  {
    t[g := t[g].(parent := None)]
  }

  /** The groups above `seeds` once `g` hangs below `parent`, computed on the tree before the move. */
  function AboveMoved(t: Tree, g: Id, parent: Option<Id>, seeds: set<Id>): set<Id>
    requires g in t
  {
    var below := Above(CutOff(t, g), seeds);
    if g in below && parent.Some? then below + Above(CutOff(t, g), {parent.value}) else below
  }

  lemma {:induction false} CutWalks(t: Tree, t': Tree, g: Id, x: Id, n: nat)
    requires g in t && DiffersOnlyAt(t, t', g) && (t'[g].active <==> t[g].active)
    requires Up(Kept(CutOff(t, g), ActiveIds(CutOff(t, g))), x, n).Some?
    ensures Up(Kept(t', ActiveIds(t')), x, n) == Up(Kept(CutOff(t, g), ActiveIds(CutOff(t, g))), x, n)
    decreases n
  {
    if n > 0 {
      assert x != g;
      CutWalks(t, t', g, t[x].parent.value, n - 1);
    }
  }

  /** A walk in the moved tree stays in the cut tree, or passes `g` and goes on from the new parent. */
  lemma {:induction false} MovedWalks(t: Tree, t': Tree, g: Id, x: Id, n: nat, h: Id)
    requires g in t && DiffersOnlyAt(t, t', g) && (t'[g].active <==> t[g].active)
    requires Up(Kept(t', ActiveIds(t')), x, n) == Some(h)
    ensures var cut := Kept(CutOff(t, g), ActiveIds(CutOff(t, g)));
            Reaches(cut, x, h) || (t'[g].parent.Some? && Reaches(cut, x, g) && Reaches(cut, t'[g].parent.value, h))
    decreases n
  {
    var cut, moved := Kept(CutOff(t, g), ActiveIds(CutOff(t, g))), Kept(t', ActiveIds(t'));
    assert x in cut;
    if n == 0 {
      assert Up(cut, x, 0) == Some(x);
    } else {
      var p := t'[x].parent.value;
      MovedWalks(t, t', g, p, n - 1, h);
      if x == g {
        assert Up(cut, g, 0) == Some(g);
      } else {
        StepUp(cut, x, p);
      }
    }
  }

  lemma StepUp(t: Tree, x: Id, p: Id)
    requires x in t && t[x].parent == Some(p)
    ensures forall h: Id :: Reaches(t, p, h) ==> Reaches(t, x, h)
  {
    forall h: Id | Reaches(t, p, h) ensures Reaches(t, x, h) {
      var n: nat :| Up(t, p, n) == Some(h);
      assert Up(t, x, n + 1) == Some(h);
    }
  }

  lemma {:induction false} UpIsKnown(t: Tree, x: Id, n: nat)
    ensures Up(t, x, n).Some? ==> Up(t, x, n).value in t
    decreases n
  {
    if n > 0 && x in t && t[x].parent.Some? {
      UpIsKnown(t, t[x].parent.value, n - 1);
    }
  }

  lemma MovedReach(t: Tree, t': Tree, g: Id, x: Id, h: Id)
    requires g in t && DiffersOnlyAt(t, t', g) && (t'[g].active <==> t[g].active)
    ensures var cut := Kept(CutOff(t, g), ActiveIds(CutOff(t, g)));
            Reaches(Kept(t', ActiveIds(t')), x, h) <==>
              || Reaches(cut, x, h)
              || (t'[g].parent.Some? && Reaches(cut, x, g) && Reaches(cut, t'[g].parent.value, h))
  {
    var cut, moved := Kept(CutOff(t, g), ActiveIds(CutOff(t, g))), Kept(t', ActiveIds(t'));
    if Reaches(moved, x, h) {
      var n: nat :| Up(moved, x, n) == Some(h);
      MovedWalks(t, t', g, x, n, h);
    }
    forall y: Id, z: Id | Reaches(cut, y, z) ensures Reaches(moved, y, z) {
      var n: nat :| Up(cut, y, n) == Some(z);
      CutWalks(t, t', g, y, n);
    }
    if t'[g].parent.Some? && Reaches(cut, x, g) && Reaches(cut, t'[g].parent.value, h) {
      var p := t'[g].parent.value;
      var n: nat :| Up(cut, x, n) == Some(g);
      UpIsKnown(cut, x, n);
      StepUp(moved, g, p);
      ReachesTrans(moved, x, g, h);
    }
  }

  lemma MovedClosure(t: Tree, t': Tree, g: Id, seeds: set<Id>)
    requires g in t && DiffersOnlyAt(t, t', g) && (t'[g].active <==> t[g].active)
    ensures Above(t', seeds) == AboveMoved(t, g, t'[g].parent, seeds)
  {
    var c := CutOff(t, g);
    ClosureIsReachability(c, ActiveIds(c), seeds, g);
    forall h ensures h in Above(t', seeds) <==> h in AboveMoved(t, g, t'[g].parent, seeds) {
      ClosureIsReachability(t', ActiveIds(t'), seeds, h);
      ClosureIsReachability(c, ActiveIds(c), seeds, h);
      if t'[g].parent.Some? {
        ClosureIsReachability(c, ActiveIds(c), {t'[g].parent.value}, h);
      }
      forall x <- seeds {
        MovedReach(t, t', g, x, h);
      }
    }
  }

  lemma {:induction false} WalkMisses(t: Tree, t': Tree, g: Id, x: Id, n: nat)
    requires DiffersOnlyAt(t, t', g) && g in t && !Reaches(t, x, g)
    ensures Up(t', x, n) == Up(t, x, n)
    decreases n
  {
    assert x in t ==> Up(t, x, 0) == Some(x);
    if n > 0 && x in t && t[x].parent.Some? {
      var p := t[x].parent.value;
      StepUp(t, x, p);
      WalkMisses(t, t', g, p, n - 1);
    }
  }

  /** After an accepted move, the groups above the moved one are itself and those above its new parent. */
  lemma MovedAncestors(t: Tree, newId: Id, name: Option<string>, p: Id, g: Id)
    requires TreeInv(t) && Groups.SaveGroup(t, newId, name, Some(p), Some(g), true, false).Ok?
    ensures Above(Groups.SaveGroup(t, newId, name, Some(p), Some(g), true, false).value, {g}) == {g} + Above(t, {p})
  {
    var t' := Groups.SaveGroup(t, newId, name, Some(p), Some(g), true, false).value;
    SaveGroupKeepsTree(t, newId, name, Some(p), Some(g), true, false);
    CycleCheckIsReachability(t, p, g);
    forall h ensures h in Above(t', {g}) <==> h in {g} + Above(t, {p}) {
      StatusFilterNeverCuts(t', {g}, h);
      StatusFilterNeverCuts(t, {p}, h);
      forall n: nat {
        WalkMisses(t, t', g, p, n);
      }
      StepUp(t', g, p);
      assert Up(t', g, 0) == Some(g);
      if Reaches(t', g, h) && h != g {
        var n: nat :| Up(t', g, n) == Some(h);
        assert Up(t', p, n - 1) == Some(h);
      }
    }
  }

  /** Moving a group keeps a manager exactly when somebody manages the space from the groups that are above it
      on the cut tree, or above the new parent. */
  lemma MoveKeepsManagerIff(t: Tables, s: Step, space: Id)
    requires s.SaveGroup? && s.group.Some? && s.changeParent && !s.archive && Perform(t, s).Ok?
    ensures SomeoneManages(Apply(t, s), space)
            <==> exists m <- t.members ::
                   ManagesWith(t, m, AboveMoved(t.tree, s.group.value, s.parent, GroupsOf(t, m)), space)
  {
    var t' := Apply(t, s);
    var above := map m <- t.members :: AboveMoved(t.tree, s.group.value, s.parent, GroupsOf(t, m));
    forall m <- t.members ensures Above(t'.tree, GroupsOf(t', m)) == above[m] {
      assert GroupsOf(t', m) == GroupsOf(t, m);
      MovedClosure(t.tree, t'.tree, s.group.value, GroupsOf(t, m));
    }
    SomeoneManagesIff(t, t', above, space);
  }
}
