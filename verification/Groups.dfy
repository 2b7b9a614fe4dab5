/** The tree of groups of one tenant: ancestor closure, cycle check and group updates.
    Models `save_group` and the recursive queries over `groups`. */
module Groups {
  import opened Common

  datatype Group = Group(name: string, parent: Option<Id>, active: bool)

  type Tree = map<Id, Group>

  datatype TreeError = NotFound | GroupCycle | GroupHasChildren | Integrity

  // ---------- Ancestors, without any query ----------

  /** The row reached from `g` by following `n` parent links. */
  function Up(t: Tree, g: Id, n: nat): Option<Id>
    decreases n
  {
    if g !in t then None
    else if n == 0 then Some(g)
    else match t[g].parent
      case None => None
      case Some(p) => Up(t, p, n - 1)
  }

  ghost predicate Reaches(t: Tree, g: Id, h: Id) {
    exists n: nat :: Up(t, g, n) == Some(h)
  }

  ghost predicate Acyclic(t: Tree) {
    forall g: Id, n: nat :: n > 0 ==> Up(t, g, n) != Some(g)
  }

  predicate ParentsExist(t: Tree) {
    forall g <- t :: t[g].parent.Some? ==> t[g].parent.value in t
  }

  /** Every ancestor of an active group is active. */
  predicate ActiveUpward(t: Tree) {
    forall g <- t :: t[g].active && t[g].parent.Some? ==>
      t[g].parent.value in t && t[t[g].parent.value].active
  }

  ghost predicate TreeInv(t: Tree) {
    ParentsExist(t) && ActiveUpward(t) && Acyclic(t)
  }

  function ActiveIds(t: Tree): set<Id> {
    set g <- t | t[g].active
  }

  /** The rows of `t` that pass a query's filter. */
  function Kept(t: Tree, keep: set<Id>): Tree {
    map g <- t | g in keep :: t[g]
  }

  // ---------- The recursive queries ----------

  /** One evaluation of the recursive term: kept parents of the rows in the working table. */
  function ParentsOf(t: Tree, keep: set<Id>, work: set<Id>): set<Id> {
    set g <- work | g in t && t[g].parent.Some? && t[g].parent.value in t && t[g].parent.value in keep ::
      t[g].parent.value
  }

  /** WITH RECURSIVE ... UNION: evaluate the recursive term on the rows that are new, keep only rows
      not collected before, and stop when there is none. The measure is the set of rows not collected. */
  function Iterate(t: Tree, keep: set<Id>, found: set<Id>, work: set<Id>): set<Id>
    requires work <= found
    decreases t.Keys - found
  {
    var added := ParentsOf(t, keep, work) - found;
    if added == {} then found
    else
      assert t.Keys - (found + added) < t.Keys - found by {
        var x :| x in added;
        assert x in t.Keys - found && x !in t.Keys - (found + added);
      }
      Iterate(t, keep, found + added, added)
  }

  /** A recursive query: `seed` rows that pass the filter, closed under kept parents. */
  function Closure(t: Tree, keep: set<Id>, seed: set<Id>): set<Id> {
    var start := set g <- seed | g in t && g in keep;
    Iterate(t, keep, start, start)
  }

  lemma {:induction false} UpSplit(t: Tree, g: Id, m: nat, h: Id, n: nat)
    requires Up(t, g, m) == Some(h)
    ensures Up(t, g, m + n) == Up(t, h, n)
    decreases m
  {
    if m > 0 {
      UpSplit(t, t[g].parent.value, m - 1, h, n);
    }
  }

  lemma ReachesTrans(t: Tree, a: Id, b: Id, c: Id)
    requires Reaches(t, a, b) && Reaches(t, b, c)
    ensures Reaches(t, a, c)
  {
    var m: nat :| Up(t, a, m) == Some(b);
    var n: nat :| Up(t, b, n) == Some(c);
    UpSplit(t, a, m, b, n);
  }

  lemma ReachesParent(t: Tree, g: Id)
    requires g in t && t[g].parent.Some? && t[g].parent.value in t
    ensures Reaches(t, g, t[g].parent.value)
  {
    assert Up(t, g, 1) == Up(t, t[g].parent.value, 0);
  }

  /** Nothing outside the true closure is ever collected. */
  lemma {:induction false} IterateSound(t: Tree, keep: set<Id>, seed: set<Id>, found: set<Id>, work: set<Id>)
    requires work <= found
    requires forall h <- found :: exists g <- seed :: Reaches(Kept(t, keep), g, h)
    ensures forall h <- Iterate(t, keep, found, work) :: exists g <- seed :: Reaches(Kept(t, keep), g, h)
    decreases t.Keys - found
  {
    var k := Kept(t, keep);
    var added := ParentsOf(t, keep, work) - found;
    forall h <- added ensures exists g <- seed :: Reaches(k, g, h) {
      var c :| c in work && c in t && t[c].parent == Some(h);
      var g :| g in seed && Reaches(k, g, c);
      assert c in k by {
        var n: nat :| Up(k, g, n) == Some(c);
        UpSplit(k, g, n, c, 0);
      }
      ReachesParent(k, c);
      ReachesTrans(k, g, c, h);
    }
    if added != {} {
      var x :| x in added;
      assert x in t.Keys - found && x !in t.Keys - (found + added);
      IterateSound(t, keep, seed, found + added, added);
    }
  }

  /** The result contains what was found and is closed under kept parents. */
  lemma {:induction false} IterateClosed(t: Tree, keep: set<Id>, found: set<Id>, work: set<Id>)
    requires work <= found
    requires ParentsOf(t, keep, found - work) <= found
    ensures found <= Iterate(t, keep, found, work)
    ensures ParentsOf(t, keep, Iterate(t, keep, found, work)) <= Iterate(t, keep, found, work)
    decreases t.Keys - found
  {
    var added := ParentsOf(t, keep, work) - found;
    assert ParentsOf(t, keep, found) <= found + added by {
      assert found == (found - work) + work;
      assert ParentsOf(t, keep, found) == ParentsOf(t, keep, found - work) + ParentsOf(t, keep, work);
    }
    if added == {} {
      assert found + added == found;
    } else {
      var x :| x in added;
      assert x in t.Keys - found && x !in t.Keys - (found + added);
      assert (found + added) - added == found;
      IterateClosed(t, keep, found + added, added);
    }
  }

  lemma {:induction false} ClosedUnderUp(t: Tree, keep: set<Id>, c: set<Id>, g: Id, n: nat)
    requires ParentsOf(t, keep, c) <= c && g in c
    ensures Up(Kept(t, keep), g, n).Some? ==> Up(Kept(t, keep), g, n).value in c
    decreases n
  {
    var k := Kept(t, keep);
    if n > 0 && g in k && k[g].parent.Some? && k[g].parent.value in k {
      assert k[g].parent.value in ParentsOf(t, keep, c);
      ClosedUnderUp(t, keep, c, k[g].parent.value, n - 1);
    }
  }

  /** A recursive query returns exactly the kept rows that a seed row reaches through kept rows. */
  lemma ClosureIsReachability(t: Tree, keep: set<Id>, seed: set<Id>, h: Id)
    ensures h in Closure(t, keep, seed) <==> exists g <- seed :: Reaches(Kept(t, keep), g, h)
  {
    var k := Kept(t, keep);
    var start := set g <- seed | g in t && g in keep;
    forall g <- start ensures exists s <- seed :: Reaches(k, s, g) {
      assert Up(k, g, 0) == Some(g);
    }
    IterateSound(t, keep, seed, start, start);
    IterateClosed(t, keep, start, start);
    if g :| g in seed && Reaches(k, g, h) {
      var n: nat :| Up(k, g, n) == Some(h);
      assert g in start;
      ClosedUnderUp(t, keep, Closure(t, keep, seed), g, n);
    }
  }

  lemma {:induction false} ActiveChain(t: Tree, g: Id, n: nat)
    requires ActiveUpward(t) && (g in t ==> t[g].active)
    ensures Up(Kept(t, ActiveIds(t)), g, n) == Up(t, g, n)
    decreases n
  {
    if n > 0 && g in t && t[g].parent.Some? {
      ActiveChain(t, t[g].parent.value, n - 1);
    }
  }

  /** In a tree kept by `SaveGroup`, the status filter of the recursive term never cuts a chain: the query
      returns all ancestors of the seed rows that are active. */
  lemma StatusFilterNeverCuts(t: Tree, seed: set<Id>, h: Id)
    requires ActiveUpward(t)
    ensures h in Closure(t, ActiveIds(t), seed) <==> exists g <- seed :: g in t && t[g].active && Reaches(t, g, h)
  {
    ClosureIsReachability(t, ActiveIds(t), seed, h);
    var k := Kept(t, ActiveIds(t));
    forall g <- seed ensures Reaches(k, g, h) <==> g in t && t[g].active && Reaches(t, g, h) {
      if g in t && t[g].active {
        forall n: nat ensures Up(k, g, n) == Up(t, g, n) {
          ActiveChain(t, g, n);
        }
      }
    }
  }

  /** Closing the union of several seeds is the union of the closures. */
  lemma ClosureOfUnion(t: Tree, keep: set<Id>, seeds: set<set<Id>>, all: set<Id>, h: Id)
    requires forall g :: g in all <==> exists s <- seeds :: g in s
    ensures h in Closure(t, keep, all) <==> exists s <- seeds :: h in Closure(t, keep, s)
  {
    ClosureIsReachability(t, keep, all, h);
    forall s <- seeds { ClosureIsReachability(t, keep, s, h); }
  }

  // ---------- Acyclicity under updates ----------

  predicate DiffersOnlyAt(t: Tree, t': Tree, x: Id) {
    t'.Keys == t.Keys + {x} && forall g <- t :: g != x ==> t'[g] == t[g]
  }

  /** A walk is unchanged, or it meets `x` after some number of steps. */
  lemma {:induction false} SameUntilHit(t: Tree, t': Tree, x: Id, g: Id, n: nat) returns (i: nat)
    requires DiffersOnlyAt(t, t', x)
    ensures Up(t', g, n) == Up(t, g, n) || (i <= n && Up(t', g, i) == Some(x))
    decreases n
  {
    i := 0;
    if g != x && n > 0 && g in t && t[g].parent.Some? {
      var j := SameUntilHit(t, t', x, t[g].parent.value, n - 1);
      i := j + 1;
    }
  }

  /** A walk that arrives at `x` in the changed tree also arrives there in the old one. */
  lemma {:induction false} OldWalkTo(t: Tree, t': Tree, x: Id, g: Id, n: nat)
    requires DiffersOnlyAt(t, t', x) && x in t
    requires Up(t', g, n) == Some(x)
    ensures Reaches(t, g, x)
    decreases n
  {
    if g == x {
      assert Up(t, g, 0) == Some(x);
    } else {
      var p := t[g].parent.value;
      OldWalkTo(t, t', x, p, n - 1);
      assert p in t by {
        var m: nat :| Up(t, p, m) == Some(x);
      }
      ReachesParent(t, g);
      ReachesTrans(t, g, p, x);
    }
  }

  lemma {:induction false} SameWithin(t: Tree, t': Tree, x: Id, g: Id, n: nat)
    requires DiffersOnlyAt(t, t', x) && ParentsExist(t) && x !in t && g in t
    ensures Up(t', g, n) == Up(t, g, n) && Up(t, g, n) != Some(x)
    decreases n
  {
    if n > 0 && t[g].parent.Some? {
      SameWithin(t, t', x, t[g].parent.value, n - 1);
    }
  }

  /** Writing row `x` keeps the tree acyclic when `x` is new or its new parent does not reach it. */
  lemma WriteKeepsAcyclic(t: Tree, t': Tree, x: Id)
    requires Acyclic(t) && ParentsExist(t) && DiffersOnlyAt(t, t', x)
    requires t'[x].parent.Some? ==> t'[x].parent.value in t
    requires x in t && t'[x].parent.Some? ==> !Reaches(t, t'[x].parent.value, x)
    ensures Acyclic(t')
  {
    forall g: Id, n: nat | n > 0 && Up(t', g, n) == Some(g) ensures false {
      var i := SameUntilHit(t, t', x, g, n);
      UpSplit(t', g, n, g, i);
      UpSplit(t', g, i, x, n);
      assert Up(t', x, n) == Some(x);
      var p := t'[x].parent.value;
      if x in t {
        OldWalkTo(t, t', x, p, n - 1);
      } else {
        SameWithin(t, t', x, p, n - 1);
      }
    }
  }

  // ---------- save_group ----------

  predicate IsActive(t: Tree, g: Id) {
    g in t && t[g].active
  }

  /** The query on `ancestors`: is `g` the group `p` or above it? */
  predicate CycleCheck(t: Tree, p: Id, g: Id) {
    g in Closure(t, t.Keys, {p})
  }

  predicate HasActiveChild(t: Tree, g: Id) {
    exists c <- t :: t[c].parent == Some(g) && t[c].active
  }

  /** `save_group` after the tenant lock. `newId` is the new row's key when there is no `group`. */
  function SaveGroup(t: Tree, newId: Id, name: Option<string>, parent: Option<Id>, group: Option<Id>,
                     changeParent: bool, archive: bool): (r: Result<Tree, TreeError>)
  {
    if group.Some? && !IsActive(t, group.value) then Err(NotFound)
    else if parent.Some? && !IsActive(t, parent.value) then Err(NotFound)
    else if group.Some? && changeParent && parent.Some? && CycleCheck(t, parent.value, group.value) then Err(GroupCycle)
    else if archive && group.Some? && HasActiveChild(t, group.value) then Err(GroupHasChildren)
    else match group
      case Some(g) =>
        var name' := if name.Some? then name.value else t[g].name;
        var parent' := if changeParent then parent else t[g].parent;
        Ok(t[g := Group(name', parent', !archive)])
      case None =>
        if name.None? || newId in t then Err(Integrity)
        else Ok(t[newId := Group(name.value, parent, true)])
  }

  lemma CycleCheckIsReachability(t: Tree, p: Id, g: Id)
    ensures CycleCheck(t, p, g) <==> Reaches(t, p, g)
  {
    ClosureIsReachability(t, t.Keys, {p}, g);
    assert Kept(t, t.Keys) == t;
  }

  /** Every accepted `save_group` keeps the tree acyclic with active groups closed upward. */
  lemma SaveGroupKeepsTree(t: Tree, newId: Id, name: Option<string>, parent: Option<Id>, group: Option<Id>,
                           changeParent: bool, archive: bool)
    requires TreeInv(t)
    requires SaveGroup(t, newId, name, parent, group, changeParent, archive).Ok?
    ensures TreeInv(SaveGroup(t, newId, name, parent, group, changeParent, archive).value)
  {
    var t' := SaveGroup(t, newId, name, parent, group, changeParent, archive).value;
    var x := if group.Some? then group.value else newId;
    assert DiffersOnlyAt(t, t', x);
    if x in t && t'[x].parent.Some? {
      var p := t'[x].parent.value;
      if changeParent {
        CycleCheckIsReachability(t, p, x);
      } else if Reaches(t, p, x) {
        var n: nat :| Up(t, p, n) == Some(x);
        assert Up(t, x, n + 1) == Some(x);
      }
    }
    WriteKeepsAcyclic(t, t', x);
  }

  /** Completeness of the checks: on an intact tree, a move of an active group under an active parent is
      refused with GroupCycle exactly when the move would close a cycle. */
  lemma CycleRefusedIffItWouldClose(t: Tree, newId: Id, name: Option<string>, p: Id, g: Id, archive: bool)
    requires TreeInv(t) && IsActive(t, g) && IsActive(t, p)
    ensures SaveGroup(t, newId, name, Some(p), Some(g), true, archive) == Err(GroupCycle)
            <==> !Acyclic(t[g := t[g].(parent := Some(p))])
  {
    CycleCheckIsReachability(t, p, g);
    var t' := t[g := t[g].(parent := Some(p))];
    if Reaches(t, p, g) {
      var n: nat :| Up(t, p, n) == Some(g);
      StillReaches(t, t', g, p, n);
      var m: nat :| Up(t', p, m) == Some(g);
      assert Up(t', g, m + 1) == Some(g);
    } else {
      WriteKeepsAcyclic(t, t', g);
    }
  }

  /** If `p` reached `g` before the write at `g`, it still does. */
  lemma {:induction false} StillReaches(t: Tree, t': Tree, g: Id, p: Id, n: nat)
    requires DiffersOnlyAt(t, t', g) && g in t && Up(t, p, n) == Some(g)
    ensures Reaches(t', p, g)
    decreases n
  {
    if p == g {
      assert Up(t', p, 0) == Some(g);
    } else {
      var q := t[p].parent.value;
      StillReaches(t, t', g, q, n - 1);
      var m: nat :| Up(t', q, m) == Some(g);
      assert Up(t', p, m + 1) == Some(g);
    }
  }

  /** An archived group is never written again, so archiving is final. */
  lemma ArchivedIsFinal(t: Tree, newId: Id, name: Option<string>, parent: Option<Id>, group: Option<Id>,
                        changeParent: bool, archive: bool, g: Id)
    requires g in t && !t[g].active
    ensures var r := SaveGroup(t, newId, name, parent, group, changeParent, archive);
            r.Ok? ==> g in r.value && r.value[g] == t[g]
  {
  }
}
