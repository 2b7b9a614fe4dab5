/** The filters that every retrieval result and every citation list pass, whatever the indexes return. */
module Retrieval {
  import opened Common

  datatype Hit = Hit(chunk: Id, document: Id)

  function Filter<T(!new)>(keep: T -> bool, s: seq<T>): (r: seq<T>)
    ensures forall x :: x in r <==> x in s && keep(x)
  {
    if s == [] then []
    else
      assert s == [s[0]] + s[1..];
      (if keep(s[0]) then [s[0]] else []) + Filter(keep, s[1..])
  }

  /** The document-scope filter of `retrieve`: an empty scope means the whole space. */
  function InScope(scope: set<Id>, found: seq<Hit>): seq<Hit> {
    if scope == {} then found else Filter((h: Hit) => h.document in scope, found)
  }

  /** `retrieve`: scope filter, then only hits whose chunk was read back from the database. */
  function Retrieve(scope: set<Id>, found: seq<Hit>, hydrated: set<Id>): seq<Hit> {
    Filter((h: Hit) => h.chunk in hydrated, InScope(scope, found))
  }

  /** `_build_citations`, reduced to (document, chunk). */
  function Cite(hits: seq<Hit>, hydrated: set<Id>): seq<(Id, Id)> {
    var kept := Filter((h: Hit) => h.chunk in hydrated, hits);
    seq(|kept|, i requires 0 <= i < |kept| => (kept[i].document, kept[i].chunk))
  }

  lemma {:induction false} FilterAll<T(!new)>(keep: T -> bool, s: seq<T>)
    requires forall x <- s :: keep(x)
    ensures Filter(keep, s) == s
  {
    if s != [] {
      FilterAll(keep, s[1..]);
      assert s == [s[0]] + s[1..];
    }
  }

  /** The positions of the elements that pass, the first element being at `offset`. */
  function Positions<T(!new)>(keep: T -> bool, s: seq<T>, offset: nat): seq<nat> {
    if s == [] then [] else (if keep(s[0]) then [offset] else []) + Positions(keep, s[1..], offset + 1)
  }

  lemma {:induction false} PositionsWithin<T(!new)>(keep: T -> bool, s: seq<T>, offset: nat)
    ensures forall p <- Positions(keep, s, offset) :: offset <= p < offset + |s|
  {
    if s != [] {
      PositionsWithin(keep, s[1..], offset + 1);
    }
  }

  ghost predicate Increasing(at: seq<nat>) {
    forall i, j :: 0 <= i < j < |at| ==> at[i] < at[j]
  }

  lemma {:induction false} PositionsIncrease<T(!new)>(keep: T -> bool, s: seq<T>, offset: nat)
    ensures Increasing(Positions(keep, s, offset))
  {
    if s != [] {
      PositionsIncrease(keep, s[1..], offset + 1);
      PositionsWithin(keep, s[1..], offset + 1);
      var later := Positions(keep, s[1..], offset + 1);
      assert forall j :: 0 <= j < |later| ==> later[j] in later;
      assert Increasing([offset] + later);
      assert [] + later == later;
    }
  }

  lemma {:induction false} PositionsPass<T(!new)>(keep: T -> bool, s: seq<T>, offset: nat, k: nat)
    requires k < |s|
    ensures offset + k in Positions(keep, s, offset) <==> keep(s[k])
  {
    if k > 0 {
      PositionsPass(keep, s[1..], offset + 1, k - 1);
    } else {
      PositionsWithin(keep, s[1..], offset + 1);
    }
  }

  lemma {:induction false} FilterFollowsPositions<T(!new)>(keep: T -> bool, s: seq<T>, offset: nat)
    ensures var at := Positions(keep, s, offset);
            && |at| == |Filter(keep, s)|
            && forall i :: 0 <= i < |at| ==> offset <= at[i] < offset + |s| && Filter(keep, s)[i] == s[at[i] - offset]
  {
    if s != [] {
      FilterFollowsPositions(keep, s[1..], offset + 1);
    }
  }

  /** A filter keeps exactly the elements that pass, each as often as before and in their order: `at` lists their
      positions. */
  lemma FilterKeepsOrder<T(!new)>(keep: T -> bool, s: seq<T>) returns (at: seq<nat>)
    ensures |at| == |Filter(keep, s)| && forall i :: 0 <= i < |at| ==> at[i] < |s| && Filter(keep, s)[i] == s[at[i]]
    ensures Increasing(at)
    ensures forall k: nat :: k < |s| ==> (k in at <==> keep(s[k]))
  {
    at := Positions(keep, s, 0);
    PositionsIncrease(keep, s, 0);
    FilterFollowsPositions(keep, s, 0);
    forall k: nat | k < |s| ensures k in at <==> keep(s[k]) {
      PositionsPass(keep, s, 0, k);
    }
  }

  lemma {:induction false} FilterAgrees<T(!new)>(p: T -> bool, q: T -> bool, s: seq<T>)
    requires forall x :: p(x) <==> q(x)
    ensures Filter(p, s) == Filter(q, s)
  {
    if s != [] {
      FilterAgrees(p, q, s[1..]);
    }
  }

  lemma {:induction false} FilterAppend<T(!new)>(keep: T -> bool, a: seq<T>, b: seq<T>)
    ensures Filter(keep, a + b) == Filter(keep, a) + Filter(keep, b)
  {
    if a == [] {
      assert a + b == b;
    } else {
      assert (a + b)[1..] == a[1..] + b;
      FilterAppend(keep, a[1..], b);
    }
  }

  lemma {:induction false} FilterTwice<T(!new)>(p: T -> bool, q: T -> bool, both: T -> bool, s: seq<T>)
    requires forall x :: both(x) <==> p(x) && q(x)
    ensures Filter(q, Filter(p, s)) == Filter(both, s)
  {
    if s != [] {
      FilterTwice(p, q, both, s[1..]);
      var first := if p(s[0]) then [s[0]] else [];
      FilterAppend(q, first, Filter(p, s[1..]));
      assert Filter(q, first) == if both(s[0]) then [s[0]] else [];
    }
  }

  /** A hit is returned when its document is in the scope, or there is none, and its chunk was read back. */
  predicate Passes(scope: set<Id>, hydrated: set<Id>, h: Hit) {
    (scope == {} || h.document in scope) && h.chunk in hydrated
  }

  /** The positions `at` of `found`, in increasing order, are those of the hits that pass, and `hits` is what
      stands there. */
  ghost predicate Selects(found: seq<Hit>, at: seq<nat>, hits: seq<Hit>, scope: set<Id>, hydrated: set<Id>) {
    && Increasing(at) && |at| == |hits|
    && (forall i :: 0 <= i < |at| ==> at[i] < |found| && hits[i] == found[at[i]])
    && forall k: nat :: k < |found| ==>
         (k in at <==> (scope == {} || found[k].document in scope) && found[k].chunk in hydrated)
  }

  /** `retrieve` returns the hits that pass, each as often and in the order in which the search found them: the
      best hit stays first. */
  lemma RetrieveKeepsOrder(scope: set<Id>, found: seq<Hit>, hydrated: set<Id>) returns (at: seq<nat>)
    ensures Selects(found, at, Retrieve(scope, found, hydrated), scope, hydrated)
  {
    var q := (h: Hit) => h.chunk in hydrated;
    var both := (h: Hit) => Passes(scope, hydrated, h);
    if scope == {} {
      FilterAgrees(q, both, found);
    } else {
      FilterTwice((h: Hit) => h.document in scope, q, both, found);
    }
    at := FilterKeepsOrder(both, found);
  }

  /** The citations of a result are its hits, all of them and in their order, and with a scope that is not
      empty every cited document lies in the scope. */
  lemma CitationsFollowHits(scope: set<Id>, found: seq<Hit>, hydrated: set<Id>)
    ensures var hits := Retrieve(scope, found, hydrated);
            var cited := Cite(hits, hydrated);
            && |cited| == |hits|
            && (forall i :: 0 <= i < |hits| ==> cited[i] == (hits[i].document, hits[i].chunk))
            && (forall i :: 0 <= i < |cited| ==> cited[i].1 in hydrated && Hit(cited[i].1, cited[i].0) in found)
            && (scope != {} ==> forall i :: 0 <= i < |cited| ==> cited[i].0 in scope)
  {
    var hits := Retrieve(scope, found, hydrated);
    FilterAll((h: Hit) => h.chunk in hydrated, hits);
    forall i | 0 <= i < |hits| ensures hits[i] in InScope(scope, found) && hits[i].chunk in hydrated {
      assert hits[i] in hits;
    }
  }
}
