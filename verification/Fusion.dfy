/** Reciprocal rank fusion of two result lists, in its two implementations, over exact numbers. */
module Fusion {
  import opened Common

  datatype Source = Unknown | Vector | Keyword | Rrf

  datatype Hit = Hit(chunk: Id, document: Id, index: int, score: real, source: Source, rank: int)

  // ---------- Stable sorting, as `sorted(..., reverse=True)` does it ----------

  function Insert<T(!new)>(sorted: seq<T>, x: T, key: T -> real): seq<T> {
    if sorted == [] || key(sorted[|sorted| - 1]) >= key(x) then sorted + [x]
    else Insert(sorted[..|sorted| - 1], x, key) + [sorted[|sorted| - 1]]
  }

  function SortDesc<T(!new)>(s: seq<T>, key: T -> real): seq<T> {
    if s == [] then [] else Insert(SortDesc(s[..|s| - 1], key), s[|s| - 1], key)
  }

  ghost predicate Descending<T(!new)>(s: seq<T>, key: T -> real) {
    forall i, j :: 0 <= i < j < |s| ==> key(s[i]) >= key(s[j])
  }

  /** The elements with one key, in order. */
  function WithKey<T(!new)>(s: seq<T>, key: T -> real, r: real): seq<T> {
    if s == [] then []
    else WithKey(s[..|s| - 1], key, r) + if key(s[|s| - 1]) == r then [s[|s| - 1]] else []
  }

  lemma {:induction false} InsertContents<T(!new)>(s: seq<T>, x: T, key: T -> real)
    ensures multiset(Insert(s, x, key)) == multiset(s) + multiset{x}
  {
    if s != [] && key(s[|s| - 1]) < key(x) {
      InsertContents(s[..|s| - 1], x, key);
      assert s == s[..|s| - 1] + [s[|s| - 1]];
    }
  }

  lemma {:induction false} InsertDescending<T(!new)>(s: seq<T>, x: T, key: T -> real)
    requires Descending(s, key)
    ensures Descending(Insert(s, x, key), key)
  {
    if s != [] && key(s[|s| - 1]) < key(x) {
      var rest := s[..|s| - 1];
      InsertDescending(rest, x, key);
      InsertContents(rest, x, key);
      forall y <- Insert(rest, x, key) ensures key(y) >= key(s[|s| - 1]) {
        assert y in multiset(Insert(rest, x, key));
        assert y == x || y in rest;
      }
    }
  }

  lemma {:induction false} InsertKeepsTies<T(!new)>(s: seq<T>, x: T, key: T -> real, r: real)
    requires Descending(s, key)
    ensures WithKey(Insert(s, x, key), key, r) == WithKey(s, key, r) + if key(x) == r then [x] else []
  {
    if s == [] || key(s[|s| - 1]) >= key(x) {
      assert (s + [x])[..|s|] == s;
    } else {
      var rest, last := s[..|s| - 1], s[|s| - 1];
      InsertKeepsTies(rest, x, key, r);
      var t := Insert(rest, x, key);
      assert (t + [last])[..|t|] == t;
    }
  }

  lemma {:induction false} SortContents<T(!new)>(s: seq<T>, key: T -> real)
    ensures multiset(SortDesc(s, key)) == multiset(s)
  {
    if s != [] {
      SortContents(s[..|s| - 1], key);
      InsertContents(SortDesc(s[..|s| - 1], key), s[|s| - 1], key);
      assert s == s[..|s| - 1] + [s[|s| - 1]];
    }
  }

  lemma {:induction false} SortDescends<T(!new)>(s: seq<T>, key: T -> real)
    ensures Descending(SortDesc(s, key), key)
  {
    if s != [] {
      SortDescends(s[..|s| - 1], key);
      InsertDescending(SortDesc(s[..|s| - 1], key), s[|s| - 1], key);
    }
  }

  /** Sorting keeps elements of equal key in their order; `SortContents` and `SortDescends` say the rest. */
  lemma {:induction false} SortKeepsTies<T(!new)>(s: seq<T>, key: T -> real, r: real)
    ensures WithKey(SortDesc(s, key), key, r) == WithKey(s, key, r)
  {
    if s != [] {
      SortKeepsTies(s[..|s| - 1], key, r);
      SortDescends(s[..|s| - 1], key);
      InsertKeepsTies(SortDesc(s[..|s| - 1], key), s[|s| - 1], key, r);
    }
  }

  lemma SortMembers<T(!new)>(s: seq<T>, key: T -> real)
    ensures |SortDesc(s, key)| == |s| && forall x :: x in SortDesc(s, key) <==> x in s
  {
    SortContents(s, key);
    assert |multiset(SortDesc(s, key))| == |multiset(s)|;
    forall x ensures x in SortDesc(s, key) <==> x in s {
      assert x in multiset(SortDesc(s, key)) <==> x in multiset(s);
    }
  }

  lemma {:induction false} InsertAgrees<T(!new)>(s: seq<T>, x: T, f: T -> real, g: T -> real)
    requires f(x) == g(x) && forall y <- s :: f(y) == g(y)
    ensures Insert(s, x, f) == Insert(s, x, g)
  {
    if s != [] && f(s[|s| - 1]) < f(x) {
      InsertAgrees(s[..|s| - 1], x, f, g);
    }
  }

  lemma {:induction false} SortAgrees<T(!new)>(s: seq<T>, f: T -> real, g: T -> real)
    requires forall y <- s :: f(y) == g(y)
    ensures SortDesc(s, f) == SortDesc(s, g)
  {
    if s != [] {
      var rest := s[..|s| - 1];
      SortAgrees(rest, f, g);
      SortMembers(rest, f);
      InsertAgrees(SortDesc(rest, f), s[|s| - 1], f, g);
    }
  }

  // ---------- Votes ----------

  function ByScore(h: Hit): real { h.score }

  /** One summand: the hit at a rank of one list. */
  datatype Vote = Vote(hit: Hit, rank: nat)

  function Votes(ranked: seq<Hit>): (r: seq<Vote>)
    ensures |r| == |ranked| && forall i :: 0 <= i < |r| ==> r[i] == Vote(ranked[i], i + 1)
  {
    seq(|ranked|, i requires 0 <= i < |ranked| => Vote(ranked[i], i + 1))
  }

  function AllVotes(vector: seq<Hit>, keyword: seq<Hit>): seq<Vote> {
    Votes(SortDesc(vector, ByScore)) + Votes(SortDesc(keyword, ByScore))
  }

  function Weight(d: int): real {
    if d == 0 then 0.0 else 1.0 / d as real
  }

  function Total(votes: seq<Vote>, k: int, c: Id): real {
    if votes == [] then 0.0
    else
      var last := votes[|votes| - 1];
      Total(votes[..|votes| - 1], k, c) + if last.hit.chunk == c then Weight(k + last.rank) else 0.0
  }

  /** The keys in the order of their first vote: the iteration order of the score table. */
  function FirstSeen(votes: seq<Vote>): seq<Id> {
    if votes == [] then []
    else
      var before := FirstSeen(votes[..|votes| - 1]);
      var c := votes[|votes| - 1].hit.chunk;
      if c in before then before else before + [c]
  }

  function FirstHits(votes: seq<Vote>): map<Id, Hit> {
    if votes == [] then map[]
    else
      var before := FirstHits(votes[..|votes| - 1]);
      var h := votes[|votes| - 1].hit;
      if h.chunk in before then before else before[h.chunk := h]
  }

  function ScoreOf(votes: seq<Vote>, k: int): Id -> real {
    (c: Id) => Total(votes, k, c)
  }

  /** `s[:k]` in Python. */
  function Slice<T>(s: seq<T>, k: int): seq<T> {
    if k >= |s| then s else if k >= 0 then s[..k] else if |s| + k >= 0 then s[..|s| + k] else []
  }

  function Ranking(vector: seq<Hit>, keyword: seq<Hit>, topK: int, k: int): seq<Id> {
    var votes := AllVotes(vector, keyword);
    Slice(SortDesc(FirstSeen(votes), ScoreOf(votes, k)), topK)
  }

  /** The two dictionaries of the loop; `order` is their order of insertion. */
  datatype Table = Table(order: seq<Id>, scores: map<Id, real>, hits: map<Id, Hit>)

  /** The table after some votes. */
  ghost predicate TableOf(votes: seq<Vote>, k: int, t: Table) {
    && t.order == FirstSeen(votes) && t.hits == FirstHits(votes) && t.scores.Keys == t.hits.Keys
    && forall c <- t.scores :: t.scores[c] == Total(votes, k, c)
  }

  ghost function AddVote(t: Table, v: Vote, k: int): Table {
    var c := v.hit.chunk;
    Table(if c in t.scores then t.order else t.order + [c],
          t.scores[c := if c in t.scores then t.scores[c] + Weight(k + v.rank) else Weight(k + v.rank)],
          if c in t.hits then t.hits else t.hits[c := v.hit])
  }

  lemma {:induction false} SeenTogether(votes: seq<Vote>)
    ensures forall c :: c in FirstHits(votes) <==> c in FirstSeen(votes)
    ensures forall c <- FirstHits(votes) :: FirstHits(votes)[c].chunk == c
  {
    if votes != [] {
      SeenTogether(votes[..|votes| - 1]);
    }
  }

  lemma {:induction false} UnseenTotal(votes: seq<Vote>, k: int, c: Id)
    requires c !in FirstHits(votes)
    ensures Total(votes, k, c) == 0.0
  {
    if votes != [] {
      UnseenTotal(votes[..|votes| - 1], k, c);
    }
  }

  lemma VoteStep(votes: seq<Vote>, k: int, t: Table, v: Vote)
    requires TableOf(votes, k, t)
    ensures TableOf(votes + [v], k, AddVote(t, v, k))
  {
    assert (votes + [v])[..|votes|] == votes;
    SeenTogether(votes);
    if v.hit.chunk !in t.scores {
      UnseenTotal(votes, k, v.hit.chunk);
    }
  }

  // ---------- The two implementations ----------

  function Lookup(scores: map<Id, real>): Id -> real {
    (c: Id) => if c in scores then scores[c] else 0.0
  }

  lemma LookupSorts(votes: seq<Vote>, k: int, t: Table)
    requires TableOf(votes, k, t)
    ensures SortDesc(t.order, Lookup(t.scores)) == SortDesc(FirstSeen(votes), ScoreOf(votes, k))
    ensures forall c <- SortDesc(t.order, Lookup(t.scores)) :: c in t.scores
  {
    SeenTogether(votes);
    SortAgrees(t.order, Lookup(t.scores), ScoreOf(votes, k));
    SortMembers(t.order, Lookup(t.scores));
  }

  datatype Error = ZeroDivision

  /** Some rank up to `n` has denominator zero. */
  predicate Divides(n: int, k: int) {
    -n <= k <= -1
  }

  /** The body of the inner loop: one vote. */
  method CountVote(t: Table, hit: Hit, rank: nat, k: int, ghost done: seq<Vote>) returns (t': Table)
    requires TableOf(done, k, t)
    ensures TableOf(done + [Vote(hit, rank)], k, t')
  {
    var order: seq<Id>, scores: map<Id, real>, hits: map<Id, Hit> := t.order, t.scores, t.hits;
    var sum := Weight(k + rank);
    if hit.chunk in scores {
      sum := scores[hit.chunk] + sum;
    } else {
      order := order + [hit.chunk];
    }
    scores := scores[hit.chunk := sum];
    if hit.chunk !in hits {
      hits := hits[hit.chunk := hit];
    }
    VoteStep(done, k, t, Vote(hit, rank));
    t' := Table(order, scores, hits);
  }

  /** The inner loop: one vote for each hit of a ranked list. */
  method AddList(t: Table, ranked: seq<Hit>, k: int, ghost done: seq<Vote>) returns (r: Result<Table, Error>)
    requires TableOf(done, k, t)
    ensures r.Err? <==> Divides(|ranked|, k)
    ensures r.Ok? ==> TableOf(done + Votes(ranked), k, r.value)
  {
    var table := t;
    ghost var votes := Votes(ranked);
    assert done + votes[..0] == done;
    for i := 0 to |ranked|
      invariant TableOf(done + votes[..i], k, table) && !Divides(i, k)
    {
      var rank := i + 1;
      if k + rank == 0 {
        return Err(ZeroDivision);
      }
      table := CountVote(table, ranked[i], rank, k, done + votes[..i]);
      assert done + votes[..i + 1] == done + votes[..i] + [Vote(ranked[i], rank)];
    }
    assert votes[..|ranked|] == votes;
    return Ok(table);
  }

  /** The loop over both lists that the two implementations share. */
  method Tally(vector: seq<Hit>, keyword: seq<Hit>, k: int) returns (r: Result<Table, Error>)
    ensures r.Err? <==> Divides(|vector|, k) || Divides(|keyword|, k)
    ensures r.Ok? ==> TableOf(AllVotes(vector, keyword), k, r.value)
  {
    SortMembers(vector, ByScore);
    SortMembers(keyword, ByScore);
    r := AddList(Table([], map[], map[]), SortDesc(vector, ByScore), k, []);
    assert [] + Votes(SortDesc(vector, ByScore)) == Votes(SortDesc(vector, ByScore));
    if r.Ok? {
      r := AddList(r.value, SortDesc(keyword, ByScore), k, Votes(SortDesc(vector, ByScore)));
    }
  }

  /** Position by position: the hit that was first seen under the key, with its fused score and its rank; its
      source is kept, or replaced by a label. */
  ghost predicate IsFused(vector: seq<Hit>, keyword: seq<Hit>, topK: int, k: int, tag: Option<Source>, out: seq<Hit>) {
    var votes := AllVotes(vector, keyword);
    var ids := Ranking(vector, keyword, topK, k);
    && |out| == |ids|
    && forall i :: 0 <= i < |ids| ==>
         && ids[i] in FirstHits(votes)
         && var first := FirstHits(votes)[ids[i]];
            out[i] == Hit(ids[i], first.document, first.index, Total(votes, k, ids[i]),
                          if tag.Some? then tag.value else first.source, i + 1)
  }

  /** The keys of the result, best first, with everything the result needs in the table. */
  method BestKeys(vector: seq<Hit>, keyword: seq<Hit>, topK: int, k: int, t: Table) returns (ids: seq<Id>)
    requires TableOf(AllVotes(vector, keyword), k, t)
    ensures ids == Ranking(vector, keyword, topK, k)
    ensures forall c <- ids :: c in t.scores && c in t.hits
  {
    LookupSorts(AllVotes(vector, keyword), k, t);
    ids := Slice(SortDesc(t.order, Lookup(t.scores)), topK);
  }

  const RRF_K := 60

  /** `RRFFusionStage._execute`: a loop that appends, and keeps the source of each hit. */
  method Execute(vector: seq<Hit>, keyword: seq<Hit>, topK: int) returns (fused: seq<Hit>)
    ensures IsFused(vector, keyword, topK, RRF_K, None, fused)
  {
    var tallied := Tally(vector, keyword, RRF_K);
    var t := tallied.value;
    var ids := BestKeys(vector, keyword, topK, RRF_K, t);
    SeenTogether(AllVotes(vector, keyword));
    fused := [];
    for rank := 1 to |ids| + 1
      invariant |fused| == rank - 1
      invariant forall i :: 0 <= i < |fused| ==> fused[i] == t.hits[ids[i]].(score := t.scores[ids[i]], rank := i + 1)
    {
      var c := ids[rank - 1];
      var hit := t.hits[c];
      fused := fused + [Hit(hit.chunk, hit.document, hit.index, t.scores[c], hit.source, rank)];
    }
  }

  /** `_rrf_fuse`: every hit is labelled as fused, and the constant is the caller's. */
  method RrfFuse(vector: seq<Hit>, keyword: seq<Hit>, topK: int, k: int) returns (r: Result<seq<Hit>, Error>)
    ensures r.Err? <==> Divides(|vector|, k) || Divides(|keyword|, k)
    ensures r.Ok? ==> IsFused(vector, keyword, topK, k, Some(Rrf), r.value)
  {
    var tallied := Tally(vector, keyword, k);
    if tallied.Err? {
      return Err(tallied.error);
    }
    var t := tallied.value;
    var ids := BestKeys(vector, keyword, topK, k, t);
    SeenTogether(AllVotes(vector, keyword));
    var fused := seq(|ids|, i requires 0 <= i < |ids| && ids[i] in t.hits && ids[i] in t.scores =>
      var h := t.hits[ids[i]];
      Hit(ids[i], h.document, h.index, t.scores[ids[i]], Rrf, i + 1));
    return Ok(fused);
  }

  /** With the constant 60 the two implementations agree on everything but the label of the source. */
  lemma ImplementationsAgree(vector: seq<Hit>, keyword: seq<Hit>, topK: int, a: seq<Hit>, b: seq<Hit>)
    requires IsFused(vector, keyword, topK, RRF_K, None, a) && IsFused(vector, keyword, topK, 60, Some(Rrf), b)
    ensures |a| == |b| && forall i :: 0 <= i < |a| ==> a[i].(source := Rrf) == b[i]
  {
  }
}
