/** What a fused result list promises, whichever implementation produced it. */
module FusionProperties {
  import opened Common
  import opened Fusion

  // ---------- Keys stay distinct ----------

  function ChunkOf(h: Hit): Id { h.chunk }

  function Self(c: Id): Id { c }

  ghost predicate Distinct<T(!new)>(s: seq<T>, name: T -> Id) {
    forall i, j :: 0 <= i < j < |s| ==> name(s[i]) != name(s[j])
  }

  lemma {:induction false} InsertDistinct<T(!new)>(s: seq<T>, x: T, key: T -> real, name: T -> Id)
    requires Distinct(s, name) && forall i :: 0 <= i < |s| ==> name(s[i]) != name(x)
    ensures Distinct(Insert(s, x, key), name)
  {
    if s != [] && key(s[|s| - 1]) < key(x) {
      var rest, last := s[..|s| - 1], s[|s| - 1];
      InsertDistinct(rest, x, key, name);
      InsertContents(rest, x, key);
      var t := Insert(rest, x, key);
      forall i | 0 <= i < |t| ensures name(t[i]) != name(last) {
        assert t[i] in multiset(t);
        assert t[i] == x || t[i] in rest;
      }
    }
  }

  lemma {:induction false} SortDistinct<T(!new)>(s: seq<T>, key: T -> real, name: T -> Id)
    requires Distinct(s, name)
    ensures Distinct(SortDesc(s, key), name)
  {
    if s != [] {
      var rest := s[..|s| - 1];
      SortDistinct(rest, key, name);
      SortMembers(rest, key);
      var t := SortDesc(rest, key);
      forall i | 0 <= i < |t| ensures name(t[i]) != name(s[|s| - 1]) {
        assert t[i] in rest;
      }
      InsertDistinct(t, s[|s| - 1], key, name);
    }
  }

  lemma {:induction false} FirstSeenDistinct(votes: seq<Vote>)
    ensures Distinct(FirstSeen(votes), Self)
  {
    if votes != [] {
      FirstSeenDistinct(votes[..|votes| - 1]);
    }
  }

  function Chunks(list: seq<Hit>): set<Id> {
    set h <- list :: h.chunk
  }

  function Voted(votes: seq<Vote>): set<Id> {
    set v <- votes :: v.hit.chunk
  }

  lemma {:induction false} FirstSeenIsVoted(votes: seq<Vote>)
    ensures forall c :: c in FirstSeen(votes) <==> c in Voted(votes)
    ensures |FirstSeen(votes)| == |Voted(votes)|
  {
    if votes != [] {
      var rest, last := votes[..|votes| - 1], votes[|votes| - 1];
      FirstSeenIsVoted(rest);
      assert votes == rest + [last];
      assert Voted(votes) == Voted(rest) + {last.hit.chunk};
      assert last.hit.chunk in FirstSeen(rest) ==> Voted(votes) == Voted(rest);
    }
  }

  lemma VotedIsUnion(vector: seq<Hit>, keyword: seq<Hit>)
    ensures Voted(AllVotes(vector, keyword)) == Chunks(vector) + Chunks(keyword)
  {
    VotedOnce(vector);
    VotedOnce(keyword);
    var a, b := Votes(SortDesc(vector, ByScore)), Votes(SortDesc(keyword, ByScore));
    assert Voted(a + b) == Voted(a) + Voted(b);
  }

  lemma VotedOnce(list: seq<Hit>)
    ensures Voted(Votes(SortDesc(list, ByScore))) == Chunks(list)
  {
    SortMembers(list, ByScore);
    var ranked := SortDesc(list, ByScore);
    forall h <- list ensures h.chunk in Voted(Votes(ranked)) {
      assert h in ranked;
      var i :| 0 <= i < |ranked| && ranked[i] == h;
      assert Votes(ranked)[i].hit == h;
    }
  }

  // ---------- Scores ----------

  lemma {:induction false} TotalOfBoth(a: seq<Vote>, b: seq<Vote>, k: int, c: Id)
    ensures Total(a + b, k, c) == Total(a, k, c) + Total(b, k, c)
  {
    if b == [] {
      assert a + b == a;
    } else {
      assert (a + b)[..|a + b| - 1] == a + b[..|b| - 1];
      TotalOfBoth(a, b[..|b| - 1], k, c);
    }
  }

  /** The share one list gives a key: the reciprocal of `k` plus its rank there, nothing when it is absent. */
  ghost predicate IsShare(list: seq<Hit>, k: int, c: Id, share: real) {
    var ranked := SortDesc(list, ByScore);
    if c in Chunks(list) then exists r :: 0 <= r < |ranked| && ranked[r].chunk == c && Reciprocal(share, k + r + 1)
    else share == 0.0
  }

  predicate Reciprocal(share: real, d: int) {
    d != 0 ==> share * d as real == 1.0
  }

  lemma WeightIsReciprocal(d: int)
    ensures Reciprocal(Weight(d), d)
  {
  }

  lemma {:induction false} TotalOfList(ranked: seq<Hit>, k: int, c: Id)
    requires Distinct(ranked, ChunkOf)
    ensures forall r :: 0 <= r < |ranked| && ranked[r].chunk == c ==> Total(Votes(ranked), k, c) == Weight(k + r + 1)
    ensures (forall r :: 0 <= r < |ranked| ==> ranked[r].chunk != c) ==> Total(Votes(ranked), k, c) == 0.0
  {
    if ranked != [] {
      var n := |ranked| - 1;
      assert Votes(ranked)[..n] == Votes(ranked[..n]);
      forall i, j | 0 <= i < j < n ensures ChunkOf(ranked[..n][i]) != ChunkOf(ranked[..n][j]) {
        assert ChunkOf(ranked[i]) != ChunkOf(ranked[j]);
      }
      TotalOfList(ranked[..n], k, c);
      forall r | 0 <= r < n ensures ranked[r].chunk != ranked[n].chunk && ranked[..n][r] == ranked[r] {
        assert ChunkOf(ranked[r]) != ChunkOf(ranked[n]);
      }
    }
  }

  lemma ShareOfList(list: seq<Hit>, k: int, c: Id)
    requires Distinct(list, ChunkOf)
    ensures IsShare(list, k, c, Total(Votes(SortDesc(list, ByScore)), k, c))
  {
    var ranked := SortDesc(list, ByScore);
    SortDistinct(list, ByScore, ChunkOf);
    SortMembers(list, ByScore);
    TotalOfList(ranked, k, c);
    if c in Chunks(list) {
      var h :| h in list && h.chunk == c;
      assert h in ranked;
      var r :| 0 <= r < |ranked| && ranked[r] == h;
      WeightIsReciprocal(k + r + 1);
    } else {
      forall r | 0 <= r < |ranked| ensures ranked[r].chunk != c {
        assert ranked[r] in list;
      }
    }
  }

  // ---------- The result ----------

  /** How many of `n` elements `s[:k]` keeps. */
  function Kept(k: int, n: nat): int {
    if k >= n then n else if k >= 0 then k else if n + k >= 0 then n + k else 0
  }

  /** All keys, best first. */
  function AllKeys(vector: seq<Hit>, keyword: seq<Hit>, k: int): seq<Id> {
    SortDesc(FirstSeen(AllVotes(vector, keyword)), ScoreOf(AllVotes(vector, keyword), k))
  }

  lemma AllKeysShape(vector: seq<Hit>, keyword: seq<Hit>, k: int)
    ensures var all := AllKeys(vector, keyword, k);
            && Distinct(all, Self) && Descending(all, ScoreOf(AllVotes(vector, keyword), k))
            && (forall c :: c in all <==> c in Chunks(vector) + Chunks(keyword))
            && |all| == |Chunks(vector) + Chunks(keyword)|
  {
    var votes := AllVotes(vector, keyword);
    var key := ScoreOf(votes, k);
    FirstSeenDistinct(votes);
    SortDistinct(FirstSeen(votes), key, Self);
    SortDescends(FirstSeen(votes), key);
    SortMembers(FirstSeen(votes), key);
    FirstSeenIsVoted(votes);
    VotedIsUnion(vector, keyword);
  }

  lemma SliceIsPrefix<T>(s: seq<T>, k: int)
    ensures Slice(s, k) <= s && |Slice(s, k)| == Kept(k, |s|)
  {
  }

  /** Distinct keys of the two lists, as many as asked for, with ranks 1, 2, ... and scores that never rise; no
      key that is left out scores more than one that is kept. */
  lemma FusedShape(vector: seq<Hit>, keyword: seq<Hit>, topK: int, k: int, tag: Option<Source>, out: seq<Hit>)
    requires IsFused(vector, keyword, topK, k, tag, out)
    ensures |out| == Kept(topK, |Chunks(vector) + Chunks(keyword)|)
    ensures forall i :: 0 <= i < |out| ==> out[i].rank == i + 1 && out[i].chunk in Chunks(vector) + Chunks(keyword)
    ensures forall i, j :: 0 <= i < j < |out| ==> out[i].chunk != out[j].chunk && out[i].score >= out[j].score
    ensures forall i, c :: 0 <= i < |out| && c in Chunks(vector) + Chunks(keyword) && c !in Chunks(out) ==>
              Total(AllVotes(vector, keyword), k, c) <= out[i].score
  {
    var votes := AllVotes(vector, keyword);
    var key := ScoreOf(votes, k);
    var all := AllKeys(vector, keyword, k);
    var ids := Ranking(vector, keyword, topK, k);
    AllKeysShape(vector, keyword, k);
    SliceIsPrefix(all, topK);
    SeenTogether(votes);
    forall i | 0 <= i < |out|
      ensures out[i].chunk == all[i] && out[i].score == key(all[i]) && all[i] in Chunks(vector) + Chunks(keyword)
    {
      assert ids[i] == all[i] && all[i] in all;
    }
    forall i, j | 0 <= i < j < |out| ensures out[i].chunk != out[j].chunk && out[i].score >= out[j].score {
      assert Self(all[i]) != Self(all[j]);
    }
    forall i, c | 0 <= i < |out| && c in Chunks(vector) + Chunks(keyword) && c !in Chunks(out)
      ensures Total(votes, k, c) <= out[i].score
    {
      assert c in all;
      var j :| 0 <= j < |all| && all[j] == c;
      assert j >= |out| by {
        forall x | 0 <= x < |out| ensures out[x].chunk in Chunks(out) {
          assert out[x] in out;
        }
      }
      assert key(all[i]) >= key(all[j]);
    }
  }

  /** On lists without duplicates each score is the sum of the shares of both lists. */
  lemma FusedScores(vector: seq<Hit>, keyword: seq<Hit>, topK: int, k: int, tag: Option<Source>, out: seq<Hit>, i: nat)
    returns (v: real, w: real)
    requires IsFused(vector, keyword, topK, k, tag, out) && Distinct(vector, ChunkOf) && Distinct(keyword, ChunkOf)
             && i < |out|
    ensures out[i].score == v + w && IsShare(vector, k, out[i].chunk, v) && IsShare(keyword, k, out[i].chunk, w)
  {
    SeenTogether(AllVotes(vector, keyword));
    var c := out[i].chunk;
    v := Total(Votes(SortDesc(vector, ByScore)), k, c);
    w := Total(Votes(SortDesc(keyword, ByScore)), k, c);
    TotalOfBoth(Votes(SortDesc(vector, ByScore)), Votes(SortDesc(keyword, ByScore)), k, c);
    ShareOfList(vector, k, c);
    ShareOfList(keyword, k, c);
  }

  // ---------- Which hit stands for a key, and ties ----------

  lemma {:induction false} FirstHitIsLeast(votes: seq<Vote>, c: Id) returns (j: nat)
    requires c in FirstHits(votes)
    ensures j < |votes| && votes[j].hit.chunk == c && FirstHits(votes)[c] == votes[j].hit
    ensures forall q :: 0 <= q < j ==> votes[q].hit.chunk != c
  {
    var n := |votes| - 1;
    var rest := votes[..n];
    if c in FirstHits(rest) {
      j := FirstHitIsLeast(rest, c);
      forall q | 0 <= q < j ensures votes[q].hit.chunk != c {
        assert rest[q] == votes[q];
      }
    } else {
      j := n;
      FirstSeenIsVoted(rest);
      SeenTogether(rest);
      forall q | 0 <= q < n ensures votes[q].hit.chunk != c {
        assert rest[q] == votes[q] && rest[q] in rest;
      }
    }
  }

  /** The best ranked hit of a list under the key. */
  ghost predicate FirstAt(list: seq<Hit>, c: Id, r: nat) {
    var ranked := SortDesc(list, ByScore);
    r < |ranked| && ranked[r].chunk == c && forall q :: 0 <= q < r ==> ranked[q].chunk != c
  }

  /** The vote that is the first of its key. */
  ghost predicate FirstVote(votes: seq<Vote>, j: nat, c: Id) {
    j < |votes| && votes[j].hit.chunk == c && forall q :: 0 <= q < j ==> votes[q].hit.chunk != c
  }

  lemma FirstOfTwo(a: seq<Vote>, b: seq<Vote>, j: nat, c: Id)
    requires FirstVote(a + b, j, c)
    ensures if j < |a| then FirstVote(a, j, c) && (a + b)[j] == a[j]
            else
              && FirstVote(b, j - |a|, c) && (a + b)[j] == b[j - |a|]
              && forall q :: 0 <= q < |a| ==> a[q].hit.chunk != c
  {
    forall q | 0 <= q < |a| ensures (a + b)[q] == a[q] {
    }
    forall q | 0 <= q < |b| ensures (a + b)[|a| + q] == b[q] {
    }
  }

  lemma FirstInList(list: seq<Hit>, r: nat, c: Id)
    requires FirstVote(Votes(SortDesc(list, ByScore)), r, c)
    ensures c in Chunks(list) && FirstAt(list, c, r)
    ensures Votes(SortDesc(list, ByScore))[r].hit == SortDesc(list, ByScore)[r]
  {
    var ranked := SortDesc(list, ByScore);
    SortMembers(list, ByScore);
    assert ranked[r] in ranked;
    forall q | 0 <= q < r ensures ranked[q].chunk != c {
      assert Votes(ranked)[q].hit == ranked[q];
    }
  }

  lemma NotInList(list: seq<Hit>, c: Id)
    requires forall q :: 0 <= q < |Votes(SortDesc(list, ByScore))| ==> Votes(SortDesc(list, ByScore))[q].hit.chunk != c
    ensures c !in Chunks(list)
  {
    var ranked := SortDesc(list, ByScore);
    SortMembers(list, ByScore);
    forall h <- list ensures h.chunk != c {
      var q :| 0 <= q < |ranked| && ranked[q] == h;
      assert Votes(ranked)[q].hit == h;
    }
  }

  lemma FirstHitOfVotes(vector: seq<Hit>, keyword: seq<Hit>, a: seq<Vote>, b: seq<Vote>, j: nat, c: Id) returns (r: nat)
    requires a == Votes(SortDesc(vector, ByScore)) && b == Votes(SortDesc(keyword, ByScore)) && FirstVote(a + b, j, c)
    ensures var list := if c in Chunks(vector) then vector else keyword;
            FirstAt(list, c, r) && (a + b)[j].hit == SortDesc(list, ByScore)[r]
  {
    FirstOfTwo(a, b, j, c);
    if j < |a| {
      r := j;
      FirstInList(vector, r, c);
    } else {
      r := j - |a|;
      NotInList(vector, c);
      FirstInList(keyword, r, c);
    }
  }

  lemma FirstHitOfBoth(vector: seq<Hit>, keyword: seq<Hit>, c: Id) returns (r: nat)
    requires c in FirstHits(AllVotes(vector, keyword))
    ensures var list := if c in Chunks(vector) then vector else keyword;
            FirstAt(list, c, r) && FirstHits(AllVotes(vector, keyword))[c] == SortDesc(list, ByScore)[r]
  {
    var votes := AllVotes(vector, keyword);
    var j := FirstHitIsLeast(votes, c);
    r := FirstHitOfVotes(vector, keyword, Votes(SortDesc(vector, ByScore)), Votes(SortDesc(keyword, ByScore)), j, c);
  }

  /** A chunk that both lists found is shown as the vector list found it, with the source of that list; what only
      the keyword list found as that list found it. */
  lemma FusedHits(vector: seq<Hit>, keyword: seq<Hit>, topK: int, k: int, tag: Option<Source>, out: seq<Hit>, i: nat)
    returns (r: nat)
    requires IsFused(vector, keyword, topK, k, tag, out) && i < |out|
    ensures var list := if out[i].chunk in Chunks(vector) then vector else keyword;
            && FirstAt(list, out[i].chunk, r)
            && var h := SortDesc(list, ByScore)[r];
               && out[i].document == h.document && out[i].index == h.index
               && out[i].source == if tag.Some? then tag.value else h.source
  {
    SeenTogether(AllVotes(vector, keyword));
    r := FirstHitOfBoth(vector, keyword, out[i].chunk);
  }

  ghost predicate Before<T(!new)>(s: seq<T>, a: T, b: T) {
    exists p, q :: 0 <= p < q < |s| && s[p] == a && s[q] == b
  }

  lemma {:induction false} InsertStable<T(!new)>(s: seq<T>, x: T, key: T -> real, i: nat, j: nat)
    requires Descending(s, key) && i < j < |Insert(s, x, key)|
    requires var t := Insert(s, x, key); key(t[i]) == key(t[j])
    ensures var t := Insert(s, x, key); Before(s, t[i], t[j]) || (t[j] == x && t[i] in s)
  {
    var t := Insert(s, x, key);
    if s == [] || key(s[|s| - 1]) >= key(x) {
      assert t == s + [x];
      if j < |s| {
        assert t[i] == s[i] && t[j] == s[j];
      }
    } else {
      var rest, last := s[..|s| - 1], s[|s| - 1];
      var u := Insert(rest, x, key);
      InsertDescending(rest, x, key);
      InsertContents(rest, x, key);
      assert |u| == |multiset(u)| == |multiset(rest)| + 1 == |s|;
      if j < |u| {
        InsertStable(rest, x, key, i, j);
        if Before(rest, u[i], u[j]) {
          var p, q :| 0 <= p < q < |rest| && rest[p] == u[i] && rest[q] == u[j];
          assert s[p] == u[i] && s[q] == u[j];
        }
      } else {
        assert u[i] in multiset(u);
        assert u[i] == x || u[i] in rest;
        if u[i] in rest {
          var p :| 0 <= p < |rest| && rest[p] == u[i];
          assert s[p] == u[i] && s[|s| - 1] == t[j];
        }
      }
    }
  }

  /** Elements of equal key stand in a sorted list as they stood before. */
  lemma {:induction false} SortStable<T(!new)>(s: seq<T>, key: T -> real, i: nat, j: nat)
    requires i < j < |SortDesc(s, key)| && key(SortDesc(s, key)[i]) == key(SortDesc(s, key)[j])
    ensures Before(s, SortDesc(s, key)[i], SortDesc(s, key)[j])
  {
    var rest, x := s[..|s| - 1], s[|s| - 1];
    var t, u := SortDesc(s, key), SortDesc(rest, key);
    SortDescends(rest, key);
    SortMembers(rest, key);
    InsertStable(u, x, key, i, j);
    if Before(u, t[i], t[j]) {
      var p, q :| 0 <= p < q < |u| && u[p] == t[i] && u[q] == t[j];
      SortStable(rest, key, p, q);
      var a, b :| 0 <= a < b < |rest| && rest[a] == t[i] && rest[b] == t[j];
      assert s[a] == t[i] && s[b] == t[j];
    } else {
      var a :| 0 <= a < |rest| && rest[a] == t[i];
      assert s[a] == t[i] && s[|s| - 1] == t[j];
    }
  }

  lemma {:induction false} SeenInOrder(votes: seq<Vote>, p: nat, q: nat, a: nat, b: nat)
    requires p < q < |FirstSeen(votes)|
    requires FirstVote(votes, a, FirstSeen(votes)[p]) && FirstVote(votes, b, FirstSeen(votes)[q])
    ensures a < b
  {
    var n := |votes| - 1;
    var rest := votes[..n];
    var seen := FirstSeen(rest);
    FirstSeenIsVoted(rest);
    if q < |seen| {
      SeenAmong(rest, seen[p]);
      SeenAmong(rest, seen[q]);
      assert a < n && b < n;
      assert FirstVote(rest, a, seen[p]) && FirstVote(rest, b, seen[q]);
      SeenInOrder(rest, p, q, a, b);
    } else {
      SeenAmong(rest, seen[p]);
      assert a < n;
      forall x | 0 <= x < n ensures votes[x].hit.chunk in seen {
        assert rest[x] in rest && rest[x].hit.chunk in Voted(rest);
      }
      assert votes[n].hit.chunk !in seen && b == n;
    }
  }

  lemma SeenAmong(votes: seq<Vote>, c: Id)
    requires c in FirstSeen(votes)
    ensures exists j :: 0 <= j < |votes| && votes[j].hit.chunk == c
  {
    FirstSeenIsVoted(votes);
    var v :| v in votes && v.hit.chunk == c;
    var j :| 0 <= j < |votes| && votes[j] == v;
  }

  /** Of two keys with the same score the one that was voted for first comes first: vector hits by rank, then the
      keyword hits. */
  lemma FusedTies(vector: seq<Hit>, keyword: seq<Hit>, topK: int, k: int, tag: Option<Source>, out: seq<Hit>,
                  i: nat, j: nat, a: nat, b: nat)
    requires IsFused(vector, keyword, topK, k, tag, out) && i < j < |out| && out[i].score == out[j].score
    requires FirstVote(AllVotes(vector, keyword), a, out[i].chunk)
             && FirstVote(AllVotes(vector, keyword), b, out[j].chunk)
    ensures a < b
  {
    var votes := AllVotes(vector, keyword);
    var key := ScoreOf(votes, k);
    var all := AllKeys(vector, keyword, k);
    SliceIsPrefix(all, topK);
    assert all[i] == out[i].chunk && all[j] == out[j].chunk;
    SortStable(FirstSeen(votes), key, i, j);
    var p, q :| 0 <= p < q < |FirstSeen(votes)| && FirstSeen(votes)[p] == all[i] && FirstSeen(votes)[q] == all[j];
    SeenInOrder(votes, p, q, a, b);
  }

  // ---------- Dominance ----------

  /** Wherever `e` is ranked, `d` is ranked above it. */
  ghost predicate Above(list: seq<Hit>, d: Id, e: Id) {
    var ranked := SortDesc(list, ByScore);
    forall j :: 0 <= j < |ranked| && ranked[j].chunk == e ==> exists i :: 0 <= i < j && ranked[i].chunk == d
  }

  lemma ReciprocalOrder(a: int, b: int)
    requires 0 < a < b
    ensures Weight(a) > Weight(b) > 0.0
  {
    WeightIsInverse(a);
    WeightIsInverse(b);
    var x, y := Weight(a), Weight(b);
    if x <= y {
      ProductOrder(x, y, b as real);
      ProductOrder(a as real, b as real, x);
      assert x * (b as real - a as real) > 0.0;
    }
  }

  lemma ProductOrder(x: real, y: real, z: real)
    requires x <= y && z > 0.0
    ensures x * z <= y * z && (x < y ==> x * z < y * z)
  {
  }

  lemma WeightIsInverse(d: int)
    requires d > 0
    ensures Weight(d) > 0.0 && Weight(d) * d as real == 1.0
  {
  }

  lemma HigherRankScoresMore(ranked: seq<Hit>, k: nat, i: nat, j: nat)
    requires Distinct(ranked, ChunkOf) && i < j < |ranked|
    ensures Total(Votes(ranked), k, ranked[i].chunk) > Total(Votes(ranked), k, ranked[j].chunk) > 0.0
  {
    TotalOfList(ranked, k, ranked[i].chunk);
    TotalOfList(ranked, k, ranked[j].chunk);
    ReciprocalOrder(k + i + 1, k + j + 1);
  }

  lemma {:induction false} TotalNotNegative(votes: seq<Vote>, k: nat, c: Id)
    requires forall v <- votes :: v.rank > 0
    ensures Total(votes, k, c) >= 0.0
  {
    if votes != [] {
      TotalNotNegative(votes[..|votes| - 1], k, c);
      assert votes[|votes| - 1] in votes;
      WeightIsInverse(k + votes[|votes| - 1].rank);
    }
  }

  lemma ShareAbove(list: seq<Hit>, k: nat, d: Id, e: Id)
    requires Distinct(list, ChunkOf) && Above(list, d, e)
    ensures var votes := Votes(SortDesc(list, ByScore));
            if e in Chunks(list) then Total(votes, k, d) > Total(votes, k, e)
            else Total(votes, k, d) >= Total(votes, k, e)
  {
    var ranked := SortDesc(list, ByScore);
    ShareOfList(list, k, e);
    if e in Chunks(list) {
      var j :| 0 <= j < |ranked| && ranked[j].chunk == e;
      var i :| 0 <= i < j && ranked[i].chunk == d;
      SortDistinct(list, ByScore, ChunkOf);
      HigherRankScoresMore(ranked, k, i, j);
    } else {
      TotalNotNegative(Votes(ranked), k, d);
    }
  }

  lemma DominantScore(vector: seq<Hit>, keyword: seq<Hit>, k: nat, d: Id, e: Id)
    requires Distinct(vector, ChunkOf) && Distinct(keyword, ChunkOf) && e in Chunks(vector) + Chunks(keyword)
    requires Above(vector, d, e) && Above(keyword, d, e)
    ensures d in Chunks(vector) + Chunks(keyword)
    ensures Total(AllVotes(vector, keyword), k, d) > Total(AllVotes(vector, keyword), k, e)
  {
    var a, b := Votes(SortDesc(vector, ByScore)), Votes(SortDesc(keyword, ByScore));
    ShareAbove(vector, k, d, e);
    ShareAbove(keyword, k, d, e);
    TotalOfBoth(a, b, k, d);
    TotalOfBoth(a, b, k, e);
    if d !in Chunks(vector) + Chunks(keyword) {
      AbsentTotal(vector, keyword, k, d);
      TotalNotNegative(a + b, k, e);
    }
  }

  /** A key that is ranked above another in every list that has the other precedes it in the fused list. */
  lemma DominanceIsKept(vector: seq<Hit>, keyword: seq<Hit>, topK: int, k: nat, tag: Option<Source>, out: seq<Hit>,
                        d: Id, j: nat)
    requires IsFused(vector, keyword, topK, k, tag, out) && Distinct(vector, ChunkOf) && Distinct(keyword, ChunkOf)
    requires j < |out| && Above(vector, d, out[j].chunk) && Above(keyword, d, out[j].chunk)
    ensures exists i :: 0 <= i < j && out[i].chunk == d
  {
    var votes := AllVotes(vector, keyword);
    FusedShape(vector, keyword, topK, k, tag, out);
    DominantScore(vector, keyword, k, d, out[j].chunk);
    SeenTogether(votes);
    assert out[j].score == Total(votes, k, out[j].chunk);
    assert d in Chunks(out);
    var h :| h in out && h.chunk == d;
    var i :| 0 <= i < |out| && out[i] == h;
    assert out[i].score == Total(votes, k, d);
  }

  lemma AbsentTotal(vector: seq<Hit>, keyword: seq<Hit>, k: int, c: Id)
    requires c !in Chunks(vector) + Chunks(keyword)
    ensures Total(AllVotes(vector, keyword), k, c) == 0.0
  {
    var votes := AllVotes(vector, keyword);
    VotedIsUnion(vector, keyword);
    FirstSeenIsVoted(votes);
    SeenTogether(votes);
    UnseenTotal(votes, k, c);
  }
}
