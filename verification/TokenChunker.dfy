/** `_split_text` as it runs, and what its chunks promise. */
module TokenChunker {
  import opened Text
  import opened SplitText

  function Chunk(cut: Cut): string {
    Join(Pieces(cut), "\n\n")
  }

  function Render(plan: seq<Cut>): (r: seq<string>)
    ensures |r| == |plan| && forall i :: 0 <= i < |r| ==> r[i] == Chunk(plan[i])
  {
    seq(|plan|, i requires 0 <= i < |plan| => Chunk(plan[i]))
  }

  /** The plan of a whole text. */
  function PlanOf(text: string, c: Config): seq<Cut> {
    Plan(Atoms(Paragraphs(text), c.cost, c.size), c)
  }

  // ---------- Sums and suffixes ----------

  lemma {:induction false} SumAppend(a: seq<string>, b: seq<string>, cost: Cost)
    ensures Sum(a + b, cost) == Sum(a, cost) + Sum(b, cost)
  {
    if b == [] {
      assert a + b == a;
    } else {
      assert (a + b)[..|a + b| - 1] == a + b[..|b| - 1];
      SumAppend(a, b[..|b| - 1], cost);
    }
  }

  /** `Tail` is the longest suffix whose tokens fit the budget; no longer one does. */
  lemma {:induction false} TailIsLongest(parts: seq<string>, budget: int, cost: Cost) returns (n: nat)
    ensures n <= |parts| && Tail(parts, budget, cost) == parts[n..]
    ensures n < |parts| ==> Sum(parts[n..], cost) <= budget
    ensures forall m :: 0 <= m < n ==> Sum(parts[m..], cost) > budget
  {
    n := |parts|;
    if parts != [] {
      var last, rest := parts[|parts| - 1], parts[..|parts| - 1];
      if cost(last) <= budget {
        n := TailIsLongest(rest, budget - cost(last), cost);
        assert parts[n..] == rest[n..] + [last];
        SumAppend(rest[n..], [last], cost);
        assert Sum([last], cost) == cost(last);
        forall m | 0 <= m < n ensures Sum(parts[m..], cost) > budget {
          assert parts[m..] == rest[m..] + [last];
        }
      } else {
        forall m | 0 <= m < n ensures Sum(parts[m..], cost) > budget {
          assert parts[m..][|parts[m..]| - 1] == last;
        }
      }
    }
  }

  lemma SumOne(p: string, cost: Cost)
    ensures Sum([p], cost) == cost(p)
  {
  }

  // ---------- The loops ----------

  /** The overlap: from the end, as long as the budget holds. */
  method Overlap(current: seq<string>, budget: int, cost: Cost) returns (tail: seq<string>, tokens: nat)
    ensures tail == Tail(current, budget, cost) && tokens == Sum(tail, cost)
  {
    tail, tokens := [], 0;
    var i := |current|;
    assert current[..i] == current;
    while i > 0
      invariant 0 <= i <= |current| && tokens == Sum(tail, cost)
      invariant Tail(current, budget, cost) == Tail(current[..i], budget - tokens, cost) + tail
    {
      i := i - 1;
      var p := current[i];
      assert current[..i + 1][..i] == current[..i] && current[..i + 1][i] == p;
      if tokens + cost(p) > budget {
        return;
      }
      SumAppend([p], tail, cost);
      SumOne(p, cost);
      tail := [p] + tail;
      tokens := tokens + cost(p);
    }
  }

  /** Chunks for all but the last cut, whose pieces are still waiting. */
  ghost predicate Waiting(plan: seq<Cut>, chunks: seq<string>, current: seq<string>, tokens: int, c: Config) {
    && plan != [] && plan[|plan| - 1].added != []
    && chunks == Render(plan[..|plan| - 1]) && current == Pieces(plan[|plan| - 1]) && tokens == Sum(current, c.cost)
  }

  /** Chunks for all cuts, nothing waiting. */
  ghost predicate Flushed(plan: seq<Cut>, chunks: seq<string>, current: seq<string>, tokens: int) {
    chunks == Render(plan) && current == [] && tokens == 0 && (plan != [] ==> plan[|plan| - 1].added != [])
  }

  lemma {:induction false} FlushStep(plan: seq<Cut>, chunks: seq<string>, current: seq<string>, tokens: int, c: Config)
    requires Waiting(plan, chunks, current, tokens, c)
    ensures Flushed(plan, chunks + [Join(current, "\n\n")], [], 0)
  {
    assert Render(plan) == Render(plan[..|plan| - 1]) + [Chunk(plan[|plan| - 1])];
  }

  lemma {:induction false} NewCut(plan: seq<Cut>, chunks: seq<string>, kept: seq<string>, a: Atom, c: Config)
    requires Flushed(plan, chunks, [], 0)
    ensures Waiting(plan + [Cut(kept, [a])], chunks, kept + [a.text], Sum(kept, c.cost) + c.cost(a.text), c)
  {
    var p := plan + [Cut(kept, [a])];
    assert p[..|p| - 1] == plan && Pieces(p[|p| - 1]) == kept + [a.text];
    SumAppend(kept, [a.text], c.cost);
    SumOne(a.text, c.cost);
  }

  /** The first atom, or the first sentence after a flush. */
  lemma {:induction false} StartStep(plan: seq<Cut>, chunks: seq<string>, a: Atom, c: Config)
    requires Flushed(plan, chunks, [], 0) && (plan == [] || a.kind == First)
    ensures Waiting(Extend(plan, a, c), chunks, [a.text], c.cost(a.text), c)
  {
    NewCut(plan, chunks, [], a, c);
    assert Extend(plan, a, c) == plan + [Cut([], [a])];
    assert [] + [a.text] == [a.text];
  }

  lemma {:induction false} JoinStep(plan: seq<Cut>, chunks: seq<string>, current: seq<string>, tokens: int, a: Atom,
                                    c: Config)
    requires Waiting(plan, chunks, current, tokens, c) && !Starts(current, a, c)
    ensures Waiting(Extend(plan, a, c), chunks, current + [a.text], tokens + c.cost(a.text), c)
  {
    var last := plan[|plan| - 1];
    var p := Extend(plan, a, c);
    assert p[..|p| - 1] == plan[..|plan| - 1];
    assert Texts(last.added + [a]) == Texts(last.added) + [a.text];
    assert Pieces(p[|p| - 1]) == current + [a.text];
    SumAppend(current, [a.text], c.cost);
    SumOne(a.text, c.cost);
  }

  lemma {:induction false} CutStep(plan: seq<Cut>, chunks: seq<string>, current: seq<string>, tokens: int, a: Atom,
                                   kept: seq<string>, c: Config)
    requires Waiting(plan, chunks, current, tokens, c) && Starts(current, a, c) && kept == Carry(current, a, c)
    ensures Waiting(Extend(plan, a, c), chunks + [Join(current, "\n\n")], kept + [a.text],
                    Sum(kept, c.cost) + c.cost(a.text), c)
  {
    FlushStep(plan, chunks, current, tokens, c);
    NewCut(plan, chunks + [Join(current, "\n\n")], kept, a, c);
  }

  lemma {:induction false} PlanSnoc(atoms: seq<Atom>, a: Atom, c: Config)
    ensures Plan(atoms + [a], c) == Extend(Plan(atoms, c), a, c)
  {
    assert (atoms + [a])[..|atoms|] == atoms;
  }

  /** Chunks and waiting pieces are those of the plan of the atoms handled so far. */
  ghost predicate Holds(done: seq<Atom>, chunks: seq<string>, current: seq<string>, tokens: int, c: Config) {
    if current == [] then Flushed(Plan(done, c), chunks, current, tokens)
    else Waiting(Plan(done, c), chunks, current, tokens, c)
  }

  lemma {:induction false} Flush(done: seq<Atom>, chunks: seq<string>, current: seq<string>, tokens: int, c: Config)
    requires Holds(done, chunks, current, tokens, c) && current != []
    ensures Holds(done, chunks + [Join(current, "\n\n")], [], 0, c)
  {
    FlushStep(Plan(done, c), chunks, current, tokens, c);
  }

  /** One more atom: joined to the waiting pieces, or put after a cut behind what the cut keeps. */
  lemma {:induction false} Advance(done: seq<Atom>, chunks: seq<string>, current: seq<string>, tokens: int, a: Atom,
                                   kept: seq<string>, c: Config)
    requires Holds(done, chunks, current, tokens, c) && kept == Carry(current, a, c)
    requires if a.kind == First then current == [] else current == [] ==> done == []
    ensures if current != [] && tokens + c.cost(a.text) > c.size
            then Holds(done + [a], chunks + [Join(current, "\n\n")], kept + [a.text],
                       Sum(kept, c.cost) + c.cost(a.text), c)
            else Holds(done + [a], chunks, current + [a.text], tokens + c.cost(a.text), c)
  {
    var plan := Plan(done, c);
    PlanSnoc(done, a, c);
    if current == [] {
      StartStep(plan, chunks, a, c);
      assert current + [a.text] == [a.text];
    } else if tokens + c.cost(a.text) > c.size {
      CutStep(plan, chunks, current, tokens, a, kept, c);
    } else {
      JoinStep(plan, chunks, current, tokens, a, c);
    }
  }

  lemma {:induction false} AppendNext<T>(a: seq<T>, b: seq<T>, i: nat)
    requires i < |b|
    ensures a + b[..i + 1] == a + b[..i] + [b[i]]
  {
  }

  lemma {:induction false} AdvanceSentence(done: seq<Atom>, chunks: seq<string>, current: seq<string>, tokens: int,
                                           sent: string, first: bool, c: Config)
    requires Holds(done, chunks, current, tokens, c) && (current == [] <==> first)
    ensures var a := Atom(sent, if first then First else Next);
            if !first && tokens + c.cost(sent) > c.size
            then Holds(done + [a], chunks + [Join(current, "\n\n")], [] + [sent], 0 + c.cost(sent), c)
            else Holds(done + [a], chunks, current + [sent], tokens + c.cost(sent), c)
  {
    Advance(done, chunks, current, tokens, Atom(sent, if first then First else Next), [], c);
  }

  /** One sentence: put behind a cut when the waiting pieces leave no room. */
  method AddSentence(sent: string, first: bool, c: Config, chunks0: seq<string>, current0: seq<string>, tokens0: nat,
                     ghost done: seq<Atom>)
    returns (chunks: seq<string>, current: seq<string>, tokens: nat)
    requires Holds(done, chunks0, current0, tokens0, c) && (current0 == [] <==> first)
    ensures Holds(done + [Atom(sent, if first then First else Next)], chunks, current, tokens, c) && current != []
  {
    chunks, current, tokens := chunks0, current0, tokens0;
    AdvanceSentence(done, chunks, current, tokens, sent, first, c);
    var n := c.cost(sent);
    if tokens + n > c.size && current != [] {
      chunks := chunks + [Join(current, "\n\n")];
      current, tokens := [], 0;
    }
    current := current + [sent];
    tokens := tokens + n;
  }

  /** The sentences of one oversize paragraph. */
  method AddSentences(sentences: seq<string>, c: Config, chunks0: seq<string>, ghost before: seq<Atom>)
    returns (chunks: seq<string>, current: seq<string>, tokens: nat)
    requires sentences != [] && Holds(before, chunks0, [], 0, c)
    ensures Holds(before + SentenceAtoms(sentences), chunks, current, tokens, c) && current != []
  {
    ghost var atoms := SentenceAtoms(sentences);
    ghost var done := before;
    chunks, current, tokens := chunks0, [], 0;
    for i := 0 to |sentences|
      invariant done == before + atoms[..i] && (current == [] <==> i == 0)
      invariant Holds(done, chunks, current, tokens, c)
    {
      chunks, current, tokens := AddSentence(sentences[i], i == 0, c, chunks, current, tokens, done);
      AppendNext(before, atoms, i);
      done := done + [atoms[i]];
    }
    assert atoms[..|sentences|] == atoms;
  }

  lemma {:induction false} AdvanceWhole(done: seq<Atom>, chunks: seq<string>, current: seq<string>, tokens: int,
                                        para: string, tail: seq<string>, kept: int, c: Config)
    requires Holds(done, chunks, current, tokens, c) && (current == [] ==> done == [])
    requires tail == Tail(current, c.overlap, c.cost) && kept == Sum(tail, c.cost)
    ensures if tokens + c.cost(para) > c.size && current != []
            then Holds(done + [Atom(para, Whole)], chunks + [Join(current, "\n\n")], tail + [para],
                       kept + c.cost(para), c)
            else Holds(done + [Atom(para, Whole)], chunks, current + [para], tokens + c.cost(para), c)
  {
    Advance(done, chunks, current, tokens, Atom(para, Whole), tail, c);
  }

  /** A paragraph that fits: joined, or put behind a cut and an overlap. */
  method AddWhole(para: string, c: Config, chunks0: seq<string>, current0: seq<string>, tokens0: nat,
                  ghost done: seq<Atom>)
    returns (chunks: seq<string>, current: seq<string>, tokens: nat)
    requires Holds(done, chunks0, current0, tokens0, c) && (current0 == [] ==> done == [])
    ensures Holds(done + [Atom(para, Whole)], chunks, current, tokens, c) && current != []
  {
    chunks, current, tokens := chunks0, current0, tokens0;
    ghost var tail := Tail(current, c.overlap, c.cost);
    AdvanceWhole(done, chunks, current, tokens, para, tail, Sum(tail, c.cost), c);
    var n := c.cost(para);
    if tokens + n > c.size && current != [] {
      chunks := chunks + [Join(current, "\n\n")];
      current, tokens := Overlap(current, c.overlap, c.cost);
    }
    current := current + [para];
    tokens := tokens + n;
  }

  /** One paragraph: by sentences when it is too long, otherwise whole. */
  method AddParagraph(para: string, c: Config, chunks0: seq<string>, current0: seq<string>, tokens0: nat,
                      ghost done: seq<Atom>)
    returns (chunks: seq<string>, current: seq<string>, tokens: nat)
    requires Holds(done, chunks0, current0, tokens0, c) && (current0 == [] ==> done == [])
    ensures Holds(done + ParagraphAtoms(para, c.cost, c.size), chunks, current, tokens, c) && current != []
  {
    chunks, current, tokens := chunks0, current0, tokens0;
    if c.cost(para) > c.size {
      if current != [] {
        Flush(done, chunks, current, tokens, c);
        chunks := chunks + [Join(current, "\n\n")];
        current, tokens := [], 0;
      }
      chunks, current, tokens := AddSentences(Sentences(para), c, chunks, done);
    } else {
      chunks, current, tokens := AddWhole(para, c, chunks, current, tokens, done);
    }
  }

  /** The atoms of the first `i` paragraphs. */
  ghost predicate AtomsUpTo(paragraphs: seq<string>, i: nat, done: seq<Atom>, c: Config) {
    i <= |paragraphs| && done == Atoms(paragraphs[..i], c.cost, c.size)
  }

  lemma {:induction false} AtomsNext(paragraphs: seq<string>, i: nat, done: seq<Atom>, c: Config)
    requires AtomsUpTo(paragraphs, i, done, c) && i < |paragraphs|
    ensures AtomsUpTo(paragraphs, i + 1, done + ParagraphAtoms(paragraphs[i], c.cost, c.size), c)
  {
    AtomsSnoc(paragraphs, i, c);
  }

  lemma NothingWaits(paragraphs: seq<string>, c: Config)
    ensures AtomsUpTo(paragraphs, 0, [], c) && Holds([], [], [], 0, c)
  {
  }

  /** What is waiting at the end is the last chunk. */
  lemma {:induction false} LastChunk(text: string, done: seq<Atom>, chunks: seq<string>, current: seq<string>,
                                     tokens: int, c: Config)
    requires AtomsUpTo(Paragraphs(text), |Paragraphs(text)|, done, c)
    requires Holds(done, chunks, current, tokens, c) && current != []
    ensures chunks + [Join(current, "\n\n")] == Render(PlanOf(text, c))
  {
    assert Paragraphs(text)[..|Paragraphs(text)|] == Paragraphs(text);
    Flush(done, chunks, current, tokens, c);
  }

  lemma {:induction false} NothingToSplit(text: string, c: Config)
    requires Paragraphs(text) == []
    ensures Render(PlanOf(text, c)) == [] && Strip(text) == ""
  {
    NoParagraphsIff(text);
  }

  /** `_split_text`. */
  method Split(text: string, c: Config) returns (chunks: seq<string>)
    ensures chunks == Render(PlanOf(text, c))
  {
    var paragraphs := Paragraphs(text);
    if paragraphs == [] {
      NothingToSplit(text, c);
      if Strip(text) != "" {
        assert false;
      }
      return [];
    }
    chunks := [];
    var current: seq<string>, tokens: nat := [], 0;
    ghost var done: seq<Atom> := [];
    NothingWaits(paragraphs, c);
    for i := 0 to |paragraphs|
      invariant AtomsUpTo(paragraphs, i, done, c) && (current == [] <==> i == 0) && (i == 0 ==> done == [])
      invariant Holds(done, chunks, current, tokens, c)
    {
      AtomsNext(paragraphs, i, done, c);
      chunks, current, tokens := AddParagraph(paragraphs[i], c, chunks, current, tokens, done);
      done := done + ParagraphAtoms(paragraphs[i], c.cost, c.size);
    }
    LastChunk(text, done, chunks, current, tokens, c);
    if current != [] {
      chunks := chunks + [Join(current, "\n\n")];
    }
    if chunks == [] {
      assert false;
    }
  }

  lemma {:induction false} AtomsSnoc(paragraphs: seq<string>, i: nat, c: Config)
    requires i < |paragraphs|
    ensures Atoms(paragraphs[..i + 1], c.cost, c.size)
            == Atoms(paragraphs[..i], c.cost, c.size) + ParagraphAtoms(paragraphs[i], c.cost, c.size)
  {
    assert paragraphs[..i + 1][..i] == paragraphs[..i];
  }

  // ---------- Contents ----------

  lemma {:induction false} InkOfStrippedParts(parts: seq<string>)
    ensures InkAll(StrippedParts(parts)) == InkAll(parts)
  {
    if parts != [] {
      InkOfStrippedParts(parts[1..]);
      InkOfStrip(parts[0]);
      var here := if Strip(parts[0]) == "" then [] else [Strip(parts[0])];
      InkAllAppend(here, StrippedParts(parts[1..]));
      BlankHasNoInk(parts[0]);
      if Strip(parts[0]) != "" {
        assert here[1..] == [];
      }
    }
  }

  lemma SliceThree(s: string, i: nat, j: nat)
    requires i <= j <= |s|
    ensures s == s[..i] + (s[i..j] + s[j..])
  {
  }

  lemma {:induction false} InkOfThree(a: string, b: string, c: string)
    requires Blank(b)
    ensures Ink(a + (b + c)) == Ink(a) + Ink(c)
  {
    InkAppend(a, b + c);
    InkAppend(b, c);
    BlankHasNoInk(b);
  }

  /** White space between two parts has no ink. */
  lemma {:induction false} InkAcross(s: string, i: nat, j: nat)
    requires i <= j <= |s| && Blank(s[i..j])
    ensures Ink(s) == Ink(s[..i]) + Ink(s[j..])
  {
    SliceThree(s, i, j);
    InkOfThree(s[..i], s[i..j], s[j..]);
  }

  lemma {:induction false} InkOfParts(s: string)
    ensures InkAll(SplitAtBreaks(s)) == Ink(s)
    decreases |s|
  {
    var i := NextBreak(s, 0);
    if i == |s| {
      assert [s][1..] == [];
    } else {
      var j := RunEnd(s, i);
      InkOfParts(s[j..]);
      InkAcross(s, i, j);
    }
  }

  lemma {:induction false} InkOfParagraphs(text: string)
    ensures InkAll(Paragraphs(text)) == Ink(text)
  {
    InkOfStrippedParts(SplitAtBreaks(text));
    InkOfParts(text);
  }

  lemma {:induction false} InkOfSentences(s: string)
    ensures InkAll(Sentences(s)) == Ink(s)
    decreases |s|
  {
    var j := AfterTerminator(s, 0);
    if j > |s| {
      assert [s][1..] == [];
    } else {
      var k := SkipSpace(s, j);
      InkOfSentences(s[k..]);
      InkAcross(s, j, k);
    }
  }

  lemma {:induction false} ParagraphsNotEmpty(parts: seq<string>)
    ensures forall p <- StrippedParts(parts) :: p != "" && Stripped(p)
  {
    if parts != [] {
      ParagraphsNotEmpty(parts[1..]);
      var i, j := StripIsMiddle(parts[0]);
    }
  }

  lemma {:induction false} NoParagraphsIff(text: string)
    ensures Paragraphs(text) == [] <==> Blank(text)
    ensures Strip(text) == "" <==> Blank(text)
  {
    InkOfParagraphs(text);
    BlankHasNoInk(text);
    InkOfStrip(text);
    var ps := Paragraphs(text);
    if ps != [] {
      ParagraphsNotEmpty(SplitAtBreaks(text));
      assert ps[0] in ps;
      BlankHasNoInk(ps[0]);
      assert !Space(ps[0][0]);
    }
  }

  lemma TextsAppend(a: seq<Atom>, b: seq<Atom>)
    ensures Texts(a + b) == Texts(a) + Texts(b)
  {
  }

  lemma {:induction false} InkOfBoth(a: seq<Atom>, b: seq<Atom>)
    ensures InkAll(Texts(a + b)) == InkAll(Texts(a)) + InkAll(Texts(b))
  {
    TextsAppend(a, b);
    InkAllAppend(Texts(a), Texts(b));
  }

  lemma {:induction false} InkAllSnoc(parts: seq<string>, p: string)
    ensures InkAll(parts + [p]) == InkAll(parts) + Ink(p)
  {
    InkAllAppend(parts, [p]);
    assert [p][1..] == [];
  }

  lemma {:induction false} InkOfAtoms(paragraphs: seq<string>, cost: Cost, size: int)
    ensures InkAll(Texts(Atoms(paragraphs, cost, size))) == InkAll(paragraphs)
  {
    if paragraphs != [] {
      var n := |paragraphs| - 1;
      var p, rest := paragraphs[n], paragraphs[..n];
      assert paragraphs == rest + [p];
      InkOfAtoms(rest, cost, size);
      InkOfBoth(Atoms(rest, cost, size), ParagraphAtoms(p, cost, size));
      InkOfParagraphAtoms(p, cost, size);
      InkAllSnoc(rest, p);
    }
  }

  lemma {:induction false} InkOfParagraphAtoms(p: string, cost: Cost, size: int)
    ensures InkAll(Texts(ParagraphAtoms(p, cost, size))) == Ink(p)
  {
    InkOfSentences(p);
    if cost(p) > size {
      assert Texts(SentenceAtoms(Sentences(p))) == Sentences(p);
    } else {
      assert Texts([Atom(p, Whole)]) == [p] && [p][1..] == [];
    }
  }

  /** The new parts of the chunks, in order, are the paragraphs with oversize ones replaced by their sentences,
      and carry every character that is not white space exactly once. */
  lemma {:induction false} ChunksRebuildText(text: string, c: Config)
    ensures Added(PlanOf(text, c)) == Atoms(Paragraphs(text), c.cost, c.size)
    ensures InkAll(Texts(Added(PlanOf(text, c)))) == Ink(text)
  {
    PlanIsGood(Atoms(Paragraphs(text), c.cost, c.size), c);
    InkOfAtoms(Paragraphs(text), c.cost, c.size);
    InkOfParagraphs(text);
  }

  /** No chunks exactly when the text is white space. */
  lemma {:induction false} NoChunksIff(text: string, c: Config)
    ensures Render(PlanOf(text, c)) == [] <==> Blank(text)
  {
    NoParagraphsIff(text);
    var atoms := Atoms(Paragraphs(text), c.cost, c.size);
    PlanIsGood(atoms, c);
  }

  /** Each chunk is an overlap and a new part. The overlap of the first is empty; that of a later one is empty
      when it starts with a sentence, and otherwise the longest suffix of the chunk before within the budget. */
  lemma {:induction false} OverlapIsLongestSuffix(text: string, c: Config, i: nat)
    requires i < |PlanOf(text, c)|
    ensures var plan := PlanOf(text, c);
            && plan[i].added != []
            && Render(plan)[i] == Join(plan[i].carried + Texts(plan[i].added), "\n\n")
            && (i == 0 || plan[i].added[0].kind != Whole ==> plan[i].carried == [])
            && (i > 0 && plan[i].added[0].kind == Whole ==> IsOverlap(Pieces(plan[i - 1]), plan[i].carried, c))
  {
    var plan := PlanOf(text, c);
    PlanIsGood(Atoms(Paragraphs(text), c.cost, c.size), c);
    assert GoodAt(plan, i, c);
    if i > 0 {
      var n := TailIsLongest(Pieces(plan[i - 1]), c.overlap, c.cost);
    }
  }

  ghost predicate IsOverlap(before: seq<string>, carried: seq<string>, c: Config) {
    exists n :: 0 <= n <= |before| && carried == before[n..]
      && (carried == [] || Sum(carried, c.cost) <= c.overlap)
      && forall m :: 0 <= m < n ==> Sum(before[m..], c.cost) > c.overlap
  }

  /** Where chunks are cut: within a chunk every atom after the first continued it and fitted; a later chunk begins
      because its first atom is the first sentence of an oversize paragraph, or did not fit any more. */
  lemma {:induction false} CutsAreNeeded(text: string, c: Config, i: nat)
    requires i < |PlanOf(text, c)|
    ensures var plan := PlanOf(text, c);
            && plan[i].added != []
            && (forall m :: 0 < m < |plan[i].added| ==>
                  && plan[i].added[m].kind != First
                  && Sum(plan[i].carried + Texts(plan[i].added[..m]), c.cost) + c.cost(plan[i].added[m].text) <= c.size)
            && (i > 0 ==>
                  || plan[i].added[0].kind == First
                  || Sum(Pieces(plan[i - 1]), c.cost) + c.cost(plan[i].added[0].text) > c.size)
  {
    var plan := PlanOf(text, c);
    PlanIsGood(Atoms(Paragraphs(text), c.cost, c.size), c);
    assert GoodAt(plan, i, c);
    forall m | 0 < m < |plan[i].added|
      ensures plan[i].added[m].kind != First
              && Sum(plan[i].carried + Texts(plan[i].added[..m]), c.cost) + c.cost(plan[i].added[m].text) <= c.size
    {
      assert !Starts(plan[i].carried + Texts(plan[i].added[..m]), plan[i].added[m], c);
      assert |Texts(plan[i].added[..m])| == m;
    }
  }

  /** A paragraph that fits stays whole; one that does not becomes its sentences, the first of them marked. */
  lemma ParagraphsThatFitStayWhole(p: string, c: Config)
    ensures c.cost(p) <= c.size ==> ParagraphAtoms(p, c.cost, c.size) == [Atom(p, Whole)]
    ensures c.cost(p) > c.size ==>
              var atoms := ParagraphAtoms(p, c.cost, c.size);
              && Texts(atoms) == Sentences(p)
              && forall i :: 0 <= i < |atoms| ==> atoms[i].kind == if i == 0 then First else Next
  {
  }

  /** The atoms of a text, paragraph by paragraph. */
  lemma {:induction false} AtomsByParagraph(paragraphs: seq<string>, p: string, c: Config)
    ensures Atoms([], c.cost, c.size) == []
    ensures Atoms(paragraphs + [p], c.cost, c.size)
            == Atoms(paragraphs, c.cost, c.size)
               + if c.cost(p) <= c.size then [Atom(p, Whole)] else SentenceAtoms(Sentences(p))
  {
    assert (paragraphs + [p])[..|paragraphs|] == paragraphs;
  }

  // ---------- The two regular expressions ----------

  /** Text that ends with its only terminator. */
  predicate OneTerminator(s: string) {
    s != "" && Terminator(s[|s| - 1]) && forall k :: 0 <= k < |s| - 1 ==> !Terminator(s[k])
  }

  predicate NoTerminator(s: string) {
    forall k :: 0 <= k < |s| ==> !Terminator(s[k])
  }

  /** Every sentence but the last ends with its only terminator, and the last has none. */
  lemma {:induction false} SentencesEndAtTerminators(s: string)
    ensures var parts := Sentences(s);
            && (forall i :: 0 <= i < |parts| - 1 ==> OneTerminator(parts[i]))
            && NoTerminator(parts[|parts| - 1])
    decreases |s|
  {
    var j := AfterTerminator(s, 0);
    if j <= |s| {
      SentencesEndAtTerminators(s[SkipSpace(s, j)..]);
    }
  }

  predicate BeginsWithText(s: string) {
    s == "" || !Space(s[0])
  }

  /** No sentence of a stripped paragraph begins with white space. */
  lemma {:induction false} SentencesBeginWithText(s: string)
    requires BeginsWithText(s)
    ensures forall p <- Sentences(s) :: BeginsWithText(p)
    decreases |s|
  {
    var j := AfterTerminator(s, 0);
    if j <= |s| {
      SentencesBeginWithText(s[SkipSpace(s, j)..]);
    }
  }

  /** No part of a split at blank lines contains one. */
  lemma {:induction false} PartsHaveNoBreak(s: string)
    ensures forall p <- SplitAtBreaks(s), k :: 0 <= k < |p| ==> !BreakAt(p, k)
    decreases |s|
  {
    var i := NextBreak(s, 0);
    forall k | 0 <= k < i ensures !BreakAt(s[..i], k) {
      assert !BreakAt(s, k);
    }
    if i == |s| {
      assert s[..i] == s;
    } else {
      PartsHaveNoBreak(s[RunEnd(s, i)..]);
    }
  }

  // ---------- Size ----------

  function AtLeastZero(n: int): nat {
    if n < 0 then 0 else n
  }

  lemma {:induction false} WholeAtomsFit(paragraphs: seq<string>, cost: Cost, size: int)
    ensures forall a <- Atoms(paragraphs, cost, size) :: a.kind == Whole ==> cost(a.text) <= size
  {
    if paragraphs != [] {
      WholeAtomsFit(paragraphs[..|paragraphs| - 1], cost, size);
    }
  }

  lemma {:induction false} AddedMembers(plan: seq<Cut>, i: nat, a: Atom)
    requires i < |plan| && a in plan[i].added
    ensures a in Added(plan)
  {
    if i < |plan| - 1 {
      AddedMembers(plan[..|plan| - 1], i, a);
    }
  }

  lemma {:induction false} SumOfCut(cut: Cut, cost: Cost)
    requires cut.added != []
    ensures var n := |cut.added| - 1;
            Sum(Pieces(cut), cost) == Sum(cut.carried + Texts(cut.added[..n]), cost) + cost(cut.added[n].text)
  {
    var n := |cut.added| - 1;
    var a := cut.added[n];
    assert cut.added == cut.added[..n] + [a];
    TextsAppend(cut.added[..n], [a]);
    assert Pieces(cut) == (cut.carried + Texts(cut.added[..n])) + [a.text];
    SumAppend(cut.carried + Texts(cut.added[..n]), [a.text], cost);
    SumOne(a.text, cost);
  }

  /** The pieces of a chunk have at most chunk size plus overlap tokens, or the chunk is one single sentence. */
  lemma {:induction false} ChunkIsBounded(text: string, c: Config, i: nat)
    requires i < |PlanOf(text, c)|
    ensures var cut := PlanOf(text, c)[i];
            || Sum(Pieces(cut), c.cost) <= c.size + AtLeastZero(c.overlap)
            || (cut.carried == [] && |cut.added| == 1 && cut.added[0].kind != Whole)
  {
    var plan := PlanOf(text, c);
    var cut := plan[i];
    PlanIsGood(Atoms(Paragraphs(text), c.cost, c.size), c);
    assert GoodAt(plan, i, c);
    OverlapIsLongestSuffix(text, c, i);
    SumOfCut(cut, c.cost);
    var n := |cut.added| - 1;
    if n > 0 {
      assert !Starts(cut.carried + Texts(cut.added[..n]), cut.added[n], c);
    } else if cut.added[0].kind == Whole {
      AddedMembers(plan, i, cut.added[0]);
      WholeAtomsFit(Paragraphs(text), c.cost, c.size);
      assert cut.carried + Texts(cut.added[..0]) == cut.carried;
      OverlapFits(plan, i, c);
    }
  }

  lemma {:induction false} OverlapFits(plan: seq<Cut>, i: nat, c: Config)
    requires i < |plan| && GoodAt(plan, i, c)
    ensures Sum(plan[i].carried, c.cost) <= AtLeastZero(c.overlap)
  {
    if i > 0 {
      var n := TailIsLongest(Pieces(plan[i - 1]), c.overlap, c.cost);
    }
  }
}
