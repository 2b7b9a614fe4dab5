/** The sliding-window chunker: paragraphs, sentences of oversize paragraphs, greedy cuts, overlap. */
module SplitText {
  import opened Text

  /** Tokens of a piece of text. The tokenizer is not part of this model. */
  type Cost = string -> nat

  function Sum(parts: seq<string>, cost: Cost): nat {
    if parts == [] then 0 else Sum(parts[..|parts| - 1], cost) + cost(parts[|parts| - 1])
  }

  // ---------- Paragraphs ----------

  /** The end of the run of line feeds that starts at `i`. */
  function RunEnd(s: string, i: nat): (j: nat)
    requires i <= |s|
    ensures i <= j <= |s| && (forall k :: i <= k < j ==> s[k] == '\n') && (j < |s| ==> s[j] != '\n')
    decreases |s| - i
  {
    if i < |s| && s[i] == '\n' then RunEnd(s, i + 1) else i
  }

  predicate BreakAt(s: string, i: nat) {
    i + 1 < |s| && s[i] == '\n' && s[i + 1] == '\n'
  }

  /** The first place at or after `i` where two line feeds meet, or the end. */
  function NextBreak(s: string, i: nat): (j: nat)
    requires i <= |s|
    ensures i <= j <= |s| && (j < |s| ==> BreakAt(s, j)) && forall k :: i <= k < j ==> !BreakAt(s, k)
    decreases |s| - i
  {
    if i == |s| || BreakAt(s, i) then i else NextBreak(s, i + 1)
  }

  /** Splitting at runs of two or more line feeds. */
  function SplitAtBreaks(s: string): (parts: seq<string>)
    ensures parts != []
    decreases |s|
  {
    var i := NextBreak(s, 0);
    if i == |s| then [s] else [s[..i]] + SplitAtBreaks(s[RunEnd(s, i)..])
  }

  function StrippedParts(parts: seq<string>): seq<string> {
    if parts == [] then []
    else (if Strip(parts[0]) == "" then [] else [Strip(parts[0])]) + StrippedParts(parts[1..])
  }

  function Paragraphs(text: string): seq<string> {
    StrippedParts(SplitAtBreaks(text))
  }

  // ---------- Sentences ----------

  predicate Terminator(c: char) {
    c in {'.', '!', '?', '\U{3002}', '\U{FF01}', '\U{FF1F}'}
  }

  /** The first position after a terminator, or none. */
  function AfterTerminator(s: string, i: nat): (j: nat)
    requires i <= |s|
    ensures i <= j <= |s| + 1 && (j <= |s| ==> i < j && Terminator(s[j - 1]))
    ensures forall k :: i <= k < j - 1 ==> !Terminator(s[k])
    decreases |s| - i
  {
    if i == |s| then |s| + 1 else if Terminator(s[i]) then i + 1 else AfterTerminator(s, i + 1)
  }

  function SkipSpace(s: string, i: nat): (j: nat)
    requires i <= |s|
    ensures i <= j <= |s| && (forall k :: i <= k < j ==> Space(s[k])) && (j < |s| ==> !Space(s[j]))
    decreases |s| - i
  {
    if i < |s| && Space(s[i]) then SkipSpace(s, i + 1) else i
  }

  /** Splitting after each terminator, together with the white space that follows it. A final terminator leaves
      an empty sentence at the end. */
  function Sentences(s: string): (parts: seq<string>)
    ensures parts != []
    decreases |s|
  {
    var j := AfterTerminator(s, 0);
    if j > |s| then [s] else [s[..j]] + Sentences(s[SkipSpace(s, j)..])
  }

  // ---------- Atoms: what is never divided ----------

  datatype Kind = Whole | First | Next

  /** A paragraph that fits, or a sentence of one that does not: its first, or a later one. */
  datatype Atom = Atom(text: string, kind: Kind)

  function SentenceAtoms(parts: seq<string>): (r: seq<Atom>)
    ensures |r| == |parts| && forall i :: 0 <= i < |r| ==> r[i] == Atom(parts[i], if i == 0 then First else Next)
  {
    seq(|parts|, i requires 0 <= i < |parts| => Atom(parts[i], if i == 0 then First else Next))
  }

  function ParagraphAtoms(p: string, cost: Cost, size: int): (r: seq<Atom>)
    ensures r != []
  {
    if cost(p) > size then SentenceAtoms(Sentences(p)) else [Atom(p, Whole)]
  }

  function Atoms(paragraphs: seq<string>, cost: Cost, size: int): seq<Atom> {
    if paragraphs == [] then []
    else Atoms(paragraphs[..|paragraphs| - 1], cost, size) + ParagraphAtoms(paragraphs[|paragraphs| - 1], cost, size)
  }

  function Texts(atoms: seq<Atom>): (r: seq<string>)
    ensures |r| == |atoms| && forall i :: 0 <= i < |r| ==> r[i] == atoms[i].text
  {
    seq(|atoms|, i requires 0 <= i < |atoms| => atoms[i].text)
  }

  // ---------- The plan of a split ----------

  /** One chunk: pieces repeated from the chunk before, then new atoms. */
  datatype Cut = Cut(carried: seq<string>, added: seq<Atom>)

  function Pieces(c: Cut): seq<string> {
    c.carried + Texts(c.added)
  }

  datatype Config = Config(cost: Cost, size: int, overlap: int)

  /** Does this atom start a new chunk when these pieces are waiting? */
  predicate Starts(current: seq<string>, a: Atom, c: Config) {
    current != [] && (a.kind == First || Sum(current, c.cost) + c.cost(a.text) > c.size)
  }

  /** The longest suffix within a budget. */
  function Tail(parts: seq<string>, budget: int, cost: Cost): seq<string> {
    if parts == [] || cost(parts[|parts| - 1]) > budget then []
    else Tail(parts[..|parts| - 1], budget - cost(parts[|parts| - 1]), cost) + [parts[|parts| - 1]]
  }

  /** What the next chunk repeats: only a paragraph that fits gets an overlap. */
  function Carry(current: seq<string>, a: Atom, c: Config): seq<string> {
    if a.kind == Whole then Tail(current, c.overlap, c.cost) else []
  }

  function Extend(plan: seq<Cut>, a: Atom, c: Config): seq<Cut> {
    if plan == [] then [Cut([], [a])]
    else
      var last := plan[|plan| - 1];
      if Starts(Pieces(last), a, c) then plan + [Cut(Carry(Pieces(last), a, c), [a])]
      else plan[..|plan| - 1] + [last.(added := last.added + [a])]
  }

  function Plan(atoms: seq<Atom>, c: Config): seq<Cut> {
    if atoms == [] then [] else Extend(Plan(atoms[..|atoms| - 1], c), atoms[|atoms| - 1], c)
  }

  function Added(plan: seq<Cut>): seq<Atom> {
    if plan == [] then [] else Added(plan[..|plan| - 1]) + plan[|plan| - 1].added
  }

  /** No atom after the first of a chunk would have started a new one. */
  ghost predicate Greedy(cut: Cut, c: Config) {
    forall m :: 0 < m < |cut.added| ==> !Starts(cut.carried + Texts(cut.added[..m]), cut.added[m], c)
  }

  /** The first atom of the next chunk starts it, and brings the prescribed overlap. */
  ghost predicate Follows(before: Cut, after: Cut, c: Config)
    requires after.added != []
  {
    Starts(Pieces(before), after.added[0], c) && after.carried == Carry(Pieces(before), after.added[0], c)
  }

  ghost predicate GoodAt(plan: seq<Cut>, i: int, c: Config)
    requires 0 <= i < |plan|
  {
    && plan[i].added != [] && Greedy(plan[i], c)
    && if i == 0 then plan[i].carried == [] else Follows(plan[i - 1], plan[i], c)
  }

  /** A plan that divides these atoms by the rules. */
  ghost predicate Good(plan: seq<Cut>, atoms: seq<Atom>, c: Config) {
    Added(plan) == atoms && forall i :: 0 <= i < |plan| ==> GoodAt(plan, i, c)
  }

  lemma {:induction false} GreedySnoc(cut: Cut, a: Atom, c: Config)
    requires cut.added != []
    ensures Greedy(cut.(added := cut.added + [a]), c) <==> Greedy(cut, c) && !Starts(Pieces(cut), a, c)
  {
    var n := |cut.added|;
    var more := cut.added + [a];
    assert more[..n] == cut.added && more[n] == a;
    assert forall m :: 0 < m < n ==> more[..m] == cut.added[..m] && more[m] == cut.added[m];
  }

  /** Plans that agree below `n` are good alike there. */
  lemma {:induction false} GoodBelow(p: seq<Cut>, q: seq<Cut>, n: nat, c: Config)
    requires n <= |p| && n <= |q| && p[..n] == q[..n] && forall i :: 0 <= i < n ==> GoodAt(p, i, c)
    ensures forall i :: 0 <= i < n ==> GoodAt(q, i, c)
  {
    forall i | 0 <= i < n ensures GoodAt(q, i, c) {
      assert p[i] == p[..n][i] == q[i] && (i > 0 ==> p[i - 1] == p[..n][i - 1] == q[i - 1]);
      assert GoodAt(p, i, c);
    }
  }

  lemma {:induction false} AddedSnoc(plan: seq<Cut>, cut: Cut)
    ensures Added(plan + [cut]) == Added(plan) + cut.added
  {
    assert (plan + [cut])[..|plan|] == plan;
  }

  /** The cut that starts a new chunk. */
  function CutFor(plan: seq<Cut>, a: Atom, c: Config): Cut {
    Cut(if plan == [] then [] else Carry(Pieces(plan[|plan| - 1]), a, c), [a])
  }

  lemma {:induction false} NewCutIsGood(plan: seq<Cut>, p: seq<Cut>, a: Atom, c: Config)
    requires plan == [] || Starts(Pieces(plan[|plan| - 1]), a, c)
    requires p == plan + [CutFor(plan, a, c)]
    ensures GoodAt(p, |plan|, c)
  {
    assert p[|plan|] == CutFor(plan, a, c);
    assert plan != [] ==> p[|plan| - 1] == plan[|plan| - 1];
  }

  lemma {:induction false} NewChunkIsGood(plan: seq<Cut>, atoms: seq<Atom>, a: Atom, c: Config)
    requires Good(plan, atoms, c) && (plan == [] || Starts(Pieces(plan[|plan| - 1]), a, c))
    ensures Good(Extend(plan, a, c), atoms + [a], c)
  {
    var p := Extend(plan, a, c);
    assert p == plan + [CutFor(plan, a, c)];
    AddedSnoc(plan, CutFor(plan, a, c));
    GoodBelow(plan, p, |plan|, c);
    NewCutIsGood(plan, p, a, c);
  }

  lemma {:induction false} LongerCutIsGood(plan: seq<Cut>, p: seq<Cut>, n: nat, a: Atom, c: Config)
    requires n < |plan| && n < |p| && p[..n] == plan[..n] && p[n] == plan[n].(added := plan[n].added + [a])
    requires GoodAt(plan, n, c) && !Starts(Pieces(plan[n]), a, c)
    ensures GoodAt(p, n, c)
  {
    GreedySnoc(plan[n], a, c);
    assert p[n].added[0] == plan[n].added[0];
    assert n > 0 ==> p[n - 1] == p[..n][n - 1] == plan[n - 1];
  }

  lemma {:induction false} LongerChunkIsGood(plan: seq<Cut>, atoms: seq<Atom>, a: Atom, c: Config)
    requires Good(plan, atoms, c) && plan != [] && !Starts(Pieces(plan[|plan| - 1]), a, c)
    ensures Good(Extend(plan, a, c), atoms + [a], c)
  {
    var n := |plan| - 1;
    var p := Extend(plan, a, c);
    assert p[..n] == plan[..n];
    LongerCutAdds(plan, a, c);
    GoodBelow(plan, p, n, c);
    assert GoodAt(plan, n, c);
    LongerCutIsGood(plan, p, n, a, c);
  }

  lemma {:induction false} LongerCutAdds(plan: seq<Cut>, a: Atom, c: Config)
    requires plan != [] && !Starts(Pieces(plan[|plan| - 1]), a, c)
    ensures Added(Extend(plan, a, c)) == Added(plan) + [a]
  {
    var n := |plan| - 1;
    var longer := plan[n].(added := plan[n].added + [a]);
    assert plan == plan[..n] + [plan[n]];
    AddedSnoc(plan[..n], plan[n]);
    AddedSnoc(plan[..n], longer);
    assert Added(plan[..n]) + plan[n].added + [a] == Added(plan[..n]) + (plan[n].added + [a]);
  }

  lemma {:induction false} ExtendIsGood(plan: seq<Cut>, atoms: seq<Atom>, a: Atom, c: Config)
    requires Good(plan, atoms, c)
    ensures Good(Extend(plan, a, c), atoms + [a], c)
  {
    if plan == [] || Starts(Pieces(plan[|plan| - 1]), a, c) {
      NewChunkIsGood(plan, atoms, a, c);
    } else {
      LongerChunkIsGood(plan, atoms, a, c);
    }
  }

  /** A good plan whose last chunk has one new atom is the extension of the plan before it. */
  lemma {:induction false} LastChunkIsNew(plan: seq<Cut>, atoms: seq<Atom>, c: Config)
    requires Good(plan, atoms, c) && plan != [] && |plan[|plan| - 1].added| == 1
    ensures var q := plan[..|plan| - 1];
            atoms != [] && Good(q, atoms[..|atoms| - 1], c) && plan == Extend(q, atoms[|atoms| - 1], c)
  {
    var n := |plan| - 1;
    assert plan == plan[..n] + [plan[n]];
    AddedSnoc(plan[..n], plan[n]);
    GoodBelow(plan, plan[..n], n, c);
    assert GoodAt(plan, n, c);
    assert plan[n].added == [atoms[|atoms| - 1]];
    assert atoms[..|atoms| - 1] == Added(plan[..n]);
  }

  function WithoutLast(plan: seq<Cut>): seq<Cut>
    requires plan != [] && plan[|plan| - 1].added != []
  {
    var last := plan[|plan| - 1];
    plan[..|plan| - 1] + [last.(added := last.added[..|last.added| - 1])]
  }

  /** `q` is `plan` without `a`, its last atom. */
  ghost predicate Shorter(plan: seq<Cut>, q: seq<Cut>, n: nat, a: Atom) {
    && |plan| == |q| == n + 1 && q[..n] == plan[..n] && q[n].added != []
    && plan[n] == q[n].(added := plan[n].added) && plan[n].added == q[n].added + [a]
  }

  lemma WithoutLastIsShorter(plan: seq<Cut>)
    requires plan != [] && |plan[|plan| - 1].added| > 1
    ensures var added := plan[|plan| - 1].added; Shorter(plan, WithoutLast(plan), |plan| - 1, added[|added| - 1])
  {
  }

  lemma {:induction false} ShorterIsGood(plan: seq<Cut>, q: seq<Cut>, n: nat, a: Atom, c: Config)
    requires Shorter(plan, q, n, a) && forall i :: 0 <= i < |plan| ==> GoodAt(plan, i, c)
    ensures (forall i :: 0 <= i < |q| ==> GoodAt(q, i, c)) && !Starts(Pieces(q[n]), a, c)
  {
    assert GoodAt(plan, n, c);
    GreedySnoc(q[n], a, c);
    assert plan[n].added[0] == q[n].added[0];
    assert n > 0 ==> q[n - 1] == q[..n][n - 1] == plan[n - 1];
    assert GoodAt(q, n, c);
    GoodBelow(plan, q, n, c);
  }

  /** A good plan whose last chunk has several new atoms extends the plan without the last of them. */
  lemma {:induction false} LastChunkIsLonger(plan: seq<Cut>, atoms: seq<Atom>, c: Config)
    requires Good(plan, atoms, c) && plan != [] && |plan[|plan| - 1].added| > 1
    ensures atoms != [] && Good(WithoutLast(plan), atoms[..|atoms| - 1], c)
    ensures plan == Extend(WithoutLast(plan), atoms[|atoms| - 1], c)
  {
    var n := |plan| - 1;
    var q := WithoutLast(plan);
    var a := plan[n].added[|plan[n].added| - 1];
    WithoutLastIsShorter(plan);
    ShorterIsGood(plan, q, n, a, c);
    LastIsExtension(plan, a, c);
    LongerCutAdds(q, a, c);
    assert atoms == Added(q) + [a];
  }

  lemma {:induction false} LastIsExtension(plan: seq<Cut>, a: Atom, c: Config)
    requires plan != [] && var last := plan[|plan| - 1]; |last.added| > 1 && last.added[|last.added| - 1] == a
    requires var q := WithoutLast(plan); !Starts(Pieces(q[|q| - 1]), a, c)
    ensures plan == Extend(WithoutLast(plan), a, c)
  {
    var n, q := |plan| - 1, WithoutLast(plan);
    assert plan == plan[..n] + [plan[n]] && q[..n] == plan[..n];
    assert plan[n].added == q[n].added + [a];
  }

  lemma {:induction false} GoodIsPlan(plan: seq<Cut>, atoms: seq<Atom>, c: Config)
    requires Good(plan, atoms, c)
    ensures plan == Plan(atoms, c)
    decreases |atoms|
  {
    if plan != [] {
      assert GoodAt(plan, |plan| - 1, c);
      if |plan[|plan| - 1].added| == 1 {
        LastChunkIsNew(plan, atoms, c);
        GoodIsPlan(plan[..|plan| - 1], atoms[..|atoms| - 1], c);
      } else {
        LastChunkIsLonger(plan, atoms, c);
        GoodIsPlan(WithoutLast(plan), atoms[..|atoms| - 1], c);
      }
    }
  }

  lemma {:induction false} PlanIsGood(atoms: seq<Atom>, c: Config)
    ensures Good(Plan(atoms, c), atoms, c)
  {
    if atoms != [] {
      var n := |atoms| - 1;
      PlanIsGood(atoms[..n], c);
      ExtendIsGood(Plan(atoms[..n], c), atoms[..n], atoms[n], c);
      assert atoms[..n] + [atoms[n]] == atoms;
    }
  }

  /** The rules leave no choice: `Plan` is the one division of the atoms that obeys them. */
  lemma {:induction false} PlanIff(plan: seq<Cut>, atoms: seq<Atom>, c: Config)
    ensures Good(plan, atoms, c) <==> plan == Plan(atoms, c)
  {
    if Good(plan, atoms, c) {
      GoodIsPlan(plan, atoms, c);
    }
    PlanIsGood(atoms, c);
  }
}
