/** Merging blocks into chunks: headings set the section, code and tables stay whole, paragraphs are split. */
module MarkdownChunker {
  import opened Common
  import opened Text
  import opened SplitText
  import opened TokenChunker
  import opened Markdown
  import opened MarkdownTheorems

  datatype PieceKind = TextPiece | CodePiece | TablePiece

  datatype Piece = Piece(content: string, section: string, kind: PieceKind)

  /** The heading that was seen last before block `k`. */
  function Section(blocks: seq<Block>, k: nat): string
    requires k <= |blocks|
  {
    if k == 0 then "" else if blocks[k - 1].kind == Heading then blocks[k - 1].content else Section(blocks, k - 1)
  }

  /** The end of the run of paragraphs that contains block `k`. */
  function RunOfText(blocks: seq<Block>, k: nat): (e: nat)
    requires k <= |blocks|
    ensures k <= e <= |blocks| && (forall j :: k <= j < e ==> blocks[j].kind == Paragraph)
    ensures e < |blocks| ==> blocks[e].kind != Paragraph
    decreases |blocks| - k
  {
    if k < |blocks| && blocks[k].kind == Paragraph then RunOfText(blocks, k + 1) else k
  }

  function TextPieces(contents: seq<string>, section: string, c: Config): (r: seq<Piece>)
    ensures |r| == |Render(PlanOf(Join(contents, "\n\n"), c))|
    ensures forall i :: 0 <= i < |r| ==> r[i] == Piece(Render(PlanOf(Join(contents, "\n\n"), c))[i], section, TextPiece)
  {
    var chunks := Render(PlanOf(Join(contents, "\n\n"), c));
    seq(|chunks|, i requires 0 <= i < |chunks| => Piece(chunks[i], section, TextPiece))
  }

  function Solid(b: Block, section: string): Piece {
    Piece(b.content, section, if b.kind == Code then CodePiece else TablePiece)
  }

  /** The pieces from block `k` on, one run of paragraphs, one code block or one table at a time. */
  function PiecesFrom(blocks: seq<Block>, k: nat, c: Config): seq<Piece>
    requires k <= |blocks|
    decreases |blocks| - k
  {
    if k == |blocks| then []
    else
      match blocks[k].kind
      case Heading => PiecesFrom(blocks, k + 1, c)
      case Paragraph =>
        var e := RunOfText(blocks, k);
        TextPieces(Contents(blocks[k..e]), Section(blocks, k), c) + PiecesFrom(blocks, e, c)
      case _ => [Solid(blocks[k], Section(blocks, k))] + PiecesFrom(blocks, k + 1, c)
  }

  // ---------- blocks_to_chunks ----------

  /** `flush_paragraphs`: the pieces of the buffer, appended one by one. */
  method Flush(pieces0: seq<Piece>, buffer: seq<string>, section: string, c: Config) returns (pieces: seq<Piece>)
    ensures pieces == pieces0 + TextPieces(buffer, section, c)
  {
    pieces := pieces0;
    if buffer == [] {
      NoChunksIff("", c);
      assert Render(PlanOf("", c)) == [];
      return;
    }
    var subs := Split(Join(buffer, "\n\n"), c);
    ghost var all := TextPieces(buffer, section, c);
    for i := 0 to |subs|
      invariant pieces == pieces0 + all[..i]
    {
      AppendNext(pieces0, all, i);
      pieces := pieces + [Piece(subs[i], section, TextPiece)];
    }
    assert all[..|subs|] == all;
  }

  /** The buffer holds the paragraphs of a run that is not finished. */
  ghost predicate Buffered(blocks: seq<Block>, start: nat, k: nat, buffer: seq<string>) {
    && start <= k <= |blocks| && buffer == Contents(blocks[start..k])
    && forall j :: start <= j < k ==> blocks[j].kind == Paragraph
  }

  lemma {:induction false} SectionOfRun(blocks: seq<Block>, start: nat, k: nat)
    requires start <= k <= |blocks| && forall j :: start <= j < k ==> blocks[j].kind == Paragraph
    ensures Section(blocks, k) == Section(blocks, start)
    ensures RunOfText(blocks, start) == RunOfText(blocks, k)
    decreases k - start
  {
    if start < k {
      SectionOfRun(blocks, start + 1, k);
    }
  }

  lemma {:induction false} BufferNext(blocks: seq<Block>, start: nat, k: nat, buffer: seq<string>)
    requires Buffered(blocks, start, k, buffer) && k < |blocks| && blocks[k].kind == Paragraph
    ensures Buffered(blocks, start, k + 1, buffer + [blocks[k].content])
  {
    assert blocks[start..k + 1] == blocks[start..k] + [blocks[k]];
  }

  lemma RunUnfolds(blocks: seq<Block>, k: nat, c: Config)
    requires k < |blocks| && blocks[k].kind == Paragraph
    ensures var e := RunOfText(blocks, k);
            PiecesFrom(blocks, k, c)
            == TextPieces(Contents(blocks[k..e]), Section(blocks, k), c) + PiecesFrom(blocks, e, c)
  {
  }

  /** At the end of a run the buffer is what the run contributes. */
  lemma {:induction false} RunEnds(blocks: seq<Block>, start: nat, k: nat, buffer: seq<string>, c: Config)
    requires Buffered(blocks, start, k, buffer) && (k == |blocks| || blocks[k].kind != Paragraph)
    ensures PiecesFrom(blocks, start, c) == TextPieces(buffer, Section(blocks, k), c) + PiecesFrom(blocks, k, c)
  {
    SectionOfRun(blocks, start, k);
    if start == k {
      NoChunksIff("", c);
      assert buffer == [] && TextPieces(buffer, Section(blocks, k), c) == [];
    } else {
      assert RunOfText(blocks, k) == k;
      RunUnfolds(blocks, start, c);
    }
  }

  /** What has been put out and what is still due make up the whole. */
  ghost predicate Due(blocks: seq<Block>, pieces: seq<Piece>, k: nat, c: Config)
    requires k <= |blocks|
  {
    pieces + PiecesFrom(blocks, k, c) == PiecesFrom(blocks, 0, c)
  }

  lemma {:induction false} FlushStep(blocks: seq<Block>, start: nat, k: nat, buffer: seq<string>, pieces: seq<Piece>,
                                     c: Config)
    requires Buffered(blocks, start, k, buffer) && (k == |blocks| || blocks[k].kind != Paragraph)
    requires Due(blocks, pieces, start, c)
    ensures Due(blocks, pieces + TextPieces(buffer, Section(blocks, k), c), k, c)
  {
    RunEnds(blocks, start, k, buffer, c);
    FlushedSoFar(pieces, TextPieces(buffer, Section(blocks, k), c), PiecesFrom(blocks, k, c));
  }

  /** The state before block `k`: what is put out, the section, and a buffer that began at block `start`. */
  ghost predicate State(blocks: seq<Block>, k: nat, pieces: seq<Piece>, section: string, buffer: seq<string>,
                        start: nat, c: Config)
  {
    Buffered(blocks, start, k, buffer) && section == Section(blocks, k) && Due(blocks, pieces, start, c)
  }

  lemma {:induction false} HeadingStep(blocks: seq<Block>, k: nat, pieces: seq<Piece>, c: Config)
    requires k < |blocks| && blocks[k].kind == Heading && Due(blocks, pieces, k, c)
    ensures State(blocks, k + 1, pieces, blocks[k].content, [], k + 1, c)
  {
    assert Contents(blocks[k + 1..k + 1]) == [];
  }

  lemma {:induction false} SolidStep(blocks: seq<Block>, k: nat, pieces: seq<Piece>, section: string, c: Config)
    requires k < |blocks| && blocks[k].kind in {Code, Table} && Due(blocks, pieces, k, c)
             && section == Section(blocks, k)
    ensures State(blocks, k + 1, pieces + [Solid(blocks[k], section)], section, [], k + 1, c)
  {
    SolidUnfolds(blocks, k, c);
    FlushedSoFar(pieces, [Solid(blocks[k], section)], PiecesFrom(blocks, k + 1, c));
    assert Contents(blocks[k + 1..k + 1]) == [];
  }

  lemma {:induction false} SolidUnfolds(blocks: seq<Block>, k: nat, c: Config)
    requires k < |blocks| && blocks[k].kind in {Code, Table}
    ensures PiecesFrom(blocks, k, c) == [Solid(blocks[k], Section(blocks, k))] + PiecesFrom(blocks, k + 1, c)
    ensures Section(blocks, k + 1) == Section(blocks, k)
  {
  }

  /** One block of the loop. */
  method AddBlock(blocks: seq<Block>, k: nat, c: Config, pieces0: seq<Piece>, section0: string, buffer0: seq<string>,
                  ghost start0: nat)
    returns (pieces: seq<Piece>, section: string, buffer: seq<string>, ghost start: nat)
    requires k < |blocks| && State(blocks, k, pieces0, section0, buffer0, start0, c)
    ensures State(blocks, k + 1, pieces, section, buffer, start, c)
  {
    var block := blocks[k];
    pieces, section, buffer, start := pieces0, section0, buffer0, start0;
    if block.kind == Paragraph {
      BufferNext(blocks, start, k, buffer);
      buffer := buffer + [block.content];
      return;
    }
    FlushStep(blocks, start, k, buffer, pieces, c);
    pieces := Flush(pieces, buffer, section, c);
    buffer, start := [], k + 1;
    if block.kind == Heading {
      HeadingStep(blocks, k, pieces, c);
      section := block.content;
    } else {
      SolidStep(blocks, k, pieces, section, c);
      pieces := pieces + [Piece(block.content, section, if block.kind == Code then CodePiece else TablePiece)];
    }
  }

  /** `blocks_to_chunks`. */
  method BlocksToChunks(blocks: seq<Block>, c: Config) returns (pieces: seq<Piece>)
    ensures pieces == PiecesFrom(blocks, 0, c)
  {
    pieces := [];
    var section, buffer: seq<string> := "", [];
    ghost var start := 0;
    for k := 0 to |blocks|
      invariant State(blocks, k, pieces, section, buffer, start, c)
    {
      pieces, section, buffer, start := AddBlock(blocks, k, c, pieces, section, buffer, start);
    }
    FlushStep(blocks, start, |blocks|, buffer, pieces, c);
    pieces := Flush(pieces, buffer, section, c);
  }

  lemma FlushedSoFar(before: seq<Piece>, run: seq<Piece>, rest: seq<Piece>)
    ensures before + (run + rest) == (before + run) + rest
  {
  }

  // ---------- Where pieces come from ----------

  /** A run of paragraphs with nothing else between them. */
  ghost predicate TextRun(blocks: seq<Block>, k: nat, e: nat) {
    k < e <= |blocks| && forall j :: k <= j < e ==> blocks[j].kind == Paragraph
  }

  /** A text piece is a chunk of one run, whose atoms are the paragraphs of that run; a code or table piece is
      one block, verbatim. Its section is the latest heading before it. */
  ghost predicate Origin(blocks: seq<Block>, p: Piece, c: Config) {
    if p.kind == TextPiece then
      exists k: nat, e: nat :: TextRun(blocks, k, e) && FromRun(blocks, k, e, p, c)
    else
      exists k: nat :: k < |blocks| && IsSolid(p, blocks, k)
  }

  /** The whole code block or table `k` as it stands, labelled by its kind. */
  ghost predicate IsSolid(p: Piece, blocks: seq<Block>, k: nat)
    requires k < |blocks|
  {
    && p.content == blocks[k].content && p.section == Section(blocks, k)
    && ((p.kind == CodePiece && blocks[k].kind == Code) || (p.kind == TablePiece && blocks[k].kind == Table))
  }

  /** The section of a piece is the last heading before it, and empty when there is none. */
  lemma {:induction false} SectionIsLatestHeading(blocks: seq<Block>, k: nat)
    requires k <= |blocks|
    ensures || (Section(blocks, k) == "" && forall j :: 0 <= j < k ==> blocks[j].kind != Heading)
            || exists h :: 0 <= h < k && blocks[h].kind == Heading && Section(blocks, k) == blocks[h].content
                           && forall j :: h < j < k ==> blocks[j].kind != Heading
  {
    if k > 0 && blocks[k - 1].kind != Heading {
      SectionIsLatestHeading(blocks, k - 1);
    }
  }

  ghost predicate FromRun(blocks: seq<Block>, k: nat, e: nat, p: Piece, c: Config)
    requires TextRun(blocks, k, e)
  {
    && p.section == Section(blocks, k)
    && p.content in Render(Plan(Atoms(Contents(blocks[k..e]), c.cost, c.size), c))
  }

  ghost predicate Plain(blocks: seq<Block>) {
    forall b <- blocks :: b.kind == Paragraph ==> PlainParagraph(b.content)
  }

  lemma {:induction false} ParsedBlocksArePlain(text: string)
    ensures Plain(Blocks(text))
  {
    forall b <- Blocks(text) | b.kind == Paragraph ensures PlainParagraph(b.content) {
      var k :| 0 <= k < |Blocks(text)| && Blocks(text)[k] == b;
      BlocksAreLines(text, k);
      ParagraphIsPlain(Lines(text), Spans(Lines(text), 0)[k]);
    }
  }

  lemma {:induction false} RunIsItsParagraphs(blocks: seq<Block>, k: nat, e: nat, c: Config)
    requires Plain(blocks) && TextRun(blocks, k, e)
    ensures PlanOf(Join(Contents(blocks[k..e]), "\n\n"), c) == Plan(Atoms(Contents(blocks[k..e]), c.cost, c.size), c)
  {
    var run := blocks[k..e];
    forall s <- Contents(run) ensures PlainParagraph(s) {
      var i :| 0 <= i < |run| && Contents(run)[i] == s;
      assert run[i] == blocks[k + i] && blocks[k + i] in blocks;
    }
    SplitUndoesJoin(Contents(run));
  }

  ghost predicate AllHaveOrigin(blocks: seq<Block>, pieces: seq<Piece>, c: Config) {
    forall p <- pieces :: Origin(blocks, p, c)
  }

  lemma OriginsAppend(blocks: seq<Block>, a: seq<Piece>, b: seq<Piece>, c: Config)
    requires AllHaveOrigin(blocks, a, c) && AllHaveOrigin(blocks, b, c)
    ensures AllHaveOrigin(blocks, a + b, c)
  {
  }

  lemma {:induction false} RunHasOrigin(blocks: seq<Block>, k: nat, e: nat, c: Config)
    requires Plain(blocks) && TextRun(blocks, k, e)
    ensures AllHaveOrigin(blocks, TextPieces(Contents(blocks[k..e]), Section(blocks, k), c), c)
  {
    RunIsItsParagraphs(blocks, k, e, c);
    forall p <- TextPieces(Contents(blocks[k..e]), Section(blocks, k), c) ensures Origin(blocks, p, c) {
      assert FromRun(blocks, k, e, p, c);
    }
  }

  lemma {:induction false} PiecesHaveOrigin(blocks: seq<Block>, k: nat, c: Config)
    requires k <= |blocks| && Plain(blocks)
    ensures AllHaveOrigin(blocks, PiecesFrom(blocks, k, c), c)
    decreases |blocks| - k
  {
    if k < |blocks| {
      if blocks[k].kind == Paragraph {
        var e := RunOfText(blocks, k);
        PiecesHaveOrigin(blocks, e, c);
        RunHasOrigin(blocks, k, e, c);
        OriginsAppend(blocks, TextPieces(Contents(blocks[k..e]), Section(blocks, k), c), PiecesFrom(blocks, e, c), c);
      } else {
        PiecesHaveOrigin(blocks, k + 1, c);
        if blocks[k].kind != Heading {
          assert IsSolid(Solid(blocks[k], Section(blocks, k)), blocks, k);
          OriginsAppend(blocks, [Solid(blocks[k], Section(blocks, k))], PiecesFrom(blocks, k + 1, c), c);
        }
      }
    }
  }

  /** For a parsed text: no text piece crosses a heading, a code block or a table, its paragraphs are exactly the
      paragraph blocks of its run, and every piece carries the latest heading before it. */
  lemma {:induction false} PiecesStayInTheirRun(text: string, c: Config)
    ensures forall p <- PiecesFrom(Blocks(text), 0, c) :: Origin(Blocks(text), p, c)
  {
    ParsedBlocksArePlain(text);
    PiecesHaveOrigin(Blocks(text), 0, c);
  }

  function SolidPieces(pieces: seq<Piece>): seq<Piece> {
    if pieces == [] then [] else (if pieces[0].kind == TextPiece then [] else [pieces[0]]) + SolidPieces(pieces[1..])
  }

  function SolidBlocks(blocks: seq<Block>, k: nat): seq<Piece>
    requires k <= |blocks|
    decreases |blocks| - k
  {
    if k == |blocks| then []
    else
      match blocks[k].kind
      case Code => [Piece(blocks[k].content, Section(blocks, k), CodePiece)] + SolidBlocks(blocks, k + 1)
      case Table => [Piece(blocks[k].content, Section(blocks, k), TablePiece)] + SolidBlocks(blocks, k + 1)
      case _ => SolidBlocks(blocks, k + 1)
  }

  lemma {:induction false} SolidAppend(a: seq<Piece>, b: seq<Piece>)
    ensures SolidPieces(a + b) == SolidPieces(a) + SolidPieces(b)
  {
    if a == [] {
      assert a + b == b;
    } else {
      assert (a + b)[1..] == a[1..] + b;
      SolidAppend(a[1..], b);
    }
  }

  lemma {:induction false} NoSolidText(pieces: seq<Piece>)
    requires forall p <- pieces :: p.kind == TextPiece
    ensures SolidPieces(pieces) == []
  {
    if pieces != [] {
      NoSolidText(pieces[1..]);
    }
  }

  lemma {:induction false} NoSolidRun(blocks: seq<Block>, k: nat, e: nat)
    requires k <= e <= |blocks| && forall j :: k <= j < e ==> blocks[j].kind == Paragraph
    ensures SolidBlocks(blocks, k) == SolidBlocks(blocks, e)
    decreases e - k
  {
    if k < e {
      NoSolidRun(blocks, k + 1, e);
    }
  }

  /** The pieces of a run of paragraphs hold no solid block. */
  lemma {:induction false} SolidBeyondRun(blocks: seq<Block>, k: nat, c: Config)
    requires k < |blocks| && blocks[k].kind == Paragraph
    ensures SolidPieces(PiecesFrom(blocks, k, c)) == SolidPieces(PiecesFrom(blocks, RunOfText(blocks, k), c))
    ensures SolidBlocks(blocks, k) == SolidBlocks(blocks, RunOfText(blocks, k))
  {
    var e := RunOfText(blocks, k);
    var texts := TextPieces(Contents(blocks[k..e]), Section(blocks, k), c);
    SolidAppend(texts, PiecesFrom(blocks, e, c));
    NoSolidText(texts);
    NoSolidRun(blocks, k, e);
  }

  lemma {:induction false} SolidBeyondBlock(blocks: seq<Block>, k: nat, c: Config)
    requires k < |blocks| && blocks[k].kind != Paragraph
    requires SolidPieces(PiecesFrom(blocks, k + 1, c)) == SolidBlocks(blocks, k + 1)
    ensures SolidPieces(PiecesFrom(blocks, k, c)) == SolidBlocks(blocks, k)
  {
    if blocks[k].kind != Heading {
      var p := Solid(blocks[k], Section(blocks, k));
      assert ([p] + PiecesFrom(blocks, k + 1, c))[1..] == PiecesFrom(blocks, k + 1, c);
    }
  }

  /** Code blocks and tables come out verbatim, each once and in order, whatever their size. */
  lemma {:induction false} SolidBlocksSurvive(blocks: seq<Block>, k: nat, c: Config)
    requires k <= |blocks|
    ensures SolidPieces(PiecesFrom(blocks, k, c)) == SolidBlocks(blocks, k)
    decreases |blocks| - k
  {
    if k < |blocks| {
      if blocks[k].kind == Paragraph {
        SolidBlocksSurvive(blocks, RunOfText(blocks, k), c);
        SolidBeyondRun(blocks, k, c);
      } else {
        SolidBlocksSurvive(blocks, k + 1, c);
        SolidBeyondBlock(blocks, k, c);
      }
    }
  }

  /** The ink of headings, of code blocks and tables, and of the new parts of the chunks of each run. */
  function PlacedInk(blocks: seq<Block>, k: nat, c: Config): string
    requires k <= |blocks|
    decreases |blocks| - k
  {
    if k == |blocks| then ""
    else if blocks[k].kind == Paragraph then
      var e := RunOfText(blocks, k);
      InkAll(Texts(Added(PlanOf(Join(Contents(blocks[k..e]), "\n\n"), c)))) + PlacedInk(blocks, e, c)
    else Ink(blocks[k].content) + PlacedInk(blocks, k + 1, c)
  }

  lemma {:induction false} InkOfNewParts(contents: seq<string>, c: Config)
    ensures InkAll(Texts(Added(PlanOf(Join(contents, "\n\n"), c)))) == InkAll(contents)
  {
    ChunksRebuildText(Join(contents, "\n\n"), c);
    BlankHasNoInk("\n\n");
    InkOfJoin(contents, "\n\n");
  }

  lemma ContentsSplit(blocks: seq<Block>, k: nat, e: nat)
    requires k <= e <= |blocks|
    ensures Contents(blocks[k..]) == Contents(blocks[k..e]) + Contents(blocks[e..])
  {
  }

  lemma {:induction false} InkOfRun(blocks: seq<Block>, k: nat, e: nat, c: Config)
    requires k <= e <= |blocks|
    ensures InkAll(Texts(Added(PlanOf(Join(Contents(blocks[k..e]), "\n\n"), c)))) + InkAll(Contents(blocks[e..]))
            == InkAll(Contents(blocks[k..]))
  {
    InkOfNewParts(Contents(blocks[k..e]), c);
    ContentsSplit(blocks, k, e);
    InkAllAppend(Contents(blocks[k..e]), Contents(blocks[e..]));
  }

  lemma {:induction false} PlacedInkIsAll(blocks: seq<Block>, k: nat, c: Config)
    requires k <= |blocks|
    ensures PlacedInk(blocks, k, c) == InkAll(Contents(blocks[k..]))
    decreases |blocks| - k
  {
    if k < |blocks| {
      if blocks[k].kind == Paragraph {
        var e := RunOfText(blocks, k);
        PlacedInkIsAll(blocks, e, c);
        InkOfRun(blocks, k, e, c);
      } else {
        PlacedInkIsAll(blocks, k + 1, c);
        assert blocks[k..] == [blocks[k]] + blocks[k + 1..];
        InkOfCons(blocks[k], blocks[k + 1..]);
      }
    }
  }

  /** Headings, whole blocks and the new parts of text chunks together carry every character of the text that is
      not white space, once and in order. */
  lemma {:induction false} NothingIsLost(text: string, c: Config)
    ensures PlacedInk(Blocks(text), 0, c) == Ink(text)
  {
    PlacedInkIsAll(Blocks(text), 0, c);
    assert Blocks(text)[0..] == Blocks(text);
    BlocksConserveText(text);
  }
}
