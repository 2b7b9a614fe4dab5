/** What the line machine promises about its blocks. */
module MarkdownTheorems {
  import opened Common
  import opened Text
  import opened SplitText
  import opened TokenChunker
  import opened Markdown

  // ---------- The rules fix the parse ----------

  lemma {:induction false} BlankIffNoSpan(lines: seq<string>, i: nat)
    requires i < |lines|
    ensures SpanAt(lines, i).None? <==> BlankLine(lines, i)
  {
    if BlankLine(lines, i) {
      BlankIsNothing(lines, i);
    }
  }

  lemma {:induction false} CodeIff(lines: seq<string>, sp: Span)
    requires sp.from < sp.to <= |lines| && sp.kind == Code
    ensures Obeys(lines, sp) <==> SpanAt(lines, sp.from) == Some(sp)
  {
    CodeEndRule(lines, Fence(Strip(lines[sp.from])), sp.from + 1);
  }

  lemma {:induction false} TableIff(lines: seq<string>, sp: Span)
    requires sp.from < sp.to <= |lines| && sp.kind == Table
    ensures Obeys(lines, sp) <==> SpanAt(lines, sp.from) == Some(sp)
  {
    TableEndRule(lines, sp.from + 1);
  }

  lemma {:induction false} ParagraphIsTaken(lines: seq<string>, sp: Span)
    requires sp.from < sp.to <= |lines| && sp.kind == Paragraph
    ensures SpanAt(lines, sp.from) == Some(sp)
            <==> !Interrupts(lines, sp.from) && sp.to == ParagraphEnd(lines, sp.from + 1)
  {
  }

  lemma {:induction false} ParagraphEndsThere(lines: seq<string>, i: nat, j: nat)
    requires i <= j <= |lines| && (j < |lines| ==> Interrupts(lines, j))
    requires forall k :: i <= k < j ==> !Interrupts(lines, k)
    ensures ParagraphEnd(lines, i) == j
    decreases j - i
  {
    if i < j {
      ParagraphEndsThere(lines, i + 1, j);
    }
  }

  lemma {:induction false} ParagraphIff(lines: seq<string>, sp: Span)
    requires sp.from < sp.to <= |lines| && sp.kind == Paragraph
    ensures Obeys(lines, sp) <==> SpanAt(lines, sp.from) == Some(sp)
  {
    ParagraphIsTaken(lines, sp);
    if Obeys(lines, sp) {
      assert !Interrupts(lines, sp.from);
      ParagraphEndsThere(lines, sp.from + 1, sp.to);
    } else {
      ParagraphEndRule(lines, sp.from + 1);
    }
  }

  /** A stretch of lines obeys the rules of its kind exactly when the machine takes it. */
  lemma {:induction false} ObeysIff(lines: seq<string>, sp: Span)
    requires sp.from < sp.to <= |lines|
    ensures Obeys(lines, sp) <==> SpanAt(lines, sp.from) == Some(sp)
  {
    match sp.kind
    case Code => CodeIff(lines, sp);
    case Table => TableIff(lines, sp);
    case Heading =>
    case Paragraph => ParagraphIff(lines, sp);
  }

  /** The rules leave no choice: `Spans` is the one division that obeys them. */
  lemma {:induction false} ParseIff(lines: seq<string>, i: nat, spans: seq<Span>)
    requires i <= |lines|
    ensures IsParse(lines, i, spans) <==> spans == Spans(lines, i)
    decreases |lines| - i
  {
    if i < |lines| {
      BlankIffNoSpan(lines, i);
      if BlankLine(lines, i) {
        ParseIff(lines, i + 1, spans);
        SkipBlank(lines, i, spans);
      } else {
        var sp := SpanAt(lines, i).value;
        TakeSpan(lines, i, spans);
        ParseIff(lines, sp.to, if spans == [] then [] else spans[1..]);
        if spans != [] && spans[0] == sp {
          assert spans == [sp] + spans[1..];
        }
      }
    }
  }

  /** A line that is not blank begins the one block that the machine takes there. */
  lemma {:induction false} TakeSpan(lines: seq<string>, i: nat, spans: seq<Span>)
    requires i < |lines| && !BlankLine(lines, i)
    ensures SpanAt(lines, i).Some?
    ensures var sp := SpanAt(lines, i).value;
            IsParse(lines, i, spans) <==> spans != [] && spans[0] == sp && IsParse(lines, sp.to, spans[1..])
  {
    BlankIffNoSpan(lines, i);
    ObeysIff(lines, SpanAt(lines, i).value);
    if spans != [] && spans[0].from == i && spans[0].to <= |lines| && i < spans[0].to {
      ObeysIff(lines, spans[0]);
    }
  }

  lemma {:induction false} SkipBlank(lines: seq<string>, i: nat, spans: seq<Span>)
    requires i < |lines| && BlankLine(lines, i)
    ensures IsParse(lines, i, spans) <==> IsParse(lines, i + 1, spans)
  {
    if spans != [] && spans[0].from == i && i < spans[0].to <= |lines| {
      ObeysIff(lines, spans[0]);
      BlankIffNoSpan(lines, i);
    }
  }

  // ---------- Conservation ----------

  function Contents(blocks: seq<Block>): (r: seq<string>)
    ensures |r| == |blocks| && forall k :: 0 <= k < |r| ==> r[k] == blocks[k].content
  {
    seq(|blocks|, k requires 0 <= k < |blocks| => blocks[k].content)
  }

  lemma {:induction false} InkOfCons(b: Block, rest: seq<Block>)
    ensures InkAll(Contents([b] + rest)) == Ink(b.content) + InkAll(Contents(rest))
  {
    assert Contents([b] + rest)[1..] == Contents(rest);
  }

  lemma {:induction false} InkOfLines(lines: seq<string>, i: nat, j: nat)
    requires i <= j <= |lines|
    ensures InkAll(lines[i..]) == InkAll(lines[i..j]) + InkAll(lines[j..])
  {
    assert lines[i..] == lines[i..j] + lines[j..];
    InkAllAppend(lines[i..j], lines[j..]);
  }

  lemma {:induction false} InkOfBlock(lines: seq<string>, sp: Span)
    requires sp.from < |lines| && SpanAt(lines, sp.from) == Some(sp)
    ensures Ink(BlockOf(lines, sp).content) == InkAll(lines[sp.from..sp.to])
  {
    BlankHasNoInk("\n");
    if sp.kind == Heading {
      InkOfStrip(lines[sp.from]);
      assert lines[sp.from..sp.to] == [lines[sp.from]] && [lines[sp.from]][1..] == [];
    } else {
      InkOfJoin(lines[sp.from..sp.to], "\n");
      InkOfStrip(Join(lines[sp.from..sp.to], "\n"));
    }
  }

  lemma {:induction false} InkStep(lines: seq<string>, i: nat, sp: Span)
    requires i < |lines| && SpanAt(lines, i) == Some(sp)
    requires InkAll(Contents(BlocksFrom(lines, sp.to))) == InkAll(lines[sp.to..])
    ensures InkAll(Contents(BlocksFrom(lines, i))) == InkAll(lines[i..])
  {
    InkOfBlock(lines, sp);
    BlocksCons(lines, i, sp);
    InkOfCons(BlockOf(lines, sp), BlocksFrom(lines, sp.to));
    InkOfLines(lines, i, sp.to);
  }

  lemma {:induction false} InkOfBlocksFrom(lines: seq<string>, i: nat)
    requires i <= |lines|
    ensures InkAll(Contents(BlocksFrom(lines, i))) == InkAll(lines[i..])
    decreases |lines| - i
  {
    if i < |lines| {
      if SpanAt(lines, i).None? {
        BlankIffNoSpan(lines, i);
        InkOfStrip(lines[i]);
        BlankHasNoInk(lines[i]);
        assert lines[i..][1..] == lines[i + 1..];
        InkOfBlocksFrom(lines, i + 1);
        NoBlock(lines, i);
      } else {
        InkOfBlocksFrom(lines, SpanAt(lines, i).value.to);
        InkStep(lines, i, SpanAt(lines, i).value);
      }
    }
  }

  /** The characters of the blocks that are not white space are those of the text, in order. */
  lemma {:induction false} BlocksConserveText(text: string)
    ensures InkAll(Contents(Blocks(text))) == Ink(text)
  {
    var lines := Lines(text);
    InkOfBlocksFrom(lines, 0);
    assert lines[0..] == lines;
    LinesJoin(text);
    BlankHasNoInk("\n");
    InkOfJoin(lines, "\n");
  }

  /** Block number `k` is lines of the text: verbatim for code and tables, one stripped line for a heading. */
  lemma {:induction false} BlocksAreLines(text: string, k: nat)
    requires k < |Blocks(text)|
    ensures var sp := Spans(Lines(text), 0)[k];
            var b := Blocks(text)[k];
            var lines := Lines(text);
            && sp.from < sp.to <= |lines| && b.kind == sp.kind && Obeys(lines, sp)
            && (b.kind in {Code, Table} ==> b.content == Join(lines[sp.from..sp.to], "\n"))
            && (b.kind == Heading ==> b.content == Strip(lines[sp.from]) && 1 <= b.level <= 6
                                      && b.content[b.level] != '#' && forall i :: 0 <= i < b.level ==>
                                          b.content[i] == '#')
            && (b.kind == Paragraph ==> b.content == Strip(Join(lines[sp.from..sp.to], "\n")))
  {
    var lines := Lines(text);
    var spans := Spans(lines, 0);
    ParseIff(lines, 0, spans);
    ParsedSpan(lines, 0, spans, k);
    assert spans[k] in spans;
  }

  // ---------- What the marks look like ----------

  /** A fence is three backticks or three tildes, and is taken as it stands. */
  lemma FenceIff(s: string)
    ensures Fence(s) != "" <==> |s| >= 3 && (s[..3] == "```" || s[..3] == "~~~")
    ensures Fence(s) != "" ==> |s| >= 3 && Fence(s) == s[..3]
  {
  }

  /** A heading is one to six marks and then white space. */
  lemma {:induction false} HeadingIff(s: string)
    ensures IsHeading(s) <==>
              exists n :: 1 <= n <= 6 && n < |s| && Space(s[n]) && forall k :: 0 <= k < n ==> s[k] == '#'
  {
    if n :| 1 <= n <= 6 && n < |s| && Space(s[n]) && forall k :: 0 <= k < n ==> s[k] == '#' {
      assert Hashes(s) == n;
    }
  }

  /** A table starts with a line that has a bar and a line below it of bars, dashes, colons and blanks only, with a
      bar and a dash. */
  lemma {:induction false} TableStartIff(lines: seq<string>, i: nat)
    requires i < |lines|
    ensures IsTableStart(lines, i) <==>
              && i + 1 < |lines| && (exists k :: 0 <= k < |lines[i]| && lines[i][k] == '|')
              && var s := Strip(lines[i + 1]);
                 && (exists k :: 0 <= k < |s| && s[k] == '-') && (exists k :: 0 <= k < |s| && s[k] == '|')
                 && forall k :: 0 <= k < |s| ==> s[k] == '|' || s[k] == '-' || s[k] == ':' || s[k] == ' '
  {
    if i + 1 < |lines| {
      OnlyOf(Strip(lines[i + 1]), {'|', '-', ':', ' '});
    }
  }

  lemma {:induction false} OnlyOf(s: string, chars: set<char>)
    ensures (forall c <- s :: c in chars) <==> forall k :: 0 <= k < |s| ==> s[k] in chars
  {
    if forall k :: 0 <= k < |s| ==> s[k] in chars {
      forall c <- s ensures c in chars {
        var k :| 0 <= k < |s| && s[k] == c;
      }
    }
  }

  /** A code block ends with the first line that starts with the three characters its own fence has, or with the
      text: a block that was opened with tildes is not closed by backticks. */
  lemma {:induction false} CodeEndsWithItsFence(text: string, k: nat)
    requires k < |Blocks(text)| && Blocks(text)[k].kind == Code
    ensures var lines := Lines(text);
            var sp := Spans(lines, 0)[k];
            && sp.from < sp.to <= |lines| && |Strip(lines[sp.from])| >= 3
            && var fence := Strip(lines[sp.from])[..3];
               && (fence == "```" || fence == "~~~")
               && (forall j :: sp.from < j < sp.to - 1 ==> !(fence <= Strip(lines[j])))
               && (sp.to < |lines| ==> sp.from < sp.to - 1 && fence <= Strip(lines[sp.to - 1]))
  {
    BlocksAreLines(text, k);
    var lines := Lines(text);
    var sp := Spans(lines, 0)[k];
    FenceIff(Strip(lines[sp.from]));
    forall j | 0 <= j < |lines| ensures Closes(lines, Fence(Strip(lines[sp.from])), j)
                                       <==> Fence(Strip(lines[sp.from])) <= Strip(lines[j]) {
    }
  }

  /** A blank line, a fence, a heading or the start of a table. */
  predicate Mark(lines: seq<string>, j: nat)
    requires j < |lines|
  {
    Strip(lines[j]) == "" || Fence(Strip(lines[j])) != "" || IsHeading(Strip(lines[j])) || IsTableStart(lines, j)
  }

  /** A paragraph goes on to the next line that is blank or starts something else, and holds no such line. */
  lemma {:induction false} ParagraphEndsAtMark(lines: seq<string>, sp: Span)
    requires sp.from < sp.to <= |lines| && sp.kind == Paragraph && Obeys(lines, sp)
    ensures forall j :: sp.from <= j < sp.to ==> !Mark(lines, j)
    ensures sp.to < |lines| ==> Mark(lines, sp.to)
  {
    forall j: nat | j < |lines| ensures Mark(lines, j) <==> Interrupts(lines, j) {
    }
  }

  /** Blocks are in the order of their lines, and obey the rules. */
  lemma {:induction false} ParsedSpan(lines: seq<string>, i: nat, spans: seq<Span>, k: nat)
    requires i <= |lines| && IsParse(lines, i, spans) && k < |spans|
    ensures i <= spans[k].from < spans[k].to <= |lines| && Obeys(lines, spans[k])
    ensures k + 1 < |spans| ==> spans[k].to <= spans[k + 1].from
    decreases k
  {
    if k > 0 {
      ParsedSpan(lines, spans[0].to, spans[1..], k - 1);
    } else if |spans| > 1 {
      assert spans[1] == spans[1..][0];
    }
  }

  // ---------- Paragraphs ----------

  /** What a paragraph of the line machine looks like: text at both ends, and no empty line inside. */
  ghost predicate PlainParagraph(s: string) {
    s != "" && Stripped(s) && forall k :: 0 <= k < |s| ==> !BreakAt(s, k)
  }

  lemma {:induction false} NoBreakInJoin(parts: seq<string>)
    requires forall p <- parts :: p != "" && '\n' !in p
    ensures forall k :: 0 <= k < |Join(parts, "\n")| ==> !BreakAt(Join(parts, "\n"), k)
    ensures parts != [] ==> Join(parts, "\n") != "" && Join(parts, "\n")[0] != '\n'
  {
    if parts != [] {
      var p, s := parts[0], Join(parts, "\n");
      assert p in parts && p[0] in p;
      if |parts| == 1 {
        assert forall k :: 0 <= k < |s| ==> s[k] in p;
      } else {
        assert forall q <- parts[1..] :: q in parts;
        NoBreakInJoin(parts[1..]);
        var rest := Join(parts[1..], "\n");
        assert s == p + "\n" + rest;
        forall k | 0 <= k < |s| ensures !BreakAt(s, k) {
          if k < |p| {
            assert s[k] == p[k] && p[k] in p;
          } else if k > |p| {
            assert s[k] == rest[k - |p| - 1] && !BreakAt(rest, k - |p| - 1);
          }
        }
      }
    }
  }

  lemma {:induction false} ParagraphIsPlain(lines: seq<string>, sp: Span)
    requires sp.from < sp.to <= |lines| && sp.kind == Paragraph && Obeys(lines, sp) && forall l <- lines :: '\n' !in l
    ensures PlainParagraph(BlockOf(lines, sp).content)
  {
    var parts := lines[sp.from..sp.to];
    forall p <- parts ensures p != "" && '\n' !in p && Strip(p) != "" {
      var k :| 0 <= k < |parts| && parts[k] == p;
      assert !Interrupts(lines, sp.from + k);
    }
    NoBreakInJoin(parts);
    var joined := Join(parts, "\n");
    var a, b := StripIsMiddle(joined);
    forall k | 0 <= k < b - a ensures !BreakAt(joined[a..b], k) {
      assert !BreakAt(joined, a + k);
    }
    InkOfStrip(parts[0]);
    BlankHasNoInk(parts[0]);
    BlankHasNoInk("\n");
    InkOfJoin(parts, "\n");
    InkOfStrip(joined);
    BlankHasNoInk(joined);
  }

  lemma {:induction false} PartsOfJoin(p: string, rest: string)
    requires PlainParagraph(p) && rest != "" && Stripped(rest)
    ensures SplitAtBreaks(p + "\n\n" + rest) == [p] + SplitAtBreaks(rest)
  {
    var s := p + "\n\n" + rest;
    forall k | 0 <= k < |p| ensures !BreakAt(s, k) {
      assert !BreakAt(p, k);
      assert s[|p| - 1] == p[|p| - 1];
    }
    assert BreakAt(s, |p|);
    assert NextBreak(s, 0) == |p|;
    assert s[|p| + 2] == rest[0];
    assert RunEnd(s, |p|) == |p| + 2;
    assert s[..|p|] == p && s[|p| + 2..] == rest;
  }

  lemma {:induction false} JoinedIsStripped(contents: seq<string>)
    requires contents != [] && forall p <- contents :: PlainParagraph(p)
    ensures var s := Join(contents, "\n\n"); s != "" && Stripped(s)
  {
    assert contents[0] in contents;
    if |contents| > 1 {
      JoinedIsStripped(contents[1..]);
    }
  }

  /** Splitting at blank lines exactly undoes joining paragraphs with them. */
  lemma {:induction false} SplitUndoesJoin(contents: seq<string>)
    requires forall p <- contents :: PlainParagraph(p)
    ensures Paragraphs(Join(contents, "\n\n")) == contents
  {
    if contents == [] {
      NoParagraphsIff("");
    } else {
      var p := contents[0];
      assert p in contents;
      StrippedStays(p);
      if |contents| == 1 {
        forall k | 0 <= k < |p| ensures !BreakAt(p, k) {
        }
        assert SplitAtBreaks(p) == [p] && StrippedParts([p]) == [p];
      } else {
        SplitUndoesJoin(contents[1..]);
        JoinedIsStripped(contents[1..]);
        PartsOfJoin(p, Join(contents[1..], "\n\n"));
        assert ([p] + SplitAtBreaks(Join(contents[1..], "\n\n")))[1..] == SplitAtBreaks(Join(contents[1..], "\n\n"));
        assert contents == [p] + contents[1..];
      }
    }
  }
}
