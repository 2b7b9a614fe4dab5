/** The Markdown line machine: headings, fenced code, tables and paragraphs. */
module Markdown {
  import opened Common
  import opened Text

  datatype Kind = Heading | Code | Table | Paragraph

  datatype Block = Block(kind: Kind, content: string, level: nat)

  // ---------- Recognising lines ----------

  function Fence(stripped: string): string {
    if StartsWith(stripped, "```") then "```" else if StartsWith(stripped, "~~~") then "~~~" else ""
  }

  function Hashes(s: string): (n: nat)
    ensures n <= |s| && (forall i :: 0 <= i < n ==> s[i] == '#') && (n < |s| ==> s[n] != '#')
  {
    if s != "" && s[0] == '#' then 1 + Hashes(s[1..]) else 0
  }

  /** `^#{1,6}\s` */
  predicate IsHeading(stripped: string) {
    var n := Hashes(stripped);
    1 <= n <= 6 && n < |stripped| && Space(stripped[n])
  }

  predicate IsSeparator(line: string) {
    var s := Strip(line);
    '-' in s && '|' in s && forall c <- s :: c in {'|', '-', ':', ' '}
  }

  predicate IsTableStart(lines: seq<string>, i: nat)
    requires i < |lines|
  {
    '|' in lines[i] && i + 1 < |lines| && IsSeparator(lines[i + 1])
  }

  predicate Closes(lines: seq<string>, fence: string, i: nat)
    requires i < |lines|
  {
    StartsWith(Strip(lines[i]), fence)
  }

  /** Where a paragraph ends: a blank line, a fence, a heading, or the start of a table. */
  predicate Interrupts(lines: seq<string>, i: nat)
    requires i < |lines|
  {
    var s := Strip(lines[i]);
    s == "" || Fence(s) != "" || IsHeading(s) || IsTableStart(lines, i)
  }

  // ---------- Spans ----------

  /** Lines `from` up to, not including, `to`. */
  datatype Span = Span(kind: Kind, from: nat, to: nat)

  function CodeEnd(lines: seq<string>, fence: string, i: nat): (j: nat)
    requires i <= |lines|
    ensures i <= j <= |lines|
    decreases |lines| - i
  {
    if i == |lines| then i else if Closes(lines, fence, i) then i + 1 else CodeEnd(lines, fence, i + 1)
  }

  function TableEnd(lines: seq<string>, i: nat): (j: nat)
    requires i <= |lines|
    ensures i <= j <= |lines|
    decreases |lines| - i
  {
    if i == |lines| || '|' !in lines[i] then i else TableEnd(lines, i + 1)
  }

  function ParagraphEnd(lines: seq<string>, i: nat): (j: nat)
    requires i <= |lines|
    ensures i <= j <= |lines|
    decreases |lines| - i
  {
    if i == |lines| || Interrupts(lines, i) then i else ParagraphEnd(lines, i + 1)
  }

  /** The block that begins on line `i`; none on a blank line. */
  function SpanAt(lines: seq<string>, i: nat): (sp: Option<Span>)
    requires i < |lines|
    ensures sp.Some? ==> sp.value.from == i < sp.value.to <= |lines|
  {
    var s := Strip(lines[i]);
    if Fence(s) != "" then Some(Span(Code, i, CodeEnd(lines, Fence(s), i + 1)))
    else if IsHeading(s) then Some(Span(Heading, i, i + 1))
    else if IsTableStart(lines, i) then Some(Span(Table, i, TableEnd(lines, i + 1)))
    else if s == "" then None
    else Some(Span(Paragraph, i, ParagraphEnd(lines, i + 1)))
  }

  /** The blocks from line `i` on, as spans. */
  function Spans(lines: seq<string>, i: nat): (spans: seq<Span>)
    requires i <= |lines|
    ensures forall sp <- spans :: i <= sp.from < sp.to <= |lines|
    decreases |lines| - i
  {
    if i == |lines| then []
    else if SpanAt(lines, i).None? then Spans(lines, i + 1)
    else [SpanAt(lines, i).value] + Spans(lines, SpanAt(lines, i).value.to)
  }

  function BlockOf(lines: seq<string>, sp: Span): Block
    requires sp.from < sp.to <= |lines|
  {
    match sp.kind
    case Code => Block(Code, Join(lines[sp.from..sp.to], "\n"), 0)
    case Table => Block(Table, Join(lines[sp.from..sp.to], "\n"), 0)
    case Heading => Block(Heading, Strip(lines[sp.from]), Hashes(Strip(lines[sp.from])))
    case Paragraph => Block(Paragraph, Strip(Join(lines[sp.from..sp.to], "\n")), 0)
  }

  function BlocksOf(lines: seq<string>, spans: seq<Span>): (blocks: seq<Block>)
    requires forall sp <- spans :: sp.from < sp.to <= |lines|
    ensures |blocks| == |spans|
  {
    seq(|spans|, k requires 0 <= k < |spans| => assert spans[k] in spans; BlockOf(lines, spans[k]))
  }

  function Blocks(text: string): seq<Block> {
    BlocksOf(Lines(text), Spans(Lines(text), 0))
  }

  // ---------- The line machine ----------

  method TakeCode(lines: seq<string>, start: nat, fence: string) returns (content: string, i: nat)
    requires start < |lines|
    ensures i == CodeEnd(lines, fence, start + 1) && content == Join(lines[start..i], "\n")
  {
    var code := [lines[start]];
    i := start + 1;
    while i < |lines|
      invariant start < i <= |lines| && code == lines[start..i]
      invariant CodeEnd(lines, fence, start + 1) == CodeEnd(lines, fence, i)
    {
      code := code + [lines[i]];
      if Closes(lines, fence, i) {
        i := i + 1;
        assert code == lines[start..i];
        return Join(code, "\n"), i;
      }
      i := i + 1;
    }
    content := Join(code, "\n");
  }

  method TakeTable(lines: seq<string>, start: nat) returns (content: string, i: nat)
    requires start < |lines|
    ensures i == TableEnd(lines, start + 1) && content == Join(lines[start..i], "\n")
  {
    var table := [lines[start]];
    i := start + 1;
    while i < |lines| && '|' in lines[i]
      invariant start < i <= |lines| && table == lines[start..i]
      invariant TableEnd(lines, start + 1) == TableEnd(lines, i)
    {
      table := table + [lines[i]];
      i := i + 1;
    }
    content := Join(table, "\n");
  }

  method TakeParagraph(lines: seq<string>, start: nat) returns (content: string, i: nat)
    requires start < |lines|
    ensures i == ParagraphEnd(lines, start + 1) && content == Strip(Join(lines[start..i], "\n"))
  {
    var para := [lines[start]];
    i := start + 1;
    while i < |lines|
      invariant start < i <= |lines| && para == lines[start..i]
      invariant ParagraphEnd(lines, start + 1) == ParagraphEnd(lines, i)
    {
      var next := Strip(lines[i]);
      if next == "" {
        break;
      }
      if Fence(next) != "" || IsHeading(next) {
        break;
      }
      if IsTableStart(lines, i) {
        break;
      }
      para := para + [lines[i]];
      i := i + 1;
    }
    content := Strip(Join(para, "\n"));
  }

  function BlocksFrom(lines: seq<string>, i: nat): seq<Block>
    requires i <= |lines|
  {
    BlocksOf(lines, Spans(lines, i))
  }

  lemma BlocksCons(lines: seq<string>, i: nat, sp: Span)
    requires i < |lines| && SpanAt(lines, i) == Some(sp)
    ensures BlocksFrom(lines, i) == [BlockOf(lines, sp)] + BlocksFrom(lines, sp.to)
  {
  }

  lemma {:induction false} NextBlock(lines: seq<string>, i: nat, sp: Span, b: Block, done: seq<Block>)
    requires i < |lines| && SpanAt(lines, i) == Some(sp) && b == BlockOf(lines, sp)
    ensures done + BlocksFrom(lines, i) == done + [b] + BlocksFrom(lines, sp.to)
  {
    BlocksCons(lines, i, sp);
  }

  lemma NoBlock(lines: seq<string>, i: nat)
    requires i < |lines| && SpanAt(lines, i).None?
    ensures BlocksFrom(lines, i) == BlocksFrom(lines, i + 1)
  {
  }

  /** `parse_blocks`. */
  method ParseBlocks(text: string) returns (blocks: seq<Block>)
    ensures blocks == Blocks(text)
  {
    var lines := Lines(text);
    blocks := [];
    var i := 0;
    ghost var all := BlocksFrom(lines, 0);
    while i < |lines|
      invariant 0 <= i <= |lines| && all == blocks + BlocksFrom(lines, i)
    {
      var line := Strip(lines[i]);
      if Fence(line) != "" {
        var content, j := TakeCode(lines, i, Fence(line));
        NextBlock(lines, i, Span(Code, i, j), Block(Code, content, 0), blocks);
        blocks, i := blocks + [Block(Code, content, 0)], j;
      } else if IsHeading(line) {
        NextBlock(lines, i, Span(Heading, i, i + 1), Block(Heading, line, Hashes(line)), blocks);
        blocks, i := blocks + [Block(Heading, line, Hashes(line))], i + 1;
      } else if IsTableStart(lines, i) {
        var content, j := TakeTable(lines, i);
        NextBlock(lines, i, Span(Table, i, j), Block(Table, content, 0), blocks);
        blocks, i := blocks + [Block(Table, content, 0)], j;
      } else if line == "" {
        NoBlock(lines, i);
        i := i + 1;
      } else {
        var content, j := TakeParagraph(lines, i);
        NextBlock(lines, i, Span(Paragraph, i, j), Block(Paragraph, content, 0), blocks);
        blocks, i := blocks + [Block(Paragraph, content, 0)], j;
      }
    }
  }

  // ---------- Rules ----------

  predicate BlankLine(lines: seq<string>, i: nat)
    requires i < |lines|
  {
    Strip(lines[i]) == ""
  }

  /** What makes a stretch of lines a block of its kind, and why it begins and ends where it does. */
  ghost predicate Obeys(lines: seq<string>, sp: Span)
    requires sp.from < sp.to <= |lines|
  {
    var s := Strip(lines[sp.from]);
    match sp.kind
    case Code =>
      && Fence(s) != ""
      && (forall k :: sp.from < k < sp.to - 1 ==> !Closes(lines, Fence(s), k))
      && (if sp.to - 1 > sp.from then Closes(lines, Fence(s), sp.to - 1) || sp.to == |lines| else sp.to == |lines|)
    case Heading => Fence(s) == "" && IsHeading(s) && sp.to == sp.from + 1
    case Table =>
      && Fence(s) == "" && !IsHeading(s) && IsTableStart(lines, sp.from)
      && (forall k :: sp.from < k < sp.to ==> '|' in lines[k]) && (sp.to < |lines| ==> '|' !in lines[sp.to])
    case Paragraph =>
      && (forall k :: sp.from <= k < sp.to ==> !Interrupts(lines, k)) && (sp.to < |lines| ==> Interrupts(lines, sp.to))
  }

  lemma {:induction false} CodeEndRule(lines: seq<string>, fence: string, i: nat)
    requires i <= |lines|
    ensures var j := CodeEnd(lines, fence, i);
            && (forall k :: i <= k < j - 1 ==> !Closes(lines, fence, k))
            && (if j > i then Closes(lines, fence, j - 1) || j == |lines| else j == |lines|)
    decreases |lines| - i
  {
    if i < |lines| && !Closes(lines, fence, i) {
      CodeEndRule(lines, fence, i + 1);
    }
  }

  lemma {:induction false} TableEndRule(lines: seq<string>, i: nat)
    requires i <= |lines|
    ensures var j := TableEnd(lines, i);
            (forall k :: i <= k < j ==> '|' in lines[k]) && (j < |lines| ==> '|' !in lines[j])
    decreases |lines| - i
  {
    if i < |lines| && '|' in lines[i] {
      TableEndRule(lines, i + 1);
    }
  }

  lemma {:induction false} ParagraphEndRule(lines: seq<string>, i: nat)
    requires i <= |lines|
    ensures var j := ParagraphEnd(lines, i);
            (forall k :: i <= k < j ==> !Interrupts(lines, k)) && (j < |lines| ==> Interrupts(lines, j))
    decreases |lines| - i
  {
    if i < |lines| && !Interrupts(lines, i) {
      ParagraphEndRule(lines, i + 1);
    }
  }

  /** A division of the lines from `i` on: blocks by the rules, blank lines between them. */
  ghost predicate IsParse(lines: seq<string>, i: nat, spans: seq<Span>)
    requires i <= |lines|
    decreases |lines| - i, |spans|
  {
    if spans == [] then forall k :: i <= k < |lines| ==> BlankLine(lines, k)
    else
      var sp := spans[0];
      && i <= sp.from < sp.to <= |lines| && Obeys(lines, sp)
      && (forall k :: i <= k < sp.from ==> BlankLine(lines, k))
      && IsParse(lines, sp.to, spans[1..])
  }

  lemma {:induction false} BlankIsNothing(lines: seq<string>, i: nat)
    requires i < |lines| && BlankLine(lines, i)
    ensures Fence(Strip(lines[i])) == "" && !IsHeading(Strip(lines[i])) && !IsTableStart(lines, i)
  {
    InkOfStrip(lines[i]);
    assert forall c <- lines[i] :: Space(c);
  }
}
