/** Python's notion of white space, and the operations on text that the chunkers use. */
module Text {

  /** `str.isspace` of one character, which is also `\s` in a regular expression. */
  predicate Space(c: char) {
    var n := c as int;
    9 <= n <= 13 || 28 <= n <= 32 || n == 0x85 || n == 0xA0 || n == 0x1680 || 0x2000 <= n <= 0x200A
    || n == 0x2028 || n == 0x2029 || n == 0x202F || n == 0x205F || n == 0x3000
  }

  predicate Blank(s: string) {
    forall i :: 0 <= i < |s| ==> Space(s[i])
  }

  function LeftStrip(s: string): string {
    if s != "" && Space(s[0]) then LeftStrip(s[1..]) else s
  }

  function RightStrip(s: string): string {
    if s != "" && Space(s[|s| - 1]) then RightStrip(s[..|s| - 1]) else s
  }

  function Strip(s: string): string {
    RightStrip(LeftStrip(s))
  }

  /** The characters that are not white space. */
  function Ink(s: string): string {
    if s == "" then "" else (if Space(s[0]) then "" else [s[0]]) + Ink(s[1..])
  }

  function InkAll(parts: seq<string>): string {
    if parts == [] then "" else Ink(parts[0]) + InkAll(parts[1..])
  }

  function Join(parts: seq<string>, sep: string): string {
    if parts == [] then "" else if |parts| == 1 then parts[0] else parts[0] + sep + Join(parts[1..], sep)
  }

  // ---------- Ink ----------

  lemma {:induction false} InkAppend(s: string, t: string)
    ensures Ink(s + t) == Ink(s) + Ink(t)
  {
    if s == "" {
      assert s + t == t;
    } else {
      assert (s + t)[1..] == s[1..] + t;
      InkAppend(s[1..], t);
    }
  }

  lemma {:induction false} InkAllAppend(a: seq<string>, b: seq<string>)
    ensures InkAll(a + b) == InkAll(a) + InkAll(b)
  {
    if a == [] {
      assert a + b == b;
    } else {
      assert (a + b)[1..] == a[1..] + b;
      InkAllAppend(a[1..], b);
    }
  }

  lemma {:induction false} BlankHasNoInk(s: string)
    ensures Ink(s) == "" <==> Blank(s)
  {
    if s != "" {
      BlankHasNoInk(s[1..]);
      assert Blank(s) <==> Space(s[0]) && Blank(s[1..]) by {
        assert forall i :: 1 <= i < |s| ==> s[i] == s[1..][i - 1];
      }
    }
  }

  lemma {:induction false} InkOfJoin(parts: seq<string>, sep: string)
    requires Blank(sep)
    ensures Ink(Join(parts, sep)) == InkAll(parts)
  {
    if |parts| == 1 {
      assert InkAll(parts[1..]) == "";
    } else if |parts| > 1 {
      InkOfJoin(parts[1..], sep);
      InkAppend(parts[0] + sep, Join(parts[1..], sep));
      InkAppend(parts[0], sep);
      BlankHasNoInk(sep);
    }
  }

  // ---------- Strip ----------

  lemma {:induction false} LeftStripSplits(s: string) returns (n: nat)
    ensures n <= |s| && LeftStrip(s) == s[n..] && Blank(s[..n])
    ensures n < |s| ==> !Space(s[n])
  {
    if s != "" && Space(s[0]) {
      var m := LeftStripSplits(s[1..]);
      n := m + 1;
      assert s[1..][..m] == s[1..n];
      assert forall i :: 1 <= i < n ==> s[i] == s[1..n][i - 1];
    } else {
      n := 0;
    }
  }

  lemma {:induction false} RightStripSplits(s: string) returns (n: nat)
    ensures n <= |s| && RightStrip(s) == s[..n] && Blank(s[n..])
    ensures n > 0 ==> !Space(s[n - 1])
  {
    if s != "" && Space(s[|s| - 1]) {
      n := RightStripSplits(s[..|s| - 1]);
      assert s[..|s| - 1][n..] == s[n..|s| - 1];
      assert forall i :: n <= i < |s| - 1 ==> s[i] == s[n..|s| - 1][i - n];
    } else {
      n := |s|;
    }
  }

  predicate Stripped(s: string) {
    s == "" || (!Space(s[0]) && !Space(s[|s| - 1]))
  }

  /** `strip` removes white space at both ends and nothing else. */
  lemma {:induction false} StripIsMiddle(s: string) returns (i: nat, j: nat)
    ensures i <= j <= |s| && Strip(s) == s[i..j] && Blank(s[..i]) && Blank(s[j..]) && Stripped(Strip(s))
  {
    i := LeftStripSplits(s);
    var t := s[i..];
    var n := RightStripSplits(t);
    j := i + n;
    assert t[..n] == s[i..j] && t[n..] == s[j..];
  }

  lemma {:induction false} InkOfStrip(s: string)
    ensures Ink(Strip(s)) == Ink(s)
    ensures Strip(s) == "" <==> Blank(s)
  {
    var i, j := StripIsMiddle(s);
    assert s == s[..i] + s[i..j] + s[j..];
    InkAppend(s[..i] + s[i..j], s[j..]);
    InkAppend(s[..i], s[i..j]);
    BlankHasNoInk(s[..i]);
    BlankHasNoInk(s[j..]);
    BlankHasNoInk(s);
    BlankHasNoInk(Strip(s));
    if Strip(s) != "" {
      assert !Space(Strip(s)[0]);
    }
  }

  lemma {:induction false} StrippedStays(s: string)
    requires Stripped(s)
    ensures Strip(s) == s
  {
    if s != "" {
      assert LeftStrip(s) == s && RightStrip(s) == s;
    }
  }

  predicate StartsWith(s: string, p: string) {
    |p| <= |s| && s[..|p|] == p
  }

  // ---------- Lines ----------

  function LineEnd(s: string, i: nat): (j: nat)
    requires i <= |s|
    ensures i <= j <= |s| && (j < |s| ==> s[j] == '\n') && forall k :: i <= k < j ==> s[k] != '\n'
    decreases |s| - i
  {
    if i == |s| || s[i] == '\n' then i else LineEnd(s, i + 1)
  }

  /** `s.split("\n")` */
  function Lines(s: string): (lines: seq<string>)
    ensures lines != [] && forall l <- lines :: '\n' !in l
    decreases |s|
  {
    var j := LineEnd(s, 0);
    if j == |s| then [s] else [s[..j]] + Lines(s[j + 1..])
  }

  lemma {:induction false} LinesJoin(s: string)
    ensures Join(Lines(s), "\n") == s
    decreases |s|
  {
    var j := LineEnd(s, 0);
    if j < |s| {
      LinesJoin(s[j + 1..]);
      assert Lines(s)[1..] == Lines(s[j + 1..]);
      assert s == s[..j] + "\n" + s[j + 1..];
    }
  }
}
