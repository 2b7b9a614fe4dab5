/** Metadata filters: validation, printing as a boolean expression of the vector store, and reading back. */
module FilterExpr {
  import opened Common
  import opened Text

  datatype Scalar = Bool(b: bool) | Int(i: int) | Str(s: string)

  datatype Operator = EQ | NE | GT | GTE | LT | LTE | IN | NIN

  datatype Value = One(v: Scalar) | Many(vs: seq<Scalar>)

  datatype MetadataFilter = MetadataFilter(key: string, op: Operator, value: Value)

  // ---------- Validation ----------

  /** A decoded JSON value of a request, as far as the validation looks at it. */
  datatype Raw = Plain(scalar: Scalar) | List(items: seq<Raw>) | Other

  datatype RawFilter = RawFilter(key: Option<string>, op: Option<Operator>, value: Raw)

  datatype Error = BadKey | BadOperator | BadValue

  predicate Letter(c: char) { 'a' <= c <= 'z' || 'A' <= c <= 'Z' || c == '_' }

  predicate Digit(c: char) { '0' <= c <= '9' }

  predicate Identifier(s: string) {
    s != "" && Letter(s[0]) && forall i :: 0 < i < |s| ==> Letter(s[i]) || Digit(s[i])
  }

  /** `^[a-zA-Z_][a-zA-Z0-9_]*$` with `match`: the dollar also matches before one final newline. */
  predicate KeyOk(s: string) {
    Identifier(s) || (s != "" && s[|s| - 1] == '\n' && Identifier(s[..|s| - 1]))
  }

  predicate Listed(op: Operator) { op == IN || op == NIN }

  predicate ValueOk(op: Operator, value: Raw) {
    if Listed(op) then value.List? && value.items != [] && forall x <- value.items :: x.Plain?
    else value.Plain?
  }

  predicate RawOk(r: RawFilter) {
    r.key.Some? && KeyOk(r.key.value) && r.op.Some? && ValueOk(r.op.value, r.value)
  }

  function Scalars(items: seq<Raw>): seq<Scalar>
    requires forall x <- items :: x.Plain?
  {
    seq(|items|, i requires 0 <= i < |items| => assert items[i] in items; items[i].scalar)
  }

  function Accepted(r: RawFilter): MetadataFilter
    requires RawOk(r)
  {
    MetadataFilter(r.key.value, r.op.value,
                   if Listed(r.op.value) then Many(Scalars(r.value.items)) else One(r.value.scalar))
  }

  /** What every accepted filter satisfies. */
  ghost predicate Valid(f: MetadataFilter) {
    KeyOk(f.key) && (Listed(f.op) <==> f.value.Many?) && (f.value.Many? ==> f.value.vs != [])
  }

  /** Why an item is refused: the key is looked at first, the value last. */
  function Refusal(r: RawFilter): Option<Error> {
    if r.key.None? || !KeyOk(r.key.value) then Some(BadKey)
    else if r.op.None? then Some(BadOperator)
    else if !ValueOk(r.op.value, r.value) then Some(BadValue)
    else None
  }

  /** The filter says what the item said. */
  ghost predicate Carries(r: RawFilter, f: MetadataFilter) {
    && r.key == Some(f.key) && r.op == Some(f.op)
    && if f.op == IN || f.op == NIN then
         && r.value.List? && f.value.Many? && |f.value.vs| == |r.value.items|
         && forall j :: 0 <= j < |f.value.vs| ==> r.value.items[j] == Plain(f.value.vs[j])
       else f.value.One? && r.value == Plain(f.value.v)
  }

  /** The error names the first of key, operator and value that is wrong. */
  ghost predicate Explains(r: RawFilter, e: Error) {
    && (e == BadKey <==> r.key.None? || !KeyOk(r.key.value))
    && (e == BadOperator <==> e != BadKey && r.op.None?)
    && (e == BadValue ==>
          if r.op == Some(IN) || r.op == Some(NIN) then
            !r.value.List? || r.value.items == [] || exists x <- r.value.items :: !x.Plain?
          else !r.value.Plain?)
  }

  ghost predicate FirstBad(raw: seq<RawFilter>, i: nat) {
    i < |raw| && !RawOk(raw[i]) && forall j :: 0 <= j < i ==> RawOk(raw[j])
  }

  /** `parse_filters`: all items in order, or the error of the first bad one. */
  method ParseFilters(raw: seq<RawFilter>) returns (r: Result<seq<MetadataFilter>, Error>)
    ensures r.Ok? <==> forall x <- raw :: RawOk(x)
    ensures r.Ok? ==>
              |r.value| == |raw| && forall i :: 0 <= i < |raw| ==> RawOk(raw[i]) && r.value[i] == Accepted(raw[i])
    ensures r.Ok? ==> forall f <- r.value :: Valid(f)
    ensures r.Ok? <==> forall x <- raw ::
              && x.key.Some? && KeyOk(x.key.value) && x.op.Some?
              && if x.op.value == IN || x.op.value == NIN then
                   x.value.List? && x.value.items != [] && forall y <- x.value.items :: y.Plain?
                 else x.value.Plain?
    ensures r.Ok? ==> forall i :: 0 <= i < |raw| ==> Carries(raw[i], r.value[i])
    ensures r.Err? ==>
              exists i: nat :: FirstBad(raw, i) && Refusal(raw[i]) == Some(r.error) && Explains(raw[i], r.error)
  {
    var filters: seq<MetadataFilter> := [];
    for i := 0 to |raw|
      invariant |filters| == i
      invariant forall j :: 0 <= j < i ==> RawOk(raw[j]) && filters[j] == Accepted(raw[j])
      invariant forall j :: 0 <= j < i ==> Carries(raw[j], filters[j])
    {
      var item := raw[i];
      assert item in raw && (!RawOk(item) ==> FirstBad(raw, i));
      if item.key.None? || !KeyOk(item.key.value) {
        return Err(BadKey);
      }
      if item.op.None? {
        return Err(BadOperator);
      }
      if !ValueOk(item.op.value, item.value) {
        return Err(BadValue);
      }
      AcceptedCarries(item);
      filters := filters + [Accepted(item)];
    }
    return Ok(filters);
  }

  predicate IdentifierUpTo(s: string, n: nat) {
    0 < n <= |s| && Letter(s[0]) && forall i :: 0 <= i < n ==> Letter(s[i]) || Digit(s[i])
  }

  /** A key is a letter or underscore, then letters, digits and underscores, and perhaps one final line feed. */
  lemma KeyOkIff(s: string)
    ensures KeyOk(s) <==> exists n: nat :: IdentifierUpTo(s, n) && (n == |s| || (n == |s| - 1 && s[n] == '\n'))
  {
    forall n: nat | n <= |s| ensures Identifier(s[..n]) <==> IdentifierUpTo(s, n) {
      assert n > 0 ==> s[..n][0] == s[0];
      assert forall i :: 0 <= i < n ==> s[..n][i] == s[i];
      if IdentifierUpTo(s, n) {
        assert forall i :: 0 < i < n ==> Letter(s[..n][i]) || Digit(s[..n][i]);
      }
      if Identifier(s[..n]) {
        assert forall i :: 0 < i < n ==> Letter(s[i]) || Digit(s[i]) by {
          assert forall i :: 0 < i < n ==> Letter(s[..n][i]) || Digit(s[..n][i]);
        }
      }
    }
    assert s[..|s|] == s;
    assert Identifier(s) ==> IdentifierUpTo(s, |s|);
    assert s != "" && Identifier(s[..|s| - 1]) ==> IdentifierUpTo(s, |s| - 1);
  }

  lemma AcceptedCarries(r: RawFilter)
    requires RawOk(r)
    ensures Carries(r, Accepted(r))
  {
    if Listed(r.op.value) {
      assert forall j :: 0 <= j < |r.value.items| ==> r.value.items[j] in r.value.items;
    }
  }

  // ---------- Printing ----------

  /** `s.replace(c, sub)` */
  function Replace(s: string, c: char, sub: string): string {
    if s == "" then "" else (if s[0] == c then sub else [s[0]]) + Replace(s[1..], c, sub)
  }

  function RenderNat(n: nat): string {
    if n < 10 then [DigitOf(n)] else RenderNat(n / 10) + [DigitOf(n % 10)]
  }

  function DigitOf(d: nat): char
    requires d < 10
  {
    '0' + d as char
  }

  function RenderScalar(v: Scalar): string {
    match v
    case Bool(b) => if b then "true" else "false"
    case Int(i) => if i < 0 then "-" + RenderNat(-i) else RenderNat(i)
    case Str(s) => "\"" + Replace(Replace(s, '\\', "\\\\"), '"', "\\\"") + "\""
  }

  function RenderEach(vs: seq<Scalar>): seq<string> {
    seq(|vs|, i requires 0 <= i < |vs| => RenderScalar(vs[i]))
  }

  function RenderList(vs: seq<Scalar>): string {
    "[" + Join(RenderEach(vs), ", ") + "]"
  }

  function Symbol(op: Operator): string {
    match op
    case EQ => "=="
    case NE => "!="
    case GT => ">"
    case GTE => ">="
    case LT => "<"
    case LTE => "<="
    case IN => "in"
    case NIN => "not in"
  }

  function RenderValue(v: Value): string {
    match v
    case One(x) => RenderScalar(x)
    case Many(xs) => RenderList(xs)
  }

  /** `_build_one` */
  function BuildOne(f: MetadataFilter): string {
    "metadata[\"" + f.key + "\"] " + Symbol(f.op) + " " + RenderValue(f.value)
  }

  function BuildEach(fs: seq<MetadataFilter>): seq<string> {
    seq(|fs|, i requires 0 <= i < |fs| => BuildOne(fs[i]))
  }

  /** `build_milvus_expr` */
  function Build(fs: seq<MetadataFilter>): string {
    Join(BuildEach(fs), " and ")
  }

  // ---------- Escaping ----------

  function EscapeChar(c: char): string {
    if c == '\\' then "\\\\" else if c == '"' then "\\\"" else [c]
  }

  function Escape(s: string): string {
    if s == "" then "" else EscapeChar(s[0]) + Escape(s[1..])
  }

  lemma {:induction false} ReplaceAppend(s: string, t: string, c: char, sub: string)
    ensures Replace(s + t, c, sub) == Replace(s, c, sub) + Replace(t, c, sub)
  {
    if s == "" {
      assert s + t == t;
    } else {
      assert (s + t)[1..] == s[1..] + t;
      ReplaceAppend(s[1..], t, c, sub);
    }
  }

  /** The two replacements, one after the other, escape each character on its own. */
  lemma {:induction false} ReplacementsEscape(s: string)
    ensures Replace(Replace(s, '\\', "\\\\"), '"', "\\\"") == Escape(s)
  {
    if s != "" {
      var first := if s[0] == '\\' then "\\\\" else [s[0]];
      ReplaceAppend(first, Replace(s[1..], '\\', "\\\\"), '"', "\\\"");
      ReplacementsEscape(s[1..]);
      assert Replace(first, '"', "\\\"") == EscapeChar(s[0]) by {
        if s[0] == '\\' {
          assert "\\\\"[1..] == "\\";
          assert "\\"[1..] == "";
        } else {
          assert [s[0]][1..] == "";
        }
      }
    }
  }

  // ---------- Reading ----------

  datatype Parse<T> = Done(value: T, rest: string) | Failed

  /** The rest of a quoted literal after its opening quote. */
  function ReadQuoted(s: string): (r: Parse<string>)
    ensures r.Done? ==> |r.rest| < |s|
  {
    if s == "" then Failed
    else if s[0] == '"' then Done("", s[1..])
    else if s[0] == '\\' then
      if |s| == 1 then Failed
      else
        var r := ReadQuoted(s[2..]);
        if r.Done? then Done([s[1]] + r.value, r.rest) else Failed
    else
      var r := ReadQuoted(s[1..]);
      if r.Done? then Done([s[0]] + r.value, r.rest) else Failed
  }

  function ReadDigits(s: string, n: nat): (r: (nat, string))
    ensures |r.1| <= |s|
  {
    if s != "" && Digit(s[0]) then ReadDigits(s[1..], 10 * n + (s[0] - '0') as nat) else (n, s)
  }

  function ReadScalar(s: string): (r: Parse<Scalar>)
    ensures r.Done? ==> |r.rest| < |s|
  {
    if StartsWith(s, "true") then Done(Bool(true), s[4..])
    else if StartsWith(s, "false") then Done(Bool(false), s[5..])
    else if s != "" && s[0] == '"' then
      var r := ReadQuoted(s[1..]);
      if r.Done? then Done(Str(r.value), r.rest) else Failed
    else if |s| > 1 && s[0] == '-' && Digit(s[1]) then
      var (n, rest) := ReadDigits(s[1..], 0);
      Done(Int(0 - n), rest)
    else if s != "" && Digit(s[0]) then
      var (n, rest) := ReadDigits(s, 0);
      Done(Int(n), rest)
    else Failed
  }

  /** One or more scalars separated by commas, up to the closing bracket. */
  function ReadItems(s: string): (items: Parse<seq<Scalar>>)
    ensures items.Done? ==> |items.rest| < |s|
    decreases |s|
  {
    var r := ReadScalar(s);
    if r.Failed? then Failed
    else if StartsWith(r.rest, "]") then Done([r.value], r.rest[1..])
    else if StartsWith(r.rest, ", ") then
      var more := ReadItems(r.rest[2..]);
      if more.Done? then Done([r.value] + more.value, more.rest) else Failed
    else Failed
  }

  function ReadKey(s: string): (r: Parse<string>)
    ensures r.Done? ==> |r.rest| < |s|
  {
    if s == "" then Failed
    else if s[0] == '"' then Done("", s[1..])
    else
      var r := ReadKey(s[1..]);
      if r.Done? then Done([s[0]] + r.value, r.rest) else Failed
  }

  function ReadOperator(s: string): (r: Parse<Operator>)
    ensures r.Done? ==> |r.rest| < |s|
  {
    if StartsWith(s, "== ") then Done(EQ, s[3..])
    else if StartsWith(s, "!= ") then Done(NE, s[3..])
    else if StartsWith(s, "> ") then Done(GT, s[2..])
    else if StartsWith(s, ">= ") then Done(GTE, s[3..])
    else if StartsWith(s, "< ") then Done(LT, s[2..])
    else if StartsWith(s, "<= ") then Done(LTE, s[3..])
    else if StartsWith(s, "in ") then Done(IN, s[3..])
    else if StartsWith(s, "not in ") then Done(NIN, s[7..])
    else Failed
  }

  function ReadValue(s: string): (r: Parse<Value>)
    ensures r.Done? ==> |r.rest| < |s|
  {
    if StartsWith(s, "[") then
      var r := ReadItems(s[1..]);
      if r.Done? then Done(Many(r.value), r.rest) else Failed
    else
      var r := ReadScalar(s);
      if r.Done? then Done(One(r.value), r.rest) else Failed
  }

  /** What follows the key: a bracket, the operator and the value. */
  function ReadCondition(key: string, s: string): (r: Parse<MetadataFilter>)
    ensures r.Done? ==> |r.rest| < |s|
  {
    if !StartsWith(s, "] ") then Failed
    else
      var op := ReadOperator(s[2..]);
      if op.Failed? then Failed
      else
        var value := ReadValue(op.rest);
        if value.Failed? then Failed else Done(MetadataFilter(key, op.value, value.value), value.rest)
  }

  function ReadOne(s: string): (r: Parse<MetadataFilter>)
    ensures r.Done? ==> |r.rest| < |s|
  {
    if !StartsWith(s, "metadata[\"") then Failed
    else
      var key := ReadKey(s[10..]);
      if key.Failed? then Failed else ReadCondition(key.value, key.rest)
  }

  /** The reader of whole expressions. */
  function Read(s: string): Option<seq<MetadataFilter>>
    decreases |s|
  {
    if s == "" then Some([])
    else
      var r := ReadOne(s);
      if r.Failed? then None
      else if r.rest == "" then Some([r.value])
      else if !StartsWith(r.rest, " and ") || |r.rest| == 5 then None
      else
        var more := Read(r.rest[5..]);
        if more.Some? then Some([r.value] + more.value) else None
  }

  // ---------- Reading undoes printing ----------

  lemma Starts(p: string, rest: string)
    ensures StartsWith(p + rest, p) && (p + rest)[|p|..] == rest
  {
  }

  lemma AfterFirst(a: string, b: string, c: string, d: string)
    ensures (a + b) + c + d == a + (b + c + d)
  {
  }

  lemma AfterSecond(a: string, b: string, c: string, d: string, e: string)
    ensures (a + b + c) + d + e == a + (b + (c + d + e))
  {
  }

  lemma {:induction false} QuotedStep(ch: char, tail: string, s: string, rest: string)
    requires ReadQuoted(tail) == Done(s, rest)
    ensures ReadQuoted(EscapeChar(ch) + tail) == Done([ch] + s, rest)
  {
    var text := EscapeChar(ch) + tail;
    if ch == '\\' || ch == '"' {
      assert text[0] == '\\' && text[1] == ch && text[2..] == tail;
    } else {
      assert text[0] == ch && text[1..] == tail;
    }
  }

  /** A quoted literal ends at its own closing quote, whatever it contains and whatever follows. */
  lemma {:induction false} QuotedReadsBack(s: string, rest: string)
    ensures ReadQuoted(Escape(s) + "\"" + rest) == Done(s, rest)
  {
    if s == "" {
      assert Escape(s) + "\"" + rest == "\"" + rest;
    } else {
      QuotedReadsBack(s[1..], rest);
      AfterFirst(EscapeChar(s[0]), Escape(s[1..]), "\"", rest);
      QuotedStep(s[0], Escape(s[1..]) + "\"" + rest, s[1..], rest);
      assert [s[0]] + s[1..] == s;
    }
  }

  lemma {:induction false} DigitsReadBack(n: nat, rest: string)
    ensures ReadDigits(RenderNat(n) + rest, 0) == ReadDigits(rest, n)
    ensures RenderNat(n) != "" && Digit(RenderNat(n)[0])
    decreases n
  {
    if n < 10 {
      assert (RenderNat(n) + rest)[1..] == rest;
    } else {
      var last := [DigitOf(n % 10)];
      DigitsReadBack(n / 10, last + rest);
      assert RenderNat(n) + rest == RenderNat(n / 10) + (last + rest);
      assert (last + rest)[1..] == rest;
    }
  }

  /** What may follow a printed scalar. */
  predicate Follows(rest: string) {
    rest == "" || !Digit(rest[0])
  }

  lemma {:induction false} IntReadsBack(i: int, rest: string)
    requires Follows(rest)
    ensures ReadScalar(RenderScalar(Int(i)) + rest) == Done(Int(i), rest)
  {
    var text := RenderScalar(Int(i)) + rest;
    if i < 0 {
      DigitsReadBack(-i, rest);
      assert text[1..] == RenderNat(-i) + rest;
      NotWords(text);
    } else {
      DigitsReadBack(i, rest);
      NotWords(text);
    }
  }

  lemma NotWords(text: string)
    requires text != "" && text[0] != 't' && text[0] != 'f'
    ensures !StartsWith(text, "true") && !StartsWith(text, "false")
  {
    assert "true"[0] == 't' && "false"[0] == 'f';
  }

  lemma {:induction false} StrReadsBack(s: string, rest: string)
    ensures ReadScalar(RenderScalar(Str(s)) + rest) == Done(Str(s), rest)
  {
    ReplacementsEscape(s);
    QuotedReadsBack(s, rest);
    AfterFirst("\"", Escape(s), "\"", rest);
    QuotedScalar(Escape(s) + "\"" + rest, s, rest);
  }

  lemma {:induction false} QuotedScalar(tail: string, s: string, rest: string)
    requires ReadQuoted(tail) == Done(s, rest)
    ensures ReadScalar("\"" + tail) == Done(Str(s), rest)
  {
    var text := "\"" + tail;
    assert text[0] == '"' && text[1..] == tail;
    NotWords(text);
  }

  lemma {:induction false} ScalarReadsBack(v: Scalar, rest: string)
    requires Follows(rest)
    ensures ReadScalar(RenderScalar(v) + rest) == Done(v, rest)
  {
    match v
    case Bool(b) =>
      Starts(RenderScalar(v), rest);
      assert "true"[0] == 't' && "false"[0] == 'f';
    case Int(i) => IntReadsBack(i, rest);
    case Str(s) => StrReadsBack(s, rest);
  }

  lemma {:induction false} NotBracket(v: Scalar, rest: string)
    ensures !StartsWith(RenderScalar(v) + rest, "[")
  {
    if v.Int? {
      DigitsReadBack(if v.i < 0 then -v.i else v.i, rest);
    }
    assert "["[0] == '[';
    assert (RenderScalar(v) + rest)[0] == RenderScalar(v)[0];
  }

  lemma {:induction false} ItemsReadBack(vs: seq<Scalar>, rest: string)
    requires vs != []
    ensures ReadItems(Join(RenderEach(vs), ", ") + "]" + rest) == Done(vs, rest)
  {
    ItemsText(vs, rest);
    if |vs| == 1 {
      LastItemReadsBack(vs[0], rest);
      assert [vs[0]] == vs;
    } else {
      ItemsReadBack(vs[1..], rest);
      NextItemReadsBack(vs[0], vs[1..], Join(RenderEach(vs[1..]), ", ") + "]" + rest, rest);
      assert [vs[0]] + vs[1..] == vs;
    }
  }

  lemma {:induction false} ItemsText(vs: seq<Scalar>, rest: string)
    requires vs != []
    ensures Join(RenderEach(vs), ", ") + "]" + rest
            == RenderScalar(vs[0])
               + if |vs| == 1 then "]" + rest else ", " + (Join(RenderEach(vs[1..]), ", ") + "]" + rest)
  {
    if |vs| == 1 {
      assert Join(RenderEach(vs), ", ") == RenderScalar(vs[0]);
      AfterFirst(RenderScalar(vs[0]), "]", rest, "");
    } else {
      assert RenderEach(vs)[1..] == RenderEach(vs[1..]);
      AfterSecond(RenderScalar(vs[0]), ", ", Join(RenderEach(vs[1..]), ", "), "]", rest);
    }
  }

  lemma {:induction false} LastItemReadsBack(v: Scalar, rest: string)
    ensures ReadItems(RenderScalar(v) + ("]" + rest)) == Done([v], rest)
  {
    ScalarReadsBack(v, "]" + rest);
    Starts("]", rest);
  }

  lemma {:induction false} NextItemReadsBack(v: Scalar, vs: seq<Scalar>, tail: string, rest: string)
    requires ReadItems(tail) == Done(vs, rest)
    ensures ReadItems(RenderScalar(v) + (", " + tail)) == Done([v] + vs, rest)
  {
    ScalarReadsBack(v, ", " + tail);
    Starts(", ", tail);
    assert "]"[0] == ']' && (", " + tail)[0] == ',';
  }

  lemma {:induction false} KeyReadsBack(key: string, rest: string)
    requires '"' !in key
    ensures ReadKey(key + "\"" + rest) == Done(key, rest)
  {
    if key == "" {
      assert key + "\"" + rest == "\"" + rest;
    } else {
      assert (key + "\"" + rest)[1..] == key[1..] + "\"" + rest;
      KeyReadsBack(key[1..], rest);
      assert key[0] in key && [key[0]] + key[1..] == key;
    }
  }

  lemma KeyHasNoQuote(key: string)
    requires KeyOk(key)
    ensures '"' !in key
  {
  }

  lemma OperatorReadsBack(op: Operator, rest: string)
    ensures ReadOperator(Symbol(op) + " " + rest) == Done(op, rest)
  {
    Starts(Symbol(op) + " ", rest);
    var s := Symbol(op) + " " + rest;
    assert s[0] == (Symbol(op) + " ")[0] && s[1] == (Symbol(op) + " ")[1];
    assert "== "[0] == '=' && "!= "[0] == '!' && "> "[0] == '>' && "> "[1] == ' ' && ">= "[0] == '>'
        && "< "[0] == '<' && "< "[1] == ' ' && "<= "[0] == '<' && "in "[0] == 'i' && "not in "[0] == 'n';
  }

  lemma {:induction false} ValueReadsBack(v: Value, rest: string)
    requires Follows(rest) && (v.Many? ==> v.vs != [])
    ensures ReadValue(RenderValue(v) + rest) == Done(v, rest)
  {
    match v
    case One(x) =>
      ScalarReadsBack(x, rest);
      NotBracket(x, rest);
    case Many(xs) =>
      ItemsReadBack(xs, rest);
      assert RenderValue(v) + rest == "[" + (Join(RenderEach(xs), ", ") + "]" + rest);
      Starts("[", Join(RenderEach(xs), ", ") + "]" + rest);
  }

  lemma ConditionText(close: string, op: string, value: string, rest: string)
    ensures close + op + " " + value + rest == close + (op + " " + (value + rest))
  {
  }

  lemma {:induction false} ConditionReadsBack(f: MetadataFilter, rest: string)
    requires Valid(f) && Follows(rest)
    ensures ReadCondition(f.key, "] " + Symbol(f.op) + " " + RenderValue(f.value) + rest) == Done(f, rest)
  {
    var value := RenderValue(f.value) + rest;
    var op := Symbol(f.op) + " " + value;
    ConditionText("] ", Symbol(f.op), RenderValue(f.value), rest);
    Starts("] ", op);
    OperatorReadsBack(f.op, value);
    ValueReadsBack(f.value, rest);
  }

  lemma Regroup(head: string, key: string, quote: string, close: string, op: string, value: string, rest: string)
    ensures head + key + (quote + close) + op + " " + value + rest
            == head + (key + quote + (close + op + " " + value + rest))
  {
  }

  lemma {:induction false} OneReadsBack(f: MetadataFilter, rest: string)
    requires Valid(f) && Follows(rest)
    ensures ReadOne(BuildOne(f) + rest) == Done(f, rest)
  {
    var condition := "] " + Symbol(f.op) + " " + RenderValue(f.value) + rest;
    var key := f.key + "\"" + condition;
    assert "\"] " == "\"" + "] ";
    Regroup("metadata[\"", f.key, "\"", "] ", Symbol(f.op), RenderValue(f.value), rest);
    Starts("metadata[\"", key);
    KeyHasNoQuote(f.key);
    KeyReadsBack(f.key, condition);
    ConditionReadsBack(f, rest);
  }

  lemma {:induction false} BuildCons(fs: seq<MetadataFilter>)
    requires |fs| > 1
    ensures Build(fs) == BuildOne(fs[0]) + (" and " + Build(fs[1..]))
  {
    var each := BuildEach(fs);
    assert each[1..] == BuildEach(fs[1..]);
    assert Build(fs) == each[0] + " and " + Join(each[1..], " and ");
    SplitAppendix(each[0], " and ", Join(each[1..], " and "));
  }

  lemma SplitAppendix(s: string, t: string, u: string)
    ensures s + t + u == s + (t + u)
  {
  }

  lemma {:induction false} ReadCons(f: MetadataFilter, fs: seq<MetadataFilter>, text: string, tail: string)
    requires Valid(f) && text == BuildOne(f) + (" and " + tail) && tail != "" && Read(tail) == Some(fs)
    ensures Read(text) == Some([f] + fs)
  {
    OneReadsBack(f, " and " + tail);
    Starts(" and ", tail);
  }

  lemma {:induction false} ReadLast(f: MetadataFilter)
    requires Valid(f)
    ensures Read(BuildOne(f)) == Some([f]) && BuildOne(f) != ""
  {
    OneReadsBack(f, "");
    assert BuildOne(f) + "" == BuildOne(f);
    assert BuildOne(f)[0] == 'm';
  }

  lemma {:induction false} SingleReadsBack(fs: seq<MetadataFilter>)
    requires |fs| == 1 && Valid(fs[0])
    ensures Read(Build(fs)) == Some(fs) && Build(fs) != ""
  {
    ReadLast(fs[0]);
    assert BuildEach(fs)[0] == BuildOne(fs[0]) && [fs[0]] == fs;
  }

  lemma {:induction false} OneMoreReadsBack(fs: seq<MetadataFilter>)
    requires |fs| > 1 && Valid(fs[0]) && Read(Build(fs[1..])) == Some(fs[1..]) && Build(fs[1..]) != ""
    ensures Read(Build(fs)) == Some(fs) && Build(fs) != ""
  {
    BuildCons(fs);
    ReadCons(fs[0], fs[1..], Build(fs), Build(fs[1..]));
    assert [fs[0]] + fs[1..] == fs;
  }

  /** Printing a validated list and reading it back gives the same list, for all keys, values and strings. */
  lemma {:induction false} BuildReadsBack(fs: seq<MetadataFilter>)
    requires forall f <- fs :: Valid(f)
    ensures Read(Build(fs)) == Some(fs)
    ensures fs != [] ==> Build(fs) != ""
  {
    if |fs| == 1 {
      SingleReadsBack(fs);
    } else if |fs| > 1 {
      assert forall f <- fs[1..] :: f in fs;
      BuildReadsBack(fs[1..]);
      OneMoreReadsBack(fs);
    }
  }

  /** Different filters never print the same expression. */
  lemma BuildIsInjective(fs: seq<MetadataFilter>, gs: seq<MetadataFilter>)
    requires (forall f <- fs :: Valid(f)) && (forall g <- gs :: Valid(g)) && Build(fs) == Build(gs)
    ensures fs == gs
  {
    BuildReadsBack(fs);
    BuildReadsBack(gs);
  }
}
