/** The entry that is written into a document (application/client_config/render.py), as the scanner reads it. */
module TomlEntry {
  import opened Wrappers
  import opened Text
  import opened TomlScan
  import opened TomlSplice
  import opened TomlCuts
  import Json

  datatype Payload = Payload(command: string, args: seq<string>, env: seq<(string, string)>)

  /** A bare word: the entry's key, and the names of its environment. */
  predicate Word(name: string) { PlainName(name) && '.' !in name }

  predicate WellNamed(key: string, p: Payload) { Word(key) && forall i | 0 <= i < |p.env| :: Word(p.env[i].0) }

  function ValueLine(name: string, value: string): string { name + " = " + Json.DumpString(value) }

  function ArgsLine(args: seq<string>): string { "args = " + Json.DumpStrings(args) }

  function EnvLines(env: seq<(string, string)>): seq<string> {
    if env == [] then [] else [ValueLine(env[0].0, env[0].1)] + EnvLines(env[1..])
  }

  function HeaderLine(name: string): string { "[" + name + "]" }

  /** What belongs to the first header, and the subtable there is if there is an environment. */
  function OwnLines(p: Payload): seq<string> { [ValueLine("command", p.command), ArgsLine(p.args)] }

  function EntryLines(key: string, p: Payload): seq<string> {
    [HeaderLine(TABLE_ROOT + "." + key)] + OwnLines(p) + SubtableLines(key, p)
  }

  /** The environment's part of the entry, if there is one. */
  function SubtableLines(key: string, p: Payload): seq<string> {
    if p.env == [] then [] else ["", HeaderLine(TABLE_ROOT + "." + key + ".env")] + EnvLines(p.env)
  }

  /** The lines, each with the line end of the document. */
  function Ended(lines: seq<string>, nl: string): seq<string> {
    seq(|lines|, i requires 0 <= i < |lines| => lines[i] + nl)
  }

  function Rendered(key: string, p: Payload, nl: string): string { Concat(Ended(EntryLines(key, p), nl)) }

  predicate LineEnd(nl: string) { nl == "\n" || nl == "\r\n" }

  /** `str.splitlines` ends no line inside the text. */
  predicate Unbroken(text: string) { forall c <- text :: !IsBreak(c) }

  /** JSON escapes the control characters, but not the three line separators beyond them. */
  predicate Separators(text: string) { exists c <- text :: c in {'\U{0085}', '\U{2028}', '\U{2029}'} }

  predicate UnbrokenValues(p: Payload) {
    && !Separators(p.command)
    && (forall arg <- p.args :: !Separators(arg))
    && (forall i | 0 <= i < |p.env| :: !Separators(p.env[i].1))
  }

  // ----- values keep their line

  lemma {:induction false} EscapedIsUnbroken(s: string)
    requires !Separators(s)
    ensures Unbroken(Json.Escaped(s))
  {
    if s != "" {
      assert s[0] in s && forall c <- s[1..] :: c in s;
      EscapedIsUnbroken(s[1..]);
      assert Unbroken(Json.EscapeChar(s[0]));
    }
  }

  lemma DumpIsUnbroken(s: string)
    requires !Separators(s)
    ensures Unbroken(Json.DumpString(s))
  {
    EscapedIsUnbroken(s);
  }

  lemma {:induction false} DumpItemsIsUnbroken(items: seq<string>)
    requires forall item <- items :: !Separators(item)
    ensures Unbroken(Json.DumpItems(items))
  {
    if items != [] {
      assert items[0] in items && forall item <- items[1..] :: item in items;
      DumpIsUnbroken(items[0]);
      DumpItemsIsUnbroken(items[1..]);
    }
  }

  lemma NameIsUnbroken(name: string)
    requires PlainName(name)
    ensures Unbroken(name)
  {
    forall c | c in name ensures !IsBreak(c) {
      var i :| 0 <= i < |name| && name[i] == c;
    }
  }

  lemma {:induction false} EnvLinesAreUnbroken(env: seq<(string, string)>)
    requires forall i | 0 <= i < |env| :: Word(env[i].0) && !Separators(env[i].1)
    ensures forall line <- EnvLines(env) :: Unbroken(line)
  {
    if env != [] {
      NameIsUnbroken(env[0].0);
      DumpIsUnbroken(env[0].1);
      EnvLinesAreUnbroken(env[1..]);
    }
  }

  lemma EntryIsUnbroken(key: string, p: Payload)
    requires WellNamed(key, p) && UnbrokenValues(p)
    ensures forall line <- EntryLines(key, p) :: Unbroken(line)
  {
    NameIsUnbroken(key);
    NameIsUnbroken("command");
    DumpIsUnbroken(p.command);
    DumpItemsIsUnbroken(p.args);
    EnvLinesAreUnbroken(p.env);
    assert Unbroken(TABLE_ROOT) && Unbroken(".env");
    assert Unbroken(ArgsLine(p.args));
    assert Unbroken(ValueLine("command", p.command));
  }

  // ----- one line

  /** Characters that mean nothing to the scanner once something has been seen on the line. */
  predicate Inert(c: char) { IsBare(c) || c == '.' || c == ' ' || c == '=' || c == ',' }

  lemma {:induction false} WalkPastInert(line: string, i: nat, j: nat, w: Walk)
    requires i <= j <= |line| && w.seen && w.path.None?
    requires forall k | i <= k < j :: Inert(line[k])
    ensures WalkFrom(line, i, w) == WalkFrom(line, j, w)
    decreases j - i
  {
    if i < j {
      NoDelimiterAt(line, i);
      assert Passed(w, line[i]) == w;
      WalkPastInert(line, i + 1, j, w);
    }
  }

  /** `part` stands in the line at `i`. */
  predicate At(line: string, i: nat, part: string) {
    i + |part| <= |line| && forall k: nat | k < |part| :: line[i + k] == part[k]
  }

  lemma AtParts(line: string, i: nat, a: string, b: string)
    requires At(line, i, a + b)
    ensures At(line, i, a) && At(line, i + |a|, b)
  {
    forall k: nat | k < |a| ensures line[i + k] == a[k] {
      assert (a + b)[k] == a[k];
    }
    forall k: nat | k < |b| ensures line[i + |a| + k] == b[k] {
      assert (a + b)[|a| + k] == b[k];
    }
  }

  lemma AtSlice(line: string, i: nat, part: string)
    requires At(line, i, part)
    ensures line[i..i + |part|] == part
  {
  }

  lemma AtIndex(line: string, i: nat, part: string, k: nat)
    requires At(line, i, part) && k < |part|
    ensures line[i + k] == part[k]
  {
  }

  /** A JSON string is closed by its own last quote. */
  lemma {:induction false} StringEnds(line: string, i: nat, s: string)
    requires At(line, i, Json.Escaped(s) + "\"")
    ensures StringEndFrom(line, '"', i) == i + |Json.Escaped(s)| + 1
    decreases |s|
  {
    if s == "" {
      assert Json.Escaped(s) + "\"" == "\"";
      AtIndex(line, i, "\"", 0);
    } else {
      EscapedParts(line, i, s);
      EscapeIsPassed(line, i, s[0]);
      StringEnds(line, i + |Json.EscapeChar(s[0])|, s[1..]);
    }
  }

  lemma PartsOf(line: string, i: nat, whole: string, a: string, b: string, c: string)
    requires whole == a + b && At(line, i, whole + c)
    ensures At(line, i, a) && At(line, i + |a|, b + c)
  {
    assert whole + c == a + (b + c);
    AtParts(line, i, a, b + c);
  }

  lemma EscapedParts(line: string, i: nat, s: string)
    requires s != "" && At(line, i, Json.Escaped(s) + "\"")
    ensures At(line, i, Json.EscapeChar(s[0])) && At(line, i + |Json.EscapeChar(s[0])|, Json.Escaped(s[1..]) + "\"")
  {
    PartsOf(line, i, Json.Escaped(s), Json.EscapeChar(s[0]), Json.Escaped(s[1..]), "\"");
  }

  lemma DumpParts(line: string, i: nat, s: string)
    requires At(line, i, Json.DumpString(s))
    ensures At(line, i + 1, Json.Escaped(s) + "\"") && |Json.DumpString(s)| == |Json.Escaped(s)| + 2
  {
    PartsOf(line, i, "\"" + Json.Escaped(s), "\"", Json.Escaped(s), "\"");
  }

  lemma EscapeIsPassed(line: string, i: nat, c: char)
    requires At(line, i, Json.EscapeChar(c))
    ensures StringEndFrom(line, '"', i) == StringEndFrom(line, '"', i + |Json.EscapeChar(c)|)
  {
    var e := Json.EscapeChar(c);
    AtIndex(line, i, e, 0);
    if |e| == 6 {
      ControlIsPassed(line, i, c);
    }
  }

  lemma ControlIsPassed(line: string, i: nat, c: char)
    requires At(line, i, Json.EscapeChar(c)) && |Json.EscapeChar(c)| == 6
    ensures StringEndFrom(line, '"', i) == StringEndFrom(line, '"', i + 6)
  {
    HexIsPassed(line, i, Json.Hex(c));
  }

  lemma HexIsPassed(line: string, i: nat, hex: string)
    requires At(line, i, "\\u" + hex) && forall k | 0 <= k < |hex| :: hex[k] != '"' && hex[k] != '\\'
    ensures StringEndFrom(line, '"', i) == StringEndFrom(line, '"', i + 2 + |hex|)
  {
    AtParts(line, i, "\\u", hex);
    AtIndex(line, i, "\\u", 0);
    PlainRun(line, i + 2, i + 2, hex);
  }

  /** Characters that end nothing are passed one by one. */
  lemma {:induction false} PlainRun(line: string, i: nat, at: nat, hex: string)
    requires At(line, i, hex) && i <= at <= i + |hex| && forall k | 0 <= k < |hex| :: hex[k] != '"' && hex[k] != '\\'
    ensures StringEndFrom(line, '"', at) == StringEndFrom(line, '"', i + |hex|)
    decreases i + |hex| - at
  {
    if at < i + |hex| {
      AtIndex(line, i, hex, at - i);
      PlainRun(line, i, at + 1, hex);
    }
  }

  /** A JSON string never begins like a multi-line string, unless another quote follows it. */
  lemma DumpIsNoDelimiter(line: string, i: nat, s: string)
    requires At(line, i, Json.DumpString(s))
    requires i + |Json.DumpString(s)| < |line| ==> line[i + |Json.DumpString(s)|] != '"'
    ensures line[i] == '"' && !DelimiterAt(line, i)
  {
    AtIndex(line, i, Json.DumpString(s), 0);
    AtIndex(line, i, Json.DumpString(s), 1);
    if i + 3 <= |line| {
      assert line[i..i + 3][0] == line[i] && line[i..i + 3][1] == line[i + 1] && line[i..i + 3][2] == line[i + 2];
      if s != "" {
        assert Json.DumpString(s)[1] == Json.EscapeChar(s[0])[0] != '"';
      }
    }
  }

  /** The scanner passes a JSON string in one step. */
  lemma WalkPastDump(line: string, i: nat, s: string, w: Walk)
    requires At(line, i, Json.DumpString(s)) && w.seen
    requires i + |Json.DumpString(s)| < |line| ==> line[i + |Json.DumpString(s)|] != '"'
    ensures WalkFrom(line, i, w) == WalkFrom(line, i + |Json.DumpString(s)|, w)
  {
    DumpIsNoDelimiter(line, i, s);
    DumpEnds(line, i, s);
    QuoteStep(line, i, w);
  }

  lemma DumpEnds(line: string, i: nat, s: string)
    requires At(line, i, Json.DumpString(s))
    ensures StringEndFrom(line, '"', i + 1) == i + |Json.DumpString(s)|
  {
    DumpParts(line, i, s);
    StringEnds(line, i + 1, s);
  }

  lemma QuoteStep(line: string, i: nat, w: Walk)
    requires i < |line| && line[i] == '"' && !DelimiterAt(line, i) && w.seen
    ensures WalkFrom(line, i, w) == WalkFrom(line, StringEndFrom(line, '"', i + 1), w)
  {
    assert w.(seen := true) == w;
  }

  const AFTER_NAME := Walk(0, true, None, None)

  /** A name and the equals sign after it. */
  lemma WalkPastEquals(line: string, name: string)
    requires Word(name) && At(line, 0, name) && At(line, |name|, " = ")
    ensures WalkFrom(line, 0, Walk(0, false, None, None)) == WalkFrom(line, |name| + 3, AFTER_NAME)
  {
    forall k | 0 <= k < |name| ensures IsBare(line[k]) || line[k] == '.' {
      AtIndex(line, 0, name, k);
    }
    WalkPastName(line, 0, |name|, Walk(0, false, None, None));
    WalkPastSign(line, |name|);
  }

  lemma WalkPastSign(line: string, i: nat)
    requires At(line, i, " = ")
    ensures WalkFrom(line, i, AFTER_NAME) == WalkFrom(line, i + 3, AFTER_NAME)
  {
    AtIndex(line, i, " = ", 0);
    AtIndex(line, i, " = ", 1);
    AtIndex(line, i, " = ", 2);
    WalkPastInert(line, i, i + 3, AFTER_NAME);
  }

  /** The parts of an assignment. */
  lemma AssignmentParts(name: string, value: string)
    ensures var line := name + " = " + value;
      At(line, 0, name) && At(line, |name|, " = ") && At(line, |name| + 3, value) && |line| == |name| + 3 + |value|
  {
    var line := name + " = " + value;
    assert At(line, 0, line);
    AtParts(line, 0, name + " = ", value);
    AtParts(line, 0, name, " = ");
  }

  lemma ValueLineIsPlain(name: string, value: string)
    requires Word(name)
    ensures ScanLine(ValueLine(name, value), CLEAN) == LineResult(None, CLEAN)
  {
    AssignmentParts(name, Json.DumpString(value));
    ValueScans(ValueLine(name, value), name, value);
  }

  lemma ValueScans(line: string, name: string, value: string)
    requires Word(name) && At(line, 0, name) && At(line, |name|, " = ") && At(line, |name| + 3, Json.DumpString(value))
    requires |line| == |name| + 3 + |Json.DumpString(value)|
    ensures ScanLine(line, CLEAN) == LineResult(None, CLEAN)
  {
    WalkPastEquals(line, name);
    WalkPastDump(line, |name| + 3, value, AFTER_NAME);
  }

  const IN_ARRAY := Walk(1, true, None, None)

  /** A JSON string as it is written. */
  ghost predicate Literal(text: string) { exists s :: text == Json.DumpString(s) }

  function Joined(literals: seq<string>): string {
    if literals == [] then ""
    else if |literals| == 1 then literals[0]
    else literals[0] + ", " + Joined(literals[1..])
  }

  function Dumps(items: seq<string>): seq<string> {
    if items == [] then [] else [Json.DumpString(items[0])] + Dumps(items[1..])
  }

  lemma {:induction false} DumpsAreLiterals(items: seq<string>)
    ensures Json.DumpItems(items) == Joined(Dumps(items)) && |Dumps(items)| == |items|
    ensures forall l <- Dumps(items) :: Literal(l)
  {
    if items != [] {
      DumpsAreLiterals(items[1..]);
      assert Dumps(items)[1..] == Dumps(items[1..]);
    }
  }

  /** The items of an array, up to the bracket that ends the line. */
  lemma {:induction false} WalkPastItems(line: string, i: nat, literals: seq<string>)
    requires At(line, i, Joined(literals)) && EndsArray(line, i + |Joined(literals)|)
    requires forall l <- literals :: Literal(l)
    ensures WalkFrom(line, i, IN_ARRAY) == LineResult(None, CLEAN)
    decreases |literals|
  {
    if literals == [] {
      CloseArray(line, i);
    } else if |literals| == 1 {
      LastItem(line, i, literals[0]);
    } else {
      var first, rest := literals[0], literals[1..];
      assert first in literals && forall l <- rest :: l in literals;
      assert Joined(literals) == first + ", " + Joined(rest);
      FirstOfItems(line, i, first, Joined(rest));
      WalkPastItems(line, i + |first| + 2, rest);
      WalkPastFirst(line, i, first);
    }
  }

  lemma LastItem(line: string, i: nat, literal: string)
    requires Literal(literal) && At(line, i, literal) && EndsArray(line, i + |literal|)
    ensures WalkFrom(line, i, IN_ARRAY) == LineResult(None, CLEAN)
  {
    CloseArray(line, i + |literal|);
    WalkPastLiteral(line, i, literal);
  }

  lemma WalkPastFirst(line: string, i: nat, first: string)
    requires Literal(first) && At(line, i, first) && i + |first| + 1 < |line|
    requires line[i + |first|] == ',' && line[i + |first| + 1] == ' '
    ensures WalkFrom(line, i, IN_ARRAY) == WalkFrom(line, i + |first| + 2, IN_ARRAY)
  {
    WalkPastComma(line, i + |first|);
    WalkPastLiteral(line, i, first);
  }

  lemma FirstOfItems(line: string, i: nat, first: string, rest: string)
    requires At(line, i, first + ", " + rest)
    ensures At(line, i, first) && At(line, i + |first| + 2, rest)
    ensures line[i + |first|] == ',' && line[i + |first| + 1] == ' '
  {
    AtParts(line, i, first + ", ", rest);
    AtParts(line, i, first, ", ");
    AtIndex(line, i + |first|, ", ", 0);
    AtIndex(line, i + |first|, ", ", 1);
  }

  lemma WalkPastComma(line: string, i: nat)
    requires i + 1 < |line| && line[i] == ',' && line[i + 1] == ' '
    ensures WalkFrom(line, i, IN_ARRAY) == WalkFrom(line, i + 2, IN_ARRAY)
  {
    WalkPastInert(line, i, i + 2, IN_ARRAY);
  }

  predicate EndsArray(line: string, i: nat) { i + 1 == |line| && line[i] == ']' }

  lemma CloseArray(line: string, i: nat)
    requires EndsArray(line, i)
    ensures WalkFrom(line, i, IN_ARRAY) == LineResult(None, CLEAN)
  {
    NoDelimiterAt(line, i);
    assert Closed(line, IN_ARRAY, i) == AFTER_NAME;
    assert WalkFrom(line, i, IN_ARRAY) == WalkFrom(line, i + 1, AFTER_NAME);
  }

  lemma WalkPastLiteral(line: string, i: nat, literal: string)
    requires Literal(literal) && At(line, i, literal)
    requires i + |literal| < |line| ==> line[i + |literal|] != '"'
    ensures WalkFrom(line, i, IN_ARRAY) == WalkFrom(line, i + |literal|, IN_ARRAY)
  {
    var s :| literal == Json.DumpString(s);
    WalkPastDump(line, i, s, IN_ARRAY);
  }

  lemma ArgsLineIsPlain(args: seq<string>)
    ensures ScanLine(ArgsLine(args), CLEAN) == LineResult(None, CLEAN)
  {
    AssignmentParts("args", Json.DumpStrings(args));
    assert ArgsLine(args) == "args" + " = " + Json.DumpStrings(args);
    DumpsAreLiterals(args);
    ArrayParts(ArgsLine(args), 7, Json.DumpItems(args));
    ArgsScan(ArgsLine(args), Dumps(args));
  }

  lemma ArrayParts(line: string, i: nat, items: string)
    requires At(line, i, "[" + items + "]") && |line| == i + |items| + 2
    ensures At(line, i, "[") && At(line, i + 1, items) && EndsArray(line, i + 1 + |items|)
  {
    AtParts(line, i, "[" + items, "]");
    AtParts(line, i, "[", items);
    AtIndex(line, i + 1 + |items|, "]", 0);
  }

  lemma ArgsScan(line: string, literals: seq<string>)
    requires At(line, 0, "args") && At(line, 4, " = ") && At(line, 7, "[") && At(line, 8, Joined(literals))
    requires EndsArray(line, 8 + |Joined(literals)|) && forall l <- literals :: Literal(l)
    ensures ScanLine(line, CLEAN) == LineResult(None, CLEAN)
  {
    WalkPastEquals(line, "args");
    OpenArray(line, 7);
    WalkPastItems(line, 8, literals);
  }

  lemma OpenArray(line: string, i: nat)
    requires At(line, i, "[")
    ensures WalkFrom(line, i, AFTER_NAME) == WalkFrom(line, i + 1, IN_ARRAY)
  {
    AtIndex(line, i, "[", 0);
    NoDelimiterAt(line, i);
  }

  // ----- the headers

  lemma PathUnfolds(text: string, at: nat, i: nat, word: string, before: KeyPath, after: KeyPath)
    requires at <= i < i + |word| <= |text| && SkipDots(text, at) == i && IsBare(text[i])
      && BareEnd(text, i) == i + |word|
    requires text[i..i + |word|] == word && after == before + [word]
    ensures PathFrom(text, at, before) == PathFrom(text, i + |word|, after)
  {
  }

  /** A dot and a word after it. */
  lemma PathStep(text: string, at: nat, word: string, before: KeyPath, after: KeyPath)
    requires At(text, at, ".") && At(text, at + 1, word) && Word(word) && after == before + [word]
    requires at + 1 + |word| < |text| ==> text[at + 1 + |word|] == '.'
    ensures PathFrom(text, at, before) == PathFrom(text, at + 1 + |word|, after)
  {
    AtIndex(text, at, ".", 0);
    PathWord(text, at + 1, word);
    SkipDot(text, at);
    AtSlice(text, at + 1, word);
    PathUnfolds(text, at, at + 1, word, before, after);
  }

  lemma SkipDot(text: string, at: nat)
    requires at + 1 < |text| && text[at] == '.' && SkipDots(text, at + 1) == at + 1
    ensures SkipDots(text, at) == at + 1
  {
  }

  lemma PathWord(text: string, i: nat, word: string)
    requires At(text, i, word) && Word(word) && (i + |word| < |text| ==> text[i + |word|] == '.')
    ensures BareEnd(text, i) == i + |word| && IsBare(text[i]) && SkipDots(text, i) == i
  {
    forall k | i <= k < i + |word| ensures IsBare(text[k]) {
      AtIndex(text, i, word, k - i);
      assert word[k - i] in word;
    }
    PlainIsNoSpace(text[i]);
    BareRun(text, i, i + |word|);
  }

  lemma PathOfThreeWords(a: string, b: string, c: string)
    requires Word(a) && Word(b) && Word(c)
    ensures ParseKeyPath(a + "." + b + "." + c) == Some([a, b, c])
  {
    var text := a + "." + b + "." + c;
    assert text == (a + ("." + b)) + ("." + c) && At(text, 0, text);
    AtParts(text, 0, a + ("." + b), "." + c);
    AtParts(text, 0, a, "." + b);
    DottedPath(text, a, b, c);
  }

  lemma DottedPath(text: string, a: string, b: string, c: string)
    requires Word(a) && Word(b) && Word(c) && |text| == |a| + |b| + |c| + 2
    requires At(text, 0, a) && At(text, |a|, "." + b) && At(text, |a| + 1 + |b|, "." + c)
    ensures ParseKeyPath(text) == Some([a, b, c])
  {
    DottedEnds(text, a, c);
    AtParts(text, |a|, ".", b);
    AtParts(text, |a| + 1 + |b|, ".", c);
    AtIndex(text, |a|, ".", 0);
    AtIndex(text, |a| + 1 + |b|, ".", 0);
    PathBegins(text, a);
    PathStep(text, |a|, b, [a], [a, b]);
    PathStep(text, |a| + 1 + |b|, c, [a, b], [a, b, c]);
    PathEnds(text, [a, b, c]);
  }

  lemma PathBegins(text: string, word: string)
    requires At(text, 0, word) && Word(word) && |word| < |text| && text[|word|] == '.'
    ensures PathFrom(text, 0, []) == PathFrom(text, |word|, [word])
  {
    PathWord(text, 0, word);
    AtSlice(text, 0, word);
    PathUnfolds(text, 0, 0, word, [], [word]);
  }

  lemma PathEnds(text: string, segments: seq<string>)
    requires segments != []
    ensures PathFrom(text, |text|, segments) == Some(segments)
  {
  }

  /** A dotted name is neither padded nor bracketed. */
  lemma DottedEnds(text: string, a: string, c: string)
    requires Word(a) && Word(c) && At(text, 0, a) && |text| >= |c| + 1 && At(text, |text| - 1 - |c|, "." + c)
    ensures Strip(text) == text && text[0] != '['
  {
    AtIndex(text, 0, a, 0);
    AtIndex(text, |text| - 1 - |c|, "." + c, |c|);
    PlainIsNoSpace(a[0]);
    PlainIsNoSpace(c[|c| - 1]);
    StrippedStays(text);
  }

  lemma OwnHeader(key: string)
    requires Word(key)
    ensures ScanLine(HeaderLine(TABLE_ROOT + "." + key), CLEAN) == LineResult(Some([TABLE_ROOT, key]), CLEAN)
  {
    PathOfTwoWords(TABLE_ROOT, key);
    PlainHeader(TABLE_ROOT + "." + key);
  }

  lemma EnvHeader(key: string)
    requires Word(key)
    ensures ScanLine(HeaderLine(TABLE_ROOT + "." + key + ".env"), CLEAN)
      == LineResult(Some([TABLE_ROOT, key, "env"]), CLEAN)
  {
    assert TABLE_ROOT + "." + key + ".env" == TABLE_ROOT + "." + key + "." + "env";
    PathOfThreeWords(TABLE_ROOT, key, "env");
    PlainHeader(TABLE_ROOT + "." + key + ".env");
  }

  // ----- the whole entry

  lemma WithoutLineEnd(core: string, nl: string)
    requires Unbroken(core) && LineEnd(nl)
    ensures WithoutEnd(core + nl) == core
  {
    assert core != "" ==> core[|core| - 1] in core;
    if nl == "\n" {
      WithoutFinalBreak(core);
    } else {
      WithoutCrLf(core);
    }
  }

  lemma WithoutLast(core: string, c: char)
    requires c == '\r' || c == '\n'
    ensures WithoutEnd(core + [c]) == WithoutEnd(core)
  {
    assert (core + [c])[..|core|] == core;
  }

  lemma WithoutCrLf(core: string)
    requires core == "" || !IsBreak(core[|core| - 1])
    ensures WithoutEnd(core + "\r\n") == core
  {
    WithoutLast(core, '\r');
    WithoutLast(core + ['\r'], '\n');
    assert core + "\r\n" == core + ['\r'] + ['\n'];
  }

  lemma {:induction false} LineEndsThere(core: string, nl: string, i: nat)
    requires i <= |core| && Unbroken(core) && LineEnd(nl)
    ensures LineEndFrom(core + nl, i) == |core + nl|
    decreases |core| - i
  {
    if i < |core| {
      assert (core + nl)[i] == core[i] && core[i] in core;
      LineEndsThere(core, nl, i + 1);
    }
  }

  lemma EndedLineSplits(line: string, nl: string)
    requires LineEnd(nl) && Unbroken(line)
    ensures SplitLines(line + nl) == [line + nl] && Complete(line + nl) && (line + nl)[|line + nl| - 1] == '\n'
  {
    var first := line + nl;
    LineEndsThere(line, nl, 0);
    assert first[0..|first|] == first && SplitFrom(first, |first|) == [];
    assert first[|first| - 1] == nl[|nl| - 1];
  }

  lemma {:induction false} EndedSplits(lines: seq<string>, nl: string)
    requires LineEnd(nl) && forall line <- lines :: Unbroken(line)
    ensures SplitLines(Concat(Ended(lines, nl))) == Ended(lines, nl) && Complete(Concat(Ended(lines, nl)))
    ensures var text := Concat(Ended(lines, nl)); lines != [] ==> text != "" && text[|text| - 1] == '\n'
  {
    if lines != [] {
      var first, rest := lines[0] + nl, Concat(Ended(lines[1..], nl));
      assert lines[0] in lines && forall line <- lines[1..] :: line in lines;
      assert lines == [lines[0]] + lines[1..];
      EndedFirst(lines[0], lines[1..], nl);
      EndedSplits(lines[1..], nl);
      EndedLineSplits(lines[0], nl);
      SplitJoined(first, rest);
    } else {
      assert Ended(lines, nl) == [] && SplitLines("") == [];
    }
  }

  /** A line that is no header and leaves the scanner clean. */
  predicate Plain(line: string) { Unbroken(line) && ScanLine(line, CLEAN) == LineResult(None, CLEAN) }

  lemma PlainLine(line: string, nl: string)
    requires LineEnd(nl) && Plain(line)
    ensures ScanRawLine(line + nl, CLEAN) == LineResult(None, CLEAN)
  {
    WithoutLineEnd(line, nl);
  }

  lemma {:induction false} PlainLines(lines: seq<string>, nl: string, offset: nat)
    requires LineEnd(nl) && forall line <- lines :: Plain(line)
    ensures ScanLines(ScanRawLine, Ended(lines, nl), CLEAN, offset) == Scanned([], CLEAN)
  {
    if lines != [] {
      assert lines[0] in lines && forall line <- lines[1..] :: line in lines;
      assert Ended(lines, nl) == [lines[0] + nl] + Ended(lines[1..], nl);
      PlainLine(lines[0], nl);
      PlainLines(lines[1..], nl, offset + |lines[0] + nl|);
    } else {
      assert Ended(lines, nl) == [];
    }
  }

  /** A header line on its own, by the path it opens. */
  predicate Opens(line: string, path: KeyPath) {
    Unbroken(line) && ScanLine(line, CLEAN) == LineResult(Some(path), CLEAN)
  }

  lemma HeaderThenLines(header: string, path: KeyPath, lines: seq<string>, nl: string, offset: nat)
    requires LineEnd(nl) && Opens(header, path) && forall line <- lines :: Plain(line)
    ensures ScanLines(ScanRawLine, Ended([header] + lines, nl), CLEAN, offset)
      == Scanned([Header(path, offset, offset + |header| + |nl|)], CLEAN)
  {
    var first := header + nl;
    EndedFirst(header, lines, nl);
    WithoutLineEnd(header, nl);
    PlainLines(lines, nl, offset + |first|);
  }

  lemma EndedFirst(line: string, lines: seq<string>, nl: string)
    ensures Ended([line] + lines, nl) == [line + nl] + Ended(lines, nl)
  {
  }

  lemma {:induction false} EnvLinesArePlain(env: seq<(string, string)>)
    requires forall i | 0 <= i < |env| :: Word(env[i].0) && !Separators(env[i].1)
    ensures forall line <- EnvLines(env) :: Plain(line)
  {
    if env != [] {
      ValueIsPlain(env[0].0, env[0].1);
      EnvLinesArePlain(env[1..]);
    }
  }

  lemma ValueIsPlain(name: string, value: string)
    requires Word(name) && !Separators(value)
    ensures Plain(ValueLine(name, value))
  {
    NameIsUnbroken(name);
    DumpIsUnbroken(value);
    ValueLineIsPlain(name, value);
  }

  lemma ArgsArePlain(args: seq<string>)
    requires forall arg <- args :: !Separators(arg)
    ensures Plain(ArgsLine(args))
  {
    DumpItemsIsUnbroken(args);
    ArgsLineIsPlain(args);
  }

  lemma OwnOpens(key: string)
    requires Word(key)
    ensures Opens(HeaderLine(TABLE_ROOT + "." + key), [TABLE_ROOT, key])
  {
    NameIsUnbroken(key);
    NameIsUnbroken(TABLE_ROOT);
    OwnHeader(key);
  }

  lemma EnvOpens(key: string)
    requires Word(key)
    ensures Opens(HeaderLine(TABLE_ROOT + "." + key + ".env"), [TABLE_ROOT, key, "env"])
  {
    NameIsUnbroken(key);
    NameIsUnbroken(TABLE_ROOT);
    NameIsUnbroken(".env");
    EnvHeader(key);
  }

  /** The headers an entry consists of: its own, and the one of its environment if it has one. */
  predicate OwnHeaders(headers: seq<Header>, key: string, p: Payload) {
    && |headers| == (if p.env == [] then 1 else 2)
    && headers[0].path == [TABLE_ROOT, key] && headers[0].start == 0
    && (p.env != [] ==> headers[1].path == [TABLE_ROOT, key, "env"])
  }

  /** Two headers with their lines, the second after a blank one. */
  lemma TwoTables(
      header: string, path: KeyPath, lines: seq<string>, subheader: string, subpath: KeyPath, sublines: seq<string>,
      nl: string)
    requires LineEnd(nl) && Opens(header, path) && Opens(subheader, subpath)
    requires (forall line <- lines :: Plain(line)) && (forall line <- sublines :: Plain(line))
    ensures var x := ScanLines(ScanRawLine, Ended([header] + lines + (["", subheader] + sublines), nl), CLEAN, 0);
      x.state == CLEAN && |x.headers| == 2 && x.headers[0].path == path && x.headers[0].start == 0
      && x.headers[1].path == subpath
  {
    var own, sub := [header] + lines, ["", subheader] + sublines;
    HeaderThenLines(header, path, lines, nl, 0);
    CleanParts(own, sub, nl);
    Subtable(subheader, subpath, sublines, nl, |Concat(Ended(own, nl))|);
  }

  lemma CleanParts(a: seq<string>, b: seq<string>, nl: string)
    requires ScanLines(ScanRawLine, Ended(a, nl), CLEAN, 0).state == CLEAN
    ensures ScanLines(ScanRawLine, Ended(a + b, nl), CLEAN, 0) ==
      var y := ScanLines(ScanRawLine, Ended(b, nl), CLEAN, |Concat(Ended(a, nl))|);
      Scanned(ScanLines(ScanRawLine, Ended(a, nl), CLEAN, 0).headers + y.headers, y.state)
  {
    EndedParts(a + b, a, b, nl);
    ScanParts(ScanRawLine, Ended(a, nl), Ended(b, nl), CLEAN, 0);
  }

  lemma Subtable(header: string, path: KeyPath, lines: seq<string>, nl: string, offset: nat)
    requires LineEnd(nl) && Opens(header, path) && forall line <- lines :: Plain(line)
    ensures var x := ScanLines(ScanRawLine, Ended(["", header] + lines, nl), CLEAN, offset);
      x.state == CLEAN && |x.headers| == 1 && x.headers[0].path == path
  {
    var table := [header] + lines;
    HeaderThenLines(header, path, lines, nl, offset + |nl|);
    BlankThenLines(table, nl, offset);
    assert ["", header] + lines == [""] + table;
  }

  lemma BlankThenLines(lines: seq<string>, nl: string, offset: nat)
    requires LineEnd(nl)
    ensures ScanLines(ScanRawLine, Ended([""] + lines, nl), CLEAN, offset)
      == ScanLines(ScanRawLine, Ended(lines, nl), CLEAN, offset + |nl|)
  {
    assert "" + nl == nl;
    EndedFirst("", lines, nl);
    PlainLine("", nl);
  }

  lemma EntryScans(key: string, p: Payload, nl: string)
    requires WellNamed(key, p) && UnbrokenValues(p) && LineEnd(nl)
    ensures var x := ScanLines(ScanRawLine, Ended(EntryLines(key, p), nl), CLEAN, 0);
      x.state == CLEAN && OwnHeaders(x.headers, key, p)
  {
    var header, lines := HeaderLine(TABLE_ROOT + "." + key), OwnLines(p);
    OwnOpens(key);
    ValueIsPlain("command", p.command);
    ArgsArePlain(p.args);
    if p.env == [] {
      assert EntryLines(key, p) == [header] + lines;
      HeaderThenLines(header, [TABLE_ROOT, key], lines, nl, 0);
    } else {
      EnvOpens(key);
      EnvLinesArePlain(p.env);
      TwoTables(
        header, [TABLE_ROOT, key], lines,
        HeaderLine(TABLE_ROOT + "." + key + ".env"), [TABLE_ROOT, key, "env"], EnvLines(p.env), nl);
    }
  }

  lemma EndedParts(lines: seq<string>, a: seq<string>, b: seq<string>, nl: string)
    requires lines == a + b
    ensures Ended(lines, nl) == Ended(a, nl) + Ended(b, nl)
  {
  }

  /** A written entry is whole lines, holds only its own headers, and leaves the scanner clean. */
  lemma EntryIsBlock(key: string, p: Payload, nl: string)
    requires WellNamed(key, p) && UnbrokenValues(p) && LineEnd(nl)
    ensures EntryBlock(ScanRawLine, Rendered(key, p, nl))
    ensures OwnHeaders(Headers(ScanRawLine, Rendered(key, p, nl)), key, p)
    ensures SplitLines(Rendered(key, p, nl))[0] == HeaderLine(TABLE_ROOT + "." + key) + nl
  {
    var lines := EntryLines(key, p);
    EntryIsUnbroken(key, p);
    EndedSplits(lines, nl);
    EntryScans(key, p, nl);
    FirstOfBlock(lines, nl);
    OwnHeader(key);
    assert HeaderLine(TABLE_ROOT + "." + key) == lines[0] && lines[0] in lines;
    WithoutLineEnd(lines[0], nl);
  }

  lemma FirstOfBlock(lines: seq<string>, nl: string)
    requires lines != [] && lines[0] != ""
    ensures Ended(lines, nl)[0] == lines[0] + nl && Concat(Ended(lines, nl)) != ""
    ensures Concat(Ended(lines, nl))[0] == lines[0][0]
  {
  }

  // ----- replacement

  lemma QuotelessLine(line: string)
    requires '"' !in line && '\'' !in line
    ensures NoDelimiter(line)
  {
    forall i: nat | i < |line| ensures !DelimiterAt(line, i) {
      assert line[i] in line;
      NoDelimiterAt(line, i);
    }
  }

  lemma NameIsQuoteless(name: string)
    requires PlainName(name)
    ensures '"' !in name && '\'' !in name
  {
    assert forall c <- name :: IsBare(c) || c == '.';
  }

  /**
   Replacing an entry by a written one: scanning the result finds the original headers with the entry's
   own in the place of the old subtree, in order, if and only if the old entry does not begin inside what
   the scanner takes for a string and the line that follows, if any, reads as if behind an ended entry.
   */
  lemma ReplacingAnEntry(text: string, key: string, span: Span, p: Payload, nl: string)
    requires IsSpan(Headers(ScanRawLine, text), key, span)
    requires WellNamed(key, p) && UnbrokenValues(p) && LineEnd(nl)
    ensures OwnHeaders(Headers(ScanRawLine, Rendered(key, p, nl)), key, p)
    ensures KeepsHeaders(ScanRawLine, text, span, Rendered(key, p, nl)) <==>
      && StateAt(ScanRawLine, text, SpanStart(ScanRawLine, text, span)).open.None?
      && (|| span.after == |Headers(ScanRawLine, text)|
          || ScanRawLine(Follower(ScanRawLine, text, span), CLEAN)
               == ScanRawLine(
                    Follower(ScanRawLine, text, span), StateAt(ScanRawLine, text, SpanEnd(ScanRawLine, text, span))))
  {
    var s := StateAt(ScanRawLine, text, SpanStart(ScanRawLine, text, span));
    EntryIsBlock(key, p, nl);
    ScannerIsSound();
    ReplacementKeepsIff(ScanRawLine, text, span, Rendered(key, p, nl));
    StateAtHeader(text, span.first);
    if s != CLEAN {
      OwnHeaderSwallowed(key, nl, s);
    }
  }

  lemma OwnHeaderSwallowed(key: string, nl: string, s: State)
    requires Word(key) && LineEnd(nl) && s.open.Some? && s.open.value in {BASIC, LITERAL}
    ensures var line := HeaderLine(TABLE_ROOT + "." + key) + nl;
      ScanRawLine(line, s) != ScanRawLine(line, CLEAN)
  {
    var header := HeaderLine(TABLE_ROOT + "." + key);
    OwnOpens(key);
    WithoutLineEnd(header, nl);
    NameIsQuoteless(key);
    assert '"' !in TABLE_ROOT && '\'' !in TABLE_ROOT;
    QuotelessLine(header);
    SwallowedLine(header + nl, s);
  }
}
