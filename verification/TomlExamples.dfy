/** Documents and entries that fail the conditions of the splice. */
module TomlExamples {
  import opened Wrappers
  import opened Text
  import opened TomlScan
  import opened TomlSplice
  import opened TomlCuts
  import opened TomlEntry
  import Json

  // ----- a document that loses a header

  /** A string that is still open, and what looks like its end behind an escaped quote. */
  const OPENS := "a = \"\"\"\n"
  const ENTRY := "x \\\"\"\"[mcp_servers.k]\n"
  const CLOSES := "\\\"\"\" \"\"\"\n"
  const OTHER := "[o]\n"

  lemma OpeningLine()
    ensures ScanRawLine(OPENS, CLEAN) == LineResult(None, State(0, Some(BASIC)))
  {
    var line, w := "a = \"\"\"", Walk(0, true, None, None);
    assert OPENS == line + "\n";
    WithoutFinalBreak(line);
    forall i: nat | i < 4 ensures !DelimiterAt(line, i) {
      NoDelimiterAt(line, i);
    }
    assert WalkFrom(line, 3, w) == WalkFrom(line, 4, w);
    assert WalkFrom(line, 1, w) == WalkFrom(line, 2, w) == WalkFrom(line, 3, w);
    assert line[4..7] == BASIC && OccursAt(line, BASIC, 4);
    assert WalkFrom(line, 4, w) == LineResult(None, State(0, Some(BASIC)));
  }

  /** An open string that ends where its delimiter first stands; the rest of the line is read as a line. */
  lemma AfterString(before: string, rest: string)
    requires '"' !in before
    ensures ScanLine(before + BASIC + rest, State(0, Some(BASIC))) == ScanLine(rest, CLEAN)
  {
    var line := before + BASIC + rest;
    assert line[|before|..|before| + 3] == BASIC && OccursAt(line, BASIC, |before|);
    forall i | 0 <= i < |before| ensures !OccursAt(line, BASIC, i) {
      assert line[i] == before[i];
      assert i + 3 <= |line| ==> line[i..i + 3][0] == line[i];
    }
    assert line[|before| + 3..] == rest;
  }

  lemma EntryLine()
    ensures ScanRawLine(ENTRY, State(0, Some(BASIC))) == LineResult(Some([TABLE_ROOT, "k"]), CLEAN)
  {
    var before, name := "x \\", "mcp_servers.k";
    var line := before + BASIC + ("[" + name + "]");
    assert ENTRY == line + "\n";
    WithoutFinalBreak(line);
    AfterString(before, "[" + name + "]");
    EntryHeader(name);
  }

  lemma EntryHeader(name: string)
    requires name == "mcp_servers.k"
    ensures ScanLine("[" + name + "]", CLEAN) == LineResult(Some([TABLE_ROOT, "k"]), CLEAN)
  {
    assert TABLE_ROOT + "." + "k" == name;
    PathOfTwoWords(TABLE_ROOT, "k");
    PlainHeader(name);
  }

  lemma ClosingLine()
    ensures ScanRawLine(CLOSES, CLEAN) == LineResult(None, CLEAN)
  {
    var line, w := "\\\"\"\" \"\"\"", Walk(0, true, None, None);
    assert CLOSES == line + "\n";
    WithoutFinalBreak(line);
    NoDelimiterAt(line, 0);
    assert line[1..4] == BASIC && OccursAt(line, BASIC, 1);
    assert OccursAt(line, BASIC, 5) && line[4] == ' ' && FindFrom(line, BASIC, 4) == 5;
    assert WalkFrom(line, 1, w) == WalkFrom(line, 8, w);
  }

  lemma OtherLine()
    ensures ScanRawLine(OTHER, CLEAN) == LineResult(Some(["o"]), CLEAN)
    ensures ScanRawLine(OTHER, State(0, Some(BASIC))) == LineResult(None, State(0, Some(BASIC)))
  {
    assert OTHER == "[o]" + "\n" && "[o]" == "[" + "o" + "]";
    WithoutFinalBreak("[o]");
    PathOfWord("o");
    PlainHeader("o");
    assert !OccursAt("[o]", BASIC, 0) by {
      assert "[o]"[0] != BASIC[0];
    }
  }

  lemma LineOf(line: string, rest: string)
    requires line != "" && line[|line| - 1] == '\n' && forall i :: 0 <= i < |line| - 1 ==> !IsBreak(line[i])
    ensures SplitLines(line + rest) == [line] + SplitLines(rest)
  {
    OneLine(line, 0);
    assert line[0..|line|] == line;
    assert SplitFrom(line, |line|) == [];
    assert SplitLines(line) == [line] + [];
    SplitJoined(line, rest);
  }

  /**
   A well-formed document that fails the condition. In its one string two escaped quotes are followed by
   two more, which the scanner takes for the end of the string, so it reads an entry header in the middle.
   Removing that line and the next leaves the string open, and the header behind them is no longer found.
   */
  lemma CutInsideAStringLosesAHeader()
    ensures var text := OPENS + (ENTRY + (CLOSES + OTHER));
      && |Headers(ScanRawLine, text)| == 2
      && Headers(ScanRawLine, text)[0].path == [TABLE_ROOT, "k"] && Headers(ScanRawLine, text)[1].path == ["o"]
      && !SameReading(ScanRawLine, text, Span(0, 1))
      && Headers(ScanRawLine, Spliced(ScanRawLine, text, Span(0, 1), "")) == []
  {
    LinesOfExample();
    OpeningLine();
    EntryLine();
    ClosingLine();
    OtherLine();
    HeaderIsLost(ScanRawLine, OPENS, ENTRY, CLOSES, OTHER, State(0, Some(BASIC)), [TABLE_ROOT, "k"], ["o"]);
    ScannerIsSound();
    RemovalKeepsIff(ScanRawLine, OPENS + (ENTRY + (CLOSES + OTHER)), Span(0, 1));
  }

  lemma LinesOfExample()
    ensures SplitLines(OPENS + (ENTRY + (CLOSES + OTHER))) == [OPENS, ENTRY, CLOSES, OTHER]
    ensures SplitLines(OPENS + OTHER) == [OPENS, OTHER]
  {
    LineOf(OPENS, ENTRY + (CLOSES + OTHER));
    LineOf(ENTRY, CLOSES + OTHER);
    LineOf(CLOSES, OTHER);
    LineOf(OTHER, "");
    LineOf(OPENS, OTHER);
    assert OTHER + "" == OTHER && SplitLines("") == [];
    assert [OPENS] + ([ENTRY] + ([CLOSES] + ([OTHER] + []))) == [OPENS, ENTRY, CLOSES, OTHER];
    assert [OPENS] + ([OTHER] + []) == [OPENS, OTHER];
  }

  /** Four lines, of which the first opens a string that the second closes before its header. */
  lemma HeaderIsLost(
      scan: LineScanner, a: string, b: string, m: string, c: string, s: State, p: KeyPath, q: KeyPath)
    requires SplitLines(a + (b + (m + c))) == [a, b, m, c] && SplitLines(a + c) == [a, c]
    requires b != "" && c != "" && s.open.Some?
    requires scan(a, CLEAN) == LineResult(None, s) && scan(b, s) == LineResult(Some(p), CLEAN)
    requires scan(m, CLEAN) == LineResult(None, CLEAN)
    requires scan(c, CLEAN) == LineResult(Some(q), CLEAN) && scan(c, s) == LineResult(None, s)
    ensures var text := a + (b + (m + c));
      && |Headers(scan, text)| == 2 && Headers(scan, text)[0].path == p && Headers(scan, text)[1].path == q
      && Headers(scan, Spliced(scan, text, Span(0, 1), "")) == []
  {
    var text := a + (b + (m + c));
    ScanOfFour(scan, a, b, m, c, s, p, q);
    assert text[..|a|] == a && text[|a| + |b| + |m|..] == c;
    assert a + "" + c == a + c;
  }

  lemma ScanOfFour(
      scan: LineScanner, a: string, b: string, m: string, c: string, s: State, p: KeyPath, q: KeyPath)
    requires scan(a, CLEAN) == LineResult(None, s) && scan(b, s) == LineResult(Some(p), CLEAN)
    requires scan(m, CLEAN) == LineResult(None, CLEAN)
    requires scan(c, CLEAN) == LineResult(Some(q), CLEAN) && scan(c, s) == LineResult(None, s)
    ensures ScanLines(scan, [a, b, m, c], CLEAN, 0).headers ==
      [Header(p, |a|, |a| + |b|), Header(q, |a| + |b| + |m|, |a| + |b| + |m| + |c|)]
    ensures ScanLines(scan, [a, c], CLEAN, 0).headers == []
  {
    assert [a, b, m, c][1..] == [b, m, c] && [b, m, c][1..] == [m, c] && [m, c][1..] == [c];
    assert [a, c][1..] == [c] && [c][1..] == [];
    var n := |a| + |b| + |m|;
    assert ScanLines(scan, [c], CLEAN, n).headers == [Header(q, n, n + |c|)];
    assert ScanLines(scan, [m, c], CLEAN, |a| + |b|).headers == [Header(q, n, n + |c|)];
    assert ScanLines(scan, [b, m, c], s, |a|).headers == [Header(p, |a|, |a| + |b|)] + [Header(q, n, n + |c|)];
    assert ScanLines(scan, [c], s, |a|) == Scanned([], s);
  }

  // ----- an entry with a foreign header

  /**
   The condition on the values is needed: a separator that JSON leaves as it is splits the value's line for
   the scanner, which ignores the open quote at its end and reads the rest as a table of its own.
   */
  lemma SeparatorAddsAHeader()
    ensures var line := ValueLine("command", SEPARATOR + "[o]") + "\n";
      Headers(ScanRawLine, line) != [] && Headers(ScanRawLine, line)[0].path == ["o"]
  {
    SeparatorValue();
    OneLineSplits(HEAD);
    OneLineSplits(REST);
    HeadIsPlain();
    RestIsHeader();
    HeaderOnSecondLine(ScanRawLine, HEAD, REST, ["o"]);
  }

  lemma HeaderOnSecondLine(scan: LineScanner, a: string, b: string, path: KeyPath)
    requires SplitLines(a) == [a] && SplitLines(b) == [b] && Follows(a, b)
    requires scan(a, CLEAN) == LineResult(None, CLEAN) && scan(b, CLEAN) == LineResult(Some(path), CLEAN)
    ensures Headers(scan, a + b) != [] && Headers(scan, a + b)[0].path == path
  {
    JoinedHeaders(scan, a, b);
    assert [a][1..] == [] && [b][1..] == [];
    assert ScanLines(scan, [a], CLEAN, 0) == Scanned([], CLEAN);
    assert ScanLines(scan, [b], CLEAN, |a|).headers == [Header(path, |a|, |a| + |b|)] + [];
  }

  const SEPARATOR := "\U{2028}"
  const HEAD := "command" + " = " + ("\"" + SEPARATOR)
  const REST := "[o]\"" + "\n"

  lemma {:induction false} EscapedPlain(s: string)
    requires forall i | 0 <= i < |s| :: Json.EscapeChar(s[i]) == [s[i]]
    ensures Json.Escaped(s) == s
  {
    if s != "" {
      EscapedPlain(s[1..]);
      assert [s[0]] + s[1..] == s;
    }
  }

  lemma SeparatorValue()
    ensures ValueLine("command", SEPARATOR + "[o]") + "\n" == HEAD + REST
  {
    var name, v := "command" + " = ", SEPARATOR + "[o]";
    EscapedPlain(v);
    assert Json.DumpString(v) == ("\"" + SEPARATOR) + "[o]\"";
    Regroup(name, "\"" + SEPARATOR, "[o]\"", "\n");
  }

  lemma Regroup(a: string, b: string, c: string, d: string)
    ensures a + (b + c) + d == (a + b) + (c + d)
  {
  }

  lemma OneLineSplits(line: string)
    requires line != "" && IsBreak(line[|line| - 1]) && forall i | 0 <= i < |line| - 1 :: !IsBreak(line[i])
    ensures SplitLines(line) == [line] && Complete(line)
  {
    OneLine(line, 0);
    assert line[0..|line|] == line && SplitFrom(line, |line|) == [];
  }

  lemma HeadIsPlain()
    ensures ScanRawLine(HEAD, CLEAN) == LineResult(None, CLEAN)
  {
    assert WithoutEnd(HEAD) == HEAD;
    AssignmentParts("command", "\"" + SEPARATOR);
    UnendedValue(HEAD, "command", SEPARATOR);
  }

  /** A value whose string does not end on the line. */
  lemma UnendedValue(line: string, name: string, c: string)
    requires Word(name) && |c| == 1 && c[0] != '"' && c[0] != '\\' && |line| == |name| + 5
    requires At(line, 0, name) && At(line, |name|, " = ") && At(line, |name| + 3, "\"" + c)
    ensures ScanLine(line, CLEAN) == LineResult(None, CLEAN)
  {
    var i := |name| + 3;
    AtIndex(line, i, "\"" + c, 0);
    AtIndex(line, i, "\"" + c, 1);
    WalkPastEquals(line, name);
    QuoteStep(line, i, AFTER_NAME);
    assert StringEndFrom(line, '"', i + 1) == i + 2;
  }

  lemma RestIsHeader()
    ensures ScanRawLine(REST, CLEAN) == LineResult(Some(["o"]), CLEAN)
  {
    var line, w := "[o]\"", Walk(1, true, Some(1), None);
    WithoutFinalBreak(line);
    NoDelimiterAt(line, 0);
    NoDelimiterAt(line, 1);
    NoDelimiterAt(line, 2);
    PathOfWord("o");
    assert line[1..2] == "o" && Closed(line, w, 2) == Walk(0, true, Some(1), Some(["o"]));
    assert WalkFrom(line, 2, w) == WalkFrom(line, 3, Walk(0, true, Some(1), Some(["o"])));
    assert WalkFrom(line, 1, w) == WalkFrom(line, 2, w)
      && WalkFrom(line, 0, Walk(0, false, None, None)) == WalkFrom(line, 1, w);
    assert StringEndFrom(line, '"', 4) == 4;
  }
}
