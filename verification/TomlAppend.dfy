/** Appending an entry to a document that has none (application/client_config/merge_toml.py). */
module TomlAppend {
  import opened Wrappers
  import opened TomlScan
  import opened TomlSplice
  import opened TomlCuts
  import opened TomlEntry

  /** The document with its last line ended. */
  function WithEnd(text: string, nl: string): string {
    if text == "" || text[|text| - 1] == '\n' then text else text + nl
  }

  /** What stands before the entry: the document and a blank line, or nothing. */
  function Lead(text: string, nl: string): string { if text == "" then "" else WithEnd(text, nl) + nl }

  function Appended(text: string, block: string, nl: string): string { Lead(text, nl) + block }

  /** Headers by what they name and where they begin; ending its line moves the end of the last one. */
  function Marks(headers: seq<Header>): seq<(KeyPath, int)> {
    seq(|headers|, i requires 0 <= i < |headers| => (headers[i].path, headers[i].start))
  }

  lemma MarksOfJoined(a: seq<Header>, b: seq<Header>)
    ensures Marks(a + b) == Marks(a) + Marks(b)
  {
  }

  // ----- the blank line

  lemma BlankReads(nl: string, s: State)
    requires LineEnd(nl)
    ensures ScanRawLine(nl, s) == LineResult(None, s)
  {
    assert nl == "" + nl;
    WithoutLineEnd("", nl);
  }

  lemma BlankScans(text: string, nl: string)
    requires LineEnd(nl) && Follows(text, nl)
    ensures Headers(ScanRawLine, text + nl) == Headers(ScanRawLine, text)
    ensures EndState(ScanRawLine, text + nl) == EndState(ScanRawLine, text)
  {
    var s := EndState(ScanRawLine, text);
    BlankReads(nl, s);
    assert "" + nl == nl;
    EndedLineSplits("", nl);
    JoinedHeaders(ScanRawLine, text, nl);
    assert ScanLines(ScanRawLine, [nl], s, |text|) == Scanned([], s);
  }

  // ----- ending the last line

  lemma {:induction false} EndedLineEnds(line: string, nl: string, i: nat)
    requires LineEnd(nl) && line != "" && i < |line| && LineEndFrom(line, i) == |line| && !Follows(line, nl)
    ensures LineEndFrom(line + nl, i) == |line + nl|
    decreases |line| - i
  {
    var ended := line + nl;
    assert ended[i] == line[i] && ended[|line|] == nl[0];
    if i + 1 < |line| {
      assert ended[i + 1] == line[i + 1];
      if !IsBreak(line[i]) {
        EndedLineEnds(line, nl, i + 1);
      }
    }
  }

  lemma EndedSplitsAlike(line: string, nl: string)
    requires LineEnd(nl) && line != "" && SplitLines(line) == [line] && !Follows(line, nl)
    ensures SplitLines(line + nl) == [line + nl]
  {
    var end := LineEndFrom(line, 0);
    assert SplitLines(line)[0] == line[0..end] && |line[0..end]| == end;
    EndedLineEnds(line, nl, 0);
    var ended := line + nl;
    assert ended[0..|ended|] == ended && SplitFrom(ended, |ended|) == [];
  }

  lemma EndedReadsAlike(line: string, nl: string, s: State)
    requires LineEnd(nl)
    ensures ScanRawLine(line + nl, s) == ScanRawLine(line, s)
  {
    WithoutLast(line, '\n');
    WithoutLast(line, '\r');
    WithoutLast(line + ['\r'], '\n');
    assert line + "\n" == line + ['\n'] && line + "\r\n" == line + ['\r'] + ['\n'];
  }

  /** Any text can be cut before its last line. */
  lemma LastLine(text: string) returns (front: string, line: string)
    requires text != ""
    ensures text == front + line && line != "" && SplitLines(line) == [line] && Follows(front, line)
  {
    var lines := SplitLines(text);
    var k := |lines| - 1;
    var n := CutPoint(text, k);
    CutAfterLines(text, k);
    front, line := text[..n], text[n..];
    assert lines[k..] == [lines[k]];
    OneLine(line, lines[k]);
  }

  lemma OneLine(text: string, line: string)
    requires SplitLines(text) == [line]
    ensures text == line && text != ""
  {
    LinesMakeText(text);
    assert Concat([line]) == line + Concat([]);
  }

  lemma EndedScans(front: string, line: string, nl: string)
    requires LineEnd(nl) && line != "" && SplitLines(line) == [line] && Follows(front, line) && !Follows(line, nl)
    ensures Marks(Headers(ScanRawLine, front + (line + nl))) == Marks(Headers(ScanRawLine, front + line))
    ensures EndState(ScanRawLine, front + (line + nl)) == EndState(ScanRawLine, front + line)
  {
    var s := EndState(ScanRawLine, front);
    EndedSplitsAlike(line, nl);
    EndedReadsAlike(line, nl, s);
    JoinedHeaders(ScanRawLine, front, line);
    JoinedHeaders(ScanRawLine, front, line + nl);
    var x, y := ScanLines(ScanRawLine, [line], s, |front|), ScanLines(ScanRawLine, [line + nl], s, |front|);
    assert Marks(x.headers) == Marks(y.headers);
    MarksOfJoined(Headers(ScanRawLine, front), x.headers);
    MarksOfJoined(Headers(ScanRawLine, front), y.headers);
  }

  /** Ending the last line of a document moves no header and leaves the scanner as it was. */
  lemma EndingScans(text: string, nl: string)
    requires LineEnd(nl)
    ensures Marks(Headers(ScanRawLine, WithEnd(text, nl))) == Marks(Headers(ScanRawLine, text))
    ensures EndState(ScanRawLine, WithEnd(text, nl)) == EndState(ScanRawLine, text)
  {
    if text == "" || text[|text| - 1] == '\n' {
    } else if Follows(text, nl) {
      BlankScans(text, nl);
    } else {
      var front, line := LastLine(text);
      assert text[|text| - 1] == line[|line| - 1];
      EndedScans(front, line, nl);
      assert text + nl == front + (line + nl);
    }
  }

  lemma EndsInNewline(text: string, nl: string)
    requires LineEnd(nl) && text != ""
    ensures WithEnd(text, nl) != "" && WithEnd(text, nl)[|WithEnd(text, nl)| - 1] == '\n'
    ensures Lead(text, nl) != "" && Lead(text, nl)[|Lead(text, nl)| - 1] == '\n'
  {
    assert nl[|nl| - 1] == '\n';
  }

  lemma LeadScans(text: string, nl: string)
    requires LineEnd(nl)
    ensures Marks(Headers(ScanRawLine, Lead(text, nl))) == Marks(Headers(ScanRawLine, text))
    ensures EndState(ScanRawLine, Lead(text, nl)) == EndState(ScanRawLine, text)
  {
    if text != "" {
      EndsInNewline(text, nl);
      EndingScans(text, nl);
      BlankScans(WithEnd(text, nl), nl);
    }
  }

  // ----- the entry

  /** Where the document does not end cleanly, the entry's first line does not read as its header. */
  lemma HeaderIsLost(text: string, key: string, nl: string)
    requires Word(key) && LineEnd(nl) && EndState(ScanRawLine, text) != CLEAN
    ensures var line := TomlEntry.HeaderLine(TABLE_ROOT + "." + key) + nl;
      ScanRawLine(line, EndState(ScanRawLine, text)) != ScanRawLine(line, CLEAN)
  {
    var s := EndState(ScanRawLine, text);
    StateOpens(SplitLines(text), CLEAN, 0);
    if s.open.Some? {
      OwnHeaderSwallowed(key, nl, s);
    } else {
      var header := TomlEntry.HeaderLine(TABLE_ROOT + "." + key);
      OwnOpens(key);
      WithoutLineEnd(header, nl);
      NoLateHeader(header, 0, Walk(s.depth, false, None, None));
    }
  }

  lemma MarksDiffer(x: seq<Header>, own: seq<Header>, at: int)
    requires own != [] && own[0].start == 0
    requires x == [] || x[0].start > at || x[0].path != own[0].path
    ensures Marks(x) != Marks(Shifted(own, at))
  {
    assert Marks(Shifted(own, at))[0] == (own[0].path, at);
    if x != [] {
      assert Marks(x)[0] == (x[0].path, x[0].start);
    }
  }

  lemma SameMarks(a: seq<(KeyPath, int)>, x: seq<(KeyPath, int)>, y: seq<(KeyPath, int)>)
    ensures a + x == a + y <==> x == y
  {
    SamePrefix(a, x, y);
  }

  /**
   Appending a written entry: scanning the result finds the headers of the document where they were, and the
   entry's own behind them, if and only if the document ends with no bracket and no string open.
   */
  lemma AppendingAnEntry(text: string, key: string, p: Payload, nl: string)
    requires WellNamed(key, p) && UnbrokenValues(p) && LineEnd(nl)
    ensures var block, at := Rendered(key, p, nl), |Lead(text, nl)|;
      Marks(Headers(ScanRawLine, Appended(text, block, nl))) ==
        Marks(Headers(ScanRawLine, text)) + Marks(Shifted(Headers(ScanRawLine, block), at)) <==>
      EndState(ScanRawLine, text) == CLEAN
  {
    var block, lead, s := Rendered(key, p, nl), Lead(text, nl), EndState(ScanRawLine, text);
    var x := ScanLines(ScanRawLine, SplitLines(block), s, |lead|);
    EntryIsBlock(key, p, nl);
    LeadScans(text, nl);
    if text != "" {
      EndsInNewline(text, nl);
    }
    JoinedHeaders(ScanRawLine, lead, block);
    MarksOfJoined(Headers(ScanRawLine, lead), x.headers);
    BlockReads(ScanRawLine, block, s, |lead|);
    SameMarks(
      Marks(Headers(ScanRawLine, text)), Marks(x.headers), Marks(Shifted(Headers(ScanRawLine, block), |lead|)));
    if s != CLEAN {
      HeaderIsLost(text, key, nl);
      MarksDiffer(x.headers, Headers(ScanRawLine, block), |lead|);
    }
  }
}
