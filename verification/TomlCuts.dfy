/** Cutting an entry out with the scanner of the merge: when that keeps the other headers, and when not. */
module TomlCuts {
  import opened Wrappers
  import opened Text
  import opened TomlScan
  import opened TomlSplice

  predicate PlainName(name: string) { name != "" && forall i :: 0 <= i < |name| ==> IsBare(name[i]) || name[i] == '.' }

  lemma PlainIsNoSpace(c: char)
    requires IsBare(c) || c == '.'
    ensures !IsSpace(c) && c != '"' && c != '\'' && c != '#' && c != '[' && c != ']' && c != '\n' && c != '\r'
  {
  }

  lemma {:induction false} WalkPastName(line: string, i: nat, j: nat, w: Walk)
    requires i <= j <= |line| && (i == j ==> w.seen) && w.path.None?
    requires forall k :: i <= k < j ==> IsBare(line[k]) || line[k] == '.'
    ensures WalkFrom(line, i, w) == WalkFrom(line, j, w.(seen := true))
    decreases j - i
  {
    if i < j {
      PlainIsNoSpace(line[i]);
      assert !DelimiterAt(line, i) by {
        if i + 3 <= |line| {
          assert line[i..i + 3][0] == line[i];
        }
      }
      WalkPastName(line, i + 1, j, w.(seen := true));
    } else {
      assert w == w.(seen := true);
    }
  }

  lemma NoDelimiterAt(line: string, i: nat)
    requires i < |line| && line[i] != '"' && line[i] != '\''
    ensures !DelimiterAt(line, i)
  {
    if i + 3 <= |line| {
      assert line[i..i + 3][0] == line[i];
    }
  }

  /** A bracketed plain name on a line of its own is a header. */
  lemma PlainHeader(name: string)
    requires PlainName(name) && ParseKeyPath(name).Some?
    ensures ScanLine("[" + name + "]", CLEAN) == LineResult(ParseKeyPath(name), CLEAN)
  {
    var line, n := "[" + name + "]", |name| + 1;
    var w := Walk(0, false, None, None);
    NoDelimiterAt(line, 0);
    assert WalkFrom(line, 0, w) == WalkFrom(line, 1, Walk(1, true, Some(1), None));
    assert forall k :: 1 <= k < n ==> line[k] == name[k - 1];
    WalkPastName(line, 1, n, Walk(1, true, Some(1), None));
    assert line[n] == ']' && line[1..n] == name;
    NoDelimiterAt(line, n);
    assert Closed(line, Walk(1, true, Some(1), None), n) == Walk(0, true, Some(1), ParseKeyPath(name));
    assert WalkFrom(line, n, Walk(1, true, Some(1), None))
      == WalkFrom(line, n + 1, Walk(0, true, Some(1), ParseKeyPath(name)));
  }

  lemma {:induction false} BareRun(text: string, i: nat, j: nat)
    requires i <= j <= |text| && (j < |text| ==> !IsBare(text[j]))
    requires forall k :: i <= k < j ==> IsBare(text[k])
    ensures BareEnd(text, i) == j
    decreases j - i
  {
    if i < j {
      BareRun(text, i + 1, j);
    }
  }

  /** A bare word, and two bare words with a dot between them. */
  lemma PathOfWord(a: string)
    requires PlainName(a) && '.' !in a
    ensures ParseKeyPath(a) == Some([a])
  {
    PlainIsNoSpace(a[0]);
    PlainIsNoSpace(a[|a| - 1]);
    StrippedStays(a);
    BareRun(a, 0, |a|);
    assert a[0..|a|] == a;
    assert [] + [a] == [a];
    assert PathFrom(a, |a|, [a]) == Some([a]);
  }

  lemma PathOfTwoWords(a: string, b: string)
    requires PlainName(a) && '.' !in a && PlainName(b) && '.' !in b
    ensures ParseKeyPath(a + "." + b) == Some([a, b])
  {
    var text, n := a + "." + b, |a| + 1;
    assert text[0] == a[0] && text[|text| - 1] == b[|b| - 1] && text[|a|] == '.';
    PlainIsNoSpace(text[0]);
    PlainIsNoSpace(text[|text| - 1]);
    StrippedStays(text);
    BareRun(text, 0, |a|);
    assert text[0..|a|] == a && text[n..|text|] == b && text[n] == b[0];
    PlainIsNoSpace(b[0]);
    assert SkipDots(text, |a|) == n;
    BareRun(text, n, |text|);
    assert PathFrom(text, |text|, [a, b]) == Some([a, b]);
    assert [] + [a] == [a] && [a] + [b] == [a, b];
    assert PathFrom(text, |a|, [a]) == Some([a, b]);
  }

  // ----- the state of the scanner

  lemma {:induction false} WalkOpens(line: string, i: nat, w: Walk)
    ensures var s := WalkFrom(line, i, w).state; s.open.Some? ==> s.open.value in {BASIC, LITERAL}
    decreases |line| - i
  {
    if i >= |line| || line[i] == '#' {
    } else if DelimiterAt(line, i) {
      var close := FindFrom(line, line[i..i + 3], i + 3);
      if close >= 0 {
        WalkOpens(line, close + 3, w.(seen := true));
      }
    } else if line[i] == '"' || line[i] == '\'' {
      WalkOpens(line, StringEndFrom(line, line[i], i + 1), w.(seen := true));
    } else if line[i] == '[' {
      WalkOpens(line, i + 1, Opened(w, i));
    } else if line[i] == ']' {
      WalkOpens(line, i + 1, Closed(line, w, i));
    } else {
      WalkOpens(line, i + 1, Passed(w, line[i]));
    }
  }

  lemma {:induction false} StateOpens(lines: seq<string>, s: State, offset: nat)
    requires s.open.Some? ==> s.open.value in {BASIC, LITERAL}
    ensures var t := ScanLines(ScanRawLine, lines, s, offset).state; t.open.Some? ==> t.open.value in {BASIC, LITERAL}
  {
    if lines != [] {
      var line := WithoutEnd(lines[0]);
      if s.open.None? {
        WalkOpens(line, 0, Walk(s.depth, false, None, None));
      } else if FindFrom(line, s.open.value, 0) >= 0 {
        WalkOpens(line[FindFrom(line, s.open.value, 0) + 3..], 0, Walk(s.depth, false, None, None));
      }
      StateOpens(lines[1..], ScanRawLine(lines[0], s).state, offset + |lines[0]|);
    }
  }

  /** No multi-line string begins or ends on the line. */
  predicate NoDelimiter(line: string) { forall i: nat | i < |line| :: !DelimiterAt(line, i) }

  /** A line without delimiters is swallowed by an open string. */
  lemma SwallowedLine(line: string, s: State)
    requires NoDelimiter(WithoutEnd(line)) && s.open.Some? && s.open.value in {BASIC, LITERAL}
    ensures ScanRawLine(line, s) == LineResult(None, s)
  {
    var core := WithoutEnd(line);
    var at := FindFrom(core, s.open.value, 0);
    if at >= 0 {
      assert OccursAt(core, s.open.value, at) ==> DelimiterAt(core, at);
    }
  }

  // ----- removal

  /**
   Removing an entry: scanning the rest finds exactly the original headers without the entry's contiguous
   subtree, in order, if and only if nothing follows the entry or the line that follows reads the same at
   both cuts. When that line bears no delimiter of a multi-line string, it reads the same exactly when the
   scanner is in the same state at both cuts.
   */
  lemma RemovingAnEntry(text: string, key: string, span: Span)
    requires IsSpan(Headers(ScanRawLine, text), key, span)
    ensures KeepsHeaders(ScanRawLine, text, span, "") <==> SameReading(ScanRawLine, text, span)
    ensures NoDelimiter(WithoutEnd(Follower(ScanRawLine, text, span))) ==>
      (SameReading(ScanRawLine, text, span) <==>
        || span.after == |Headers(ScanRawLine, text)|
        || StateAt(ScanRawLine, text, SpanStart(ScanRawLine, text, span))
             == StateAt(ScanRawLine, text, SpanEnd(ScanRawLine, text, span)))
    ensures forall k :: span.first <= k < span.after ==> Within(Headers(ScanRawLine, text)[k].path, key)
    ensures SpanStart(ScanRawLine, text, span) < SpanEnd(ScanRawLine, text, span)
  {
    ScannerIsSound();
    RemovalKeepsIff(ScanRawLine, text, span);
    if span.after < |Headers(ScanRawLine, text)| && NoDelimiter(WithoutEnd(Follower(ScanRawLine, text, span))) {
      PlainFollower(text, span);
    }
  }

  /** Where a header can be cut off, the scanner is clean or inside a multi-line string. */
  lemma StateAtHeader(text: string, i: nat)
    requires i < |Headers(ScanRawLine, text)|
    ensures var at := Headers(ScanRawLine, text)[i].start;
      var s := StateAt(ScanRawLine, text, at);
      s == CLEAN || (s.open.Some? && s.open.value in {BASIC, LITERAL})
  {
    ScannerIsSound();
    CutAtHeader(ScanRawLine, text, i);
    StateOpens(SplitLines(text[..Headers(ScanRawLine, text)[i].start]), CLEAN, 0);
  }

  lemma PlainFollower(text: string, span: Span)
    requires span.first < span.after < |Headers(ScanRawLine, text)|
    requires NoDelimiter(WithoutEnd(Follower(ScanRawLine, text, span)))
    ensures SameReading(ScanRawLine, text, span) <==>
      StateAt(ScanRawLine, text, SpanStart(ScanRawLine, text, span))
        == StateAt(ScanRawLine, text, SpanEnd(ScanRawLine, text, span))
  {
    ScannerIsSound();
    var line := Follower(ScanRawLine, text, span);
    var s := StateAt(ScanRawLine, text, SpanStart(ScanRawLine, text, span));
    var t := StateAt(ScanRawLine, text, SpanEnd(ScanRawLine, text, span));
    CutAtHeader(ScanRawLine, text, span.after);
    StateAtHeader(text, span.first);
    StateAtHeader(text, span.after);
    if s != CLEAN {
      SwallowedLine(line, s);
    }
    if t != CLEAN {
      SwallowedLine(line, t);
    }
  }

  // ----- lines on their own

  lemma WithoutFinalBreak(core: string)
    requires core == "" || !IsBreak(core[|core| - 1])
    ensures WithoutEnd(core + "\n") == core
  {
    assert (core + "\n")[..|core|] == core;
  }

  lemma {:induction false} OneLine(line: string, i: nat)
    requires i < |line| && IsBreak(line[|line| - 1]) && forall k :: 0 <= k < |line| - 1 ==> !IsBreak(line[k])
    ensures LineEndFrom(line, i) == |line|
    decreases |line| - i
  {
    if i < |line| - 1 {
      OneLine(line, i + 1);
    }
  }
}
