/** Cutting an entry out of a document, or replacing it, leaves every other header where it was. */
module TomlSplice {
  import opened Wrappers
  import opened Text
  import opened TomlScan

  // ----- lines of joined texts

  /** The text ends where a line ends. */
  predicate Complete(text: string) { text != "" ==> IsBreak(text[|text| - 1]) }

  /** `b` may follow the complete text `a` without joining a CR to an LF. */
  predicate Follows(a: string, b: string) {
    Complete(a) && !(a != "" && a[|a| - 1] == '\r' && b != "" && b[0] == '\n')
  }

  lemma {:induction false} LineEndOfJoined(a: string, b: string, i: nat)
    requires i < |a| && Follows(a, b)
    ensures LineEndFrom(a + b, i) == LineEndFrom(a, i)
    decreases |a| - i
  {
    assert (a + b)[i] == a[i];
    if i + 1 < |a| {
      assert (a + b)[i + 1] == a[i + 1];
      if !IsBreak(a[i]) {
        LineEndOfJoined(a, b, i + 1);
      }
    } else {
      assert b != "" ==> (a + b)[i + 1] == b[0];
    }
  }

  lemma {:induction false} LineEndOfTail(text: string, n: nat, i: nat)
    requires n + i <= |text|
    ensures LineEndFrom(text[n..], i) == LineEndFrom(text, n + i) - n
    decreases |text| - i
  {
    if n + i < |text| {
      assert text[n..][i] == text[n + i];
      assert n + i + 1 < |text| ==> text[n..][i + 1] == text[n + i + 1];
      if !IsBreak(text[n + i]) {
        LineEndOfTail(text, n, i + 1);
      }
    }
  }

  lemma {:induction false} SplitOfTail(text: string, tail: string, n: nat, i: nat)
    requires n + i <= |text| && tail == text[n..]
    ensures SplitFrom(tail, i) == SplitFrom(text, n + i)
    decreases |text| - i
  {
    if n + i < |text| {
      LineEndOfTail(text, n, i);
      var end := LineEndFrom(tail, i);
      SplitOfTail(text, tail, n, end);
      assert tail[i..end] == text[n + i..n + end];
    }
  }

  lemma {:induction false} SplitJoinedFrom(a: string, b: string, joined: string, i: nat)
    requires Follows(a, b) && i <= |a| && joined == a + b
    ensures SplitFrom(joined, i) == SplitFrom(a, i) + SplitLines(b)
    decreases |a| - i
  {
    if i == |a| {
      assert joined[i..] == b;
      SplitOfTail(joined, b, i, 0);
    } else {
      LineEndOfJoined(a, b, i);
      var end := LineEndFrom(a, i);
      SplitJoinedFrom(a, b, joined, end);
      assert joined[i..end] == a[i..end];
    }
  }

  lemma SplitJoined(a: string, b: string)
    requires Follows(a, b)
    ensures SplitLines(a + b) == SplitLines(a) + SplitLines(b)
  {
    SplitJoinedFrom(a, b, a + b, 0);
  }

  lemma {:induction false} LineEndsAtBreak(text: string, i: nat)
    requires i < |text| && LineEndFrom(text, i) < |text|
    ensures IsBreak(text[LineEndFrom(text, i) - 1])
    ensures !(text[LineEndFrom(text, i) - 1] == '\r' && text[LineEndFrom(text, i)] == '\n')
    decreases |text| - i
  {
    if !IsBreak(text[i]) {
      LineEndsAtBreak(text, i + 1);
    }
  }

  /** Where the `k`th line begins. */
  function CutPoint(text: string, k: nat): (n: nat)
    ensures n <= |text|
  {
    if k == 0 then 0 else LineEndFrom(text, CutPoint(text, k - 1))
  }

  lemma {:induction false} CutSplits(text: string, k: nat)
    requires k <= |SplitLines(text)|
    ensures SplitFrom(text, CutPoint(text, k)) == SplitLines(text)[k..]
  {
    if k > 0 {
      CutSplits(text, k - 1);
      var n := CutPoint(text, k - 1);
      assert SplitFrom(text, n)[1..] == SplitLines(text)[k..];
    }
  }

  lemma {:induction false} CutIsConcat(text: string, k: nat)
    requires k <= |SplitLines(text)|
    ensures Concat(SplitLines(text)[..k]) == text[..CutPoint(text, k)]
  {
    var lines := SplitLines(text);
    SplitsAreLines(text, 0);
    CutSplits(text, k);
    SplitsAreLines(text, CutPoint(text, k));
    assert lines == lines[..k] + lines[k..];
    ConcatParts(lines[..k], lines[k..]);
    var n := |Concat(lines[..k])|;
    assert text[0..] == text;
    assert text == Concat(lines[..k]) + text[CutPoint(text, k)..];
  }

  /** A text cut after its first `k` lines: these lines are its front, and a line begins there. */
  lemma CutAfterLines(text: string, k: nat)
    requires k <= |SplitLines(text)|
    ensures Concat(SplitLines(text)[..k]) == text[..CutPoint(text, k)]
    ensures SplitLines(text[CutPoint(text, k)..]) == SplitLines(text)[k..]
    ensures CutPoint(text, k) < |text| ==> Follows(text[..CutPoint(text, k)], text[CutPoint(text, k)..])
  {
    var n := CutPoint(text, k);
    CutIsConcat(text, k);
    CutSplits(text, k);
    SplitOfTail(text, text[n..], n, 0);
    if k > 0 && n < |text| {
      LineEndsAtBreak(text, CutPoint(text, k - 1));
    }
  }

  // ----- scanning parts

  function Shifted(headers: seq<Header>, shift: int): seq<Header> {
    seq(|headers|, i requires 0 <= i < |headers| =>
      Header(headers[i].path, headers[i].start + shift, headers[i].end + shift))
  }

  lemma {:induction false} ConcatParts(a: seq<string>, b: seq<string>)
    ensures Concat(a + b) == Concat(a) + Concat(b)
  {
    if a == [] {
      assert a + b == b;
    } else {
      assert (a + b)[1..] == a[1..] + b;
      ConcatParts(a[1..], b);
      assert a[0] + (Concat(a[1..]) + Concat(b)) == (a[0] + Concat(a[1..])) + Concat(b);
    }
  }

  lemma {:induction false} ScanParts(scan: LineScanner, a: seq<string>, b: seq<string>, s: State, offset: nat)
    ensures ScanLines(scan, a + b, s, offset) ==
      var x := ScanLines(scan, a, s, offset);
      var y := ScanLines(scan, b, x.state, offset + |Concat(a)|);
      Scanned(x.headers + y.headers, y.state)
  {
    if a == [] {
      assert a + b == b;
    } else {
      assert (a + b)[1..] == a[1..] + b;
      ScanParts(scan, a[1..], b, scan(a[0], s).state, offset + |a[0]|);
    }
  }

  lemma {:induction false} ScanIsShifted(scan: LineScanner, lines: seq<string>, s: State, offset: nat, shift: int)
    requires offset + shift >= 0
    ensures ScanLines(scan, lines, s, offset + shift) ==
      var x := ScanLines(scan, lines, s, offset); Scanned(Shifted(x.headers, shift), x.state)
  {
    if lines != [] {
      ScanIsShifted(scan, lines[1..], scan(lines[0], s).state, offset + |lines[0]|, shift);
    }
  }

  // ----- where headers stand

  /** With open brackets before it, or something other than whitespace, no bracket opens a header. */
  lemma {:induction false} NoLateHeader(line: string, i: nat, w: Walk)
    requires (w.seen || w.depth > 0) && w.start.None? && w.path.None?
    ensures WalkFrom(line, i, w).header.None?
    decreases |line| - i
  {
    if i >= |line| || line[i] == '#' {
    } else if DelimiterAt(line, i) {
      var close := FindFrom(line, line[i..i + 3], i + 3);
      if close >= 0 {
        NoLateHeader(line, close + 3, w.(seen := true));
      }
    } else if line[i] == '"' || line[i] == '\'' {
      NoLateHeader(line, StringEndFrom(line, line[i], i + 1), w.(seen := true));
    } else if line[i] == '[' {
      NoLateHeader(line, i + 1, Opened(w, i));
    } else if line[i] == ']' {
      NoLateHeader(line, i + 1, Closed(line, w, i));
    } else {
      NoLateHeader(line, i + 1, Passed(w, line[i]));
    }
  }

  /** A header line that does not begin inside a multi-line string begins with a clean scanner. */
  lemma HeaderLineIsClean(line: string, s: State)
    requires ScanLine(line, s).header.Some? && s.open.None?
    ensures s == CLEAN
  {
    if s.depth > 0 {
      NoLateHeader(line, 0, Walk(s.depth, false, None, None));
    }
  }

  lemma EmptyLineHasNoHeader(s: State)
    ensures ScanLine("", s).header.None?
  {
  }

  /** The line on which a header stands. */
  lemma {:induction false} HeaderLine(scan: LineScanner, lines: seq<string>, s: State, offset: nat, i: nat)
    returns (k: nat)
    requires i < |ScanLines(scan, lines, s, offset).headers|
    ensures k < |lines|
    ensures ScanLines(scan, lines, s, offset).headers[i].start == offset + |Concat(lines[..k])|
    ensures |ScanLines(scan, lines[..k], s, offset).headers| == i
    ensures IsHeader(scan(lines[k], ScanLines(scan, lines[..k], s, offset).state))
  {
    var r := scan(lines[0], s);
    if IsHeader(r) && i == 0 {
      k := 0;
      assert lines[..0] == [];
    } else {
      var j := HeaderLine(scan, lines[1..], r.state, offset + |lines[0]|, if IsHeader(r) then i - 1 else i);
      k := j + 1;
      assert lines[..k][1..] == lines[1..][..j] && lines[..k] == [lines[0]] + lines[1..][..j];
    }
  }

  // ----- the splice

  /** The scanner's state where the text is cut. */
  function StateAt(scan: LineScanner, text: string, at: nat): State
    requires at <= |text|
  {
    EndState(scan, text[..at])
  }

  /**
   What the splice needs to know of a line scanner: a bare line feed is no header, and a header line that
   does not begin inside a multi-line string begins with a clean scanner.
   */
  ghost predicate Sound(scan: LineScanner) {
    forall line, s :: IsHeader(scan(line, s)) ==> line != "\n" && (s.open.None? ==> s == CLEAN)
  }

  lemma ScannerIsSound()
    ensures Sound(ScanRawLine)
  {
    forall line, s | IsHeader(ScanRawLine(line, s)) ensures line != "\n" && (s.open.None? ==> s == CLEAN) {
      RawHeaderLine(line, s);
    }
  }

  lemma RawHeaderLine(line: string, s: State)
    requires IsHeader(ScanRawLine(line, s))
    ensures line != "\n" && (s.open.None? ==> s == CLEAN)
  {
    EmptyLineHasNoHeader(s);
    assert WithoutEnd("\n") == "";
    if s.open.None? {
      HeaderLineIsClean(WithoutEnd(line), s);
    }
  }

  lemma FirstLine(text: string)
    requires SplitLines(text) != []
    ensures text != "" && (text[0] == '\n' ==> SplitLines(text)[0] == "\n")
  {
  }

  lemma LineAtCut(text: string, k: nat)
    requires k < |SplitLines(text)|
    ensures CutPoint(text, k) < |text|
    ensures text[CutPoint(text, k)] == '\n' ==> SplitLines(text)[k] == "\n"
  {
    CutAfterLines(text, k);
    var lines := SplitLines(text);
    assert lines[k..] != [] && lines[k..][0] == lines[k];
    FirstLine(text[CutPoint(text, k)..]);
  }

  /** The front of a text splits into its first lines. */
  lemma FrontSplits(text: string, k: nat)
    requires k <= |SplitLines(text)| && CutPoint(text, k) < |text|
    ensures SplitLines(text[..CutPoint(text, k)]) == SplitLines(text)[..k]
  {
    var at, lines := CutPoint(text, k), SplitLines(text);
    CutAfterLines(text, k);
    SplitJoined(text[..at], text[at..]);
    assert text == text[..at] + text[at..];
    var front := SplitLines(text[..at]);
    assert lines == front + lines[k..];
    assert |front| == k && front == lines[..k];
  }

  /** The lines before the one on which a header stands, and those from it on. */
  lemma CutLines(scan: LineScanner, lines: seq<string>, i: nat) returns (k: nat)
    requires Sound(scan) && i < |ScanLines(scan, lines, CLEAN, 0).headers|
    ensures k < |lines| && lines[k] != "\n"
    ensures var h, front := ScanLines(scan, lines, CLEAN, 0).headers, ScanLines(scan, lines[..k], CLEAN, 0);
      && h[i].start == |Concat(lines[..k])| && h[..i] == front.headers
      && h[i..] == ScanLines(scan, lines[k..], front.state, |Concat(lines[..k])|).headers
      && (front.state.open.None? ==> front.state == CLEAN) && IsHeader(scan(lines[k], front.state))
  {
    k := HeaderLine(scan, lines, CLEAN, 0, i);
    assert lines == lines[..k] + lines[k..];
    ScanParts(scan, lines[..k], lines[k..], CLEAN, 0);
  }

  /** The cut at a header: what is scanned before it, and from it on. */
  lemma CutAtHeader(scan: LineScanner, text: string, i: nat)
    requires Sound(scan)
    requires i < |Headers(scan, text)|
    ensures CutsAt(scan, text, i, Headers(scan, text)[i].start)
  {
    var k := CutLines(scan, SplitLines(text), i);
    CutAfterLines(text, k);
    LineAtCut(text, k);
    FrontSplits(text, k);
  }

  predicate CutsAt(scan: LineScanner, text: string, i: nat, at: nat)
    requires at <= |text| && i <= |Headers(scan, text)|
  {
    && at < |text| && text[at] != '\n' && Follows(text[..at], text[at..])
    && Headers(scan, text)[..i] == Headers(scan, text[..at])
    && Headers(scan, text)[i..] == ScanLines(scan, SplitLines(text[at..]), StateAt(scan, text, at), at).headers
    && (StateAt(scan, text, at).open.None? ==> StateAt(scan, text, at) == CLEAN)
    && SplitLines(text[at..]) != [] && IsHeader(scan(SplitLines(text[at..])[0], StateAt(scan, text, at)))
  }

  function EndState(scan: LineScanner, text: string): State { ScanLines(scan, SplitLines(text), CLEAN, 0).state }

  /** The headers of two texts joined where a line ends: the second is read in the state the first leaves. */
  lemma JoinedHeaders(scan: LineScanner, a: string, b: string)
    requires Follows(a, b)
    ensures Headers(scan, a + b) == Headers(scan, a) + ScanLines(scan, SplitLines(b), EndState(scan, a), |a|).headers
    ensures EndState(scan, a + b) == ScanLines(scan, SplitLines(b), EndState(scan, a), |a|).state
  {
    SplitJoined(a, b);
    LinesMakeText(a);
    JoinedScans(scan, SplitLines(a), SplitLines(b), SplitLines(a + b), |a|);
  }

  lemma LinesMakeText(text: string)
    ensures Concat(SplitLines(text)) == text
  {
    SplitsAreLines(text, 0);
    assert text[0..] == text;
  }

  lemma JoinedScans(scan: LineScanner, a: seq<string>, b: seq<string>, joined: seq<string>, n: nat)
    requires joined == a + b && |Concat(a)| == n
    ensures var x := ScanLines(scan, a, CLEAN, 0);
      var y := ScanLines(scan, b, x.state, n);
      ScanLines(scan, joined, CLEAN, 0) == Scanned(x.headers + y.headers, y.state)
  {
    ScanParts(scan, a, b, CLEAN, 0);
  }

  /**
   Lines that begin with a header in one state: read in another state they give the same headers exactly
   when that first line does. Behind a header the scanner is clean, however the line was entered.
   */
  lemma FirstLineDecides(scan: LineScanner, lines: seq<string>, s: State, t: State, offset: nat)
    requires lines != [] && (forall line <- lines :: line != "") && IsHeader(scan(lines[0], t))
    ensures ScanLines(scan, lines, s, offset).headers == ScanLines(scan, lines, t, offset).headers
      <==> scan(lines[0], s) == scan(lines[0], t)
  {
    var r, next := scan(lines[0], s), offset + |lines[0]|;
    var x, y := ScanLines(scan, lines, s, offset).headers, ScanLines(scan, lines, t, offset).headers;
    assert y[0] == Header(scan(lines[0], t).header.value, offset, next);
    assert forall line <- lines[1..] :: line in lines;
    if IsHeader(r) {
      assert x[0] == Header(r.header.value, offset, next);
      assert x[1..] == y[1..];
    } else {
      HeadersAscend(scan, lines[1..], r.state, next);
      assert lines[0] in lines && (x != [] ==> x[0].start >= next > offset);
    }
  }

  // ----- the cuts

  /** The line that follows the span, empty when nothing does. */
  function Follower(scan: LineScanner, text: string, span: Span): string {
    var lines := SplitLines(text[SpanEnd(scan, text, span)..]);
    if lines == [] then "" else lines[0]
  }

  /** The line after the span reads the same in both places; with nothing after the span there is no such line. */
  predicate SameReading(scan: LineScanner, text: string, span: Span)
    requires span.first < |Headers(scan, text)|
  {
    span.after == |Headers(scan, text)| ||
    scan(Follower(scan, text, span), StateAt(scan, text, SpanStart(scan, text, span)))
      == scan(Follower(scan, text, span), StateAt(scan, text, SpanEnd(scan, text, span)))
  }

  /** The text before the span, as the scanner sees it. */
  lemma BeforeSpan(scan: LineScanner, text: string, span: Span)
    requires Sound(scan) && span.first < |Headers(scan, text)|
    ensures var at := SpanStart(scan, text, span);
      && Headers(scan, text[..at]) == Headers(scan, text)[..span.first] && Complete(text[..at])
      && EndState(scan, text[..at]) == StateAt(scan, text, at)
  {
    CutAtHeader(scan, text, span.first);
  }

  /** The headers after the span, as the scanner found them and as it would in another state and place. */
  lemma AfterSpan(scan: LineScanner, text: string, span: Span, s: State, offset: nat)
    requires Sound(scan) && span.first < span.after <= |Headers(scan, text)|
    ensures var end := SpanEnd(scan, text, span);
      && (text[end..] != "" ==> text[end..][0] != '\n')
      && (ScanLines(scan, SplitLines(text[end..]), s, offset).headers
            == Shifted(Headers(scan, text)[span.after..], offset - end)
          <==> span.after == |Headers(scan, text)|
               || scan(Follower(scan, text, span), s) == scan(Follower(scan, text, span), StateAt(scan, text, end)))
  {
    var end := SpanEnd(scan, text, span);
    if span.after < |Headers(scan, text)| {
      CutAtHeader(scan, text, span.after);
      var lines, t := SplitLines(text[end..]), StateAt(scan, text, end);
      SplitsAreLines(text[end..], 0);
      ScanIsShifted(scan, lines, t, end, offset - end);
      FirstLineDecides(scan, lines, s, t, offset);
    } else {
      assert text[end..] == "" && SplitLines("") == [];
    }
  }

  /** What is left when a span is removed, or replaced by complete lines. */
  ghost predicate KeepsHeaders(scan: LineScanner, text: string, span: Span, block: string)
    requires span.first < span.after <= |Headers(scan, text)|
  {
    var at, end := SpanStart(scan, text, span), SpanEnd(scan, text, span);
    Headers(scan, Spliced(scan, text, span, block)) ==
      Headers(scan, text)[..span.first]
      + Shifted(Headers(scan, block), at)
      + Shifted(Headers(scan, text)[span.after..], at + |block| - end)
  }

  /**
   Removing a span keeps all other headers, in order and moved by the length removed, exactly when
   nothing follows the span or the line that follows reads the same at both cuts. No byte outside the
   span changes.
   */
  lemma RemovalKeepsIff(scan: LineScanner, text: string, span: Span)
    requires Sound(scan) && span.first < span.after <= |Headers(scan, text)|
    ensures Spliced(scan, text, span, "") == text[..SpanStart(scan, text, span)] + text[SpanEnd(scan, text, span)..]
    ensures KeepsHeaders(scan, text, span, "") <==> SameReading(scan, text, span)
  {
    var at: int, end: int := SpanStart(scan, text, span), SpanEnd(scan, text, span);
    var h := Headers(scan, text);
    var x := ScanLines(scan, SplitLines(text[end..]), StateAt(scan, text, at), at).headers;
    AfterSpan(scan, text, span, StateAt(scan, text, at), at);
    RemovedHeaders(scan, text, span);
    assert SplitLines("") == [] && Headers(scan, "") == [];
    NoBlock(h[..span.first], Shifted(h[span.after..], at - end), at);
    SamePrefix(h[..span.first], x, Shifted(h[span.after..], at - end));
  }

  lemma RemovedHeaders(scan: LineScanner, text: string, span: Span)
    requires Sound(scan) && span.first < span.after <= |Headers(scan, text)|
    ensures var at, end := SpanStart(scan, text, span), SpanEnd(scan, text, span);
      && Spliced(scan, text, span, "") == text[..at] + text[end..]
      && Headers(scan, Spliced(scan, text, span, "")) == Headers(scan, text)[..span.first]
           + ScanLines(scan, SplitLines(text[end..]), StateAt(scan, text, at), at).headers
  {
    var at, end := SpanStart(scan, text, span), SpanEnd(scan, text, span);
    BeforeSpan(scan, text, span);
    AfterSpan(scan, text, span, CLEAN, 0);
    assert text[..at] + "" + text[end..] == text[..at] + text[end..];
    JoinedHeaders(scan, text[..at], text[end..]);
  }

  lemma NoBlock(before: seq<Header>, after: seq<Header>, at: nat)
    ensures before + Shifted([], at) + after == before + after
  {
    assert Shifted([], at) == [];
  }

  lemma SamePrefix<T>(a: seq<T>, x: seq<T>, y: seq<T>)
    ensures a + x == a + y <==> x == y
  {
    if a + x == a + y {
      assert x == (a + x)[|a|..] && y == (a + y)[|a|..];
    }
  }

  // ----- replacement

  /** An entry as it is written: whole lines, the first of them its header, and a clean scanner after them. */
  predicate EntryBlock(scan: LineScanner, block: string) {
    && Complete(block) && SplitLines(block) != []
    && block != "" && block[0] != '\n' && block[|block| - 1] != '\r'
    && IsHeader(scan(SplitLines(block)[0], CLEAN)) && EndState(scan, block) == CLEAN
  }

  /** The block's first line reads as a header where the span began, and the line after the span reads as before. */
  predicate SameReadings(scan: LineScanner, text: string, span: Span, block: string)
    requires span.first < |Headers(scan, text)| && SplitLines(block) != []
  {
    && scan(SplitLines(block)[0], StateAt(scan, text, SpanStart(scan, text, span))) == scan(SplitLines(block)[0], CLEAN)
    && (|| span.after == |Headers(scan, text)|
        || scan(Follower(scan, text, span), CLEAN)
             == scan(Follower(scan, text, span), StateAt(scan, text, SpanEnd(scan, text, span))))
  }

  /** A block read in another state than a clean one: the same throughout, or its first header is not there. */
  lemma BlockReads(scan: LineScanner, block: string, s: State, at: nat)
    requires EntryBlock(scan, block)
    ensures var x := ScanLines(scan, SplitLines(block), s, at);
      var first := SplitLines(block)[0];
      && Headers(scan, block) != [] && Headers(scan, block)[0].start == 0
      && (scan(first, s) == scan(first, CLEAN) ==> x == Scanned(Shifted(Headers(scan, block), at), CLEAN))
      && (scan(first, s) != scan(first, CLEAN) ==>
            x.headers == [] || x.headers[0].start > at || x.headers[0].path != Headers(scan, block)[0].path)
  {
    var lines := SplitLines(block);
    SplitsAreLines(block, 0);
    ScanIsShifted(scan, lines, CLEAN, 0, at);
    assert lines[0] in lines && forall line <- lines[1..] :: line in lines;
    var r := scan(lines[0], s);
    if !IsHeader(r) {
      HeadersAscend(scan, lines[1..], r.state, at + |lines[0]|);
    }
  }

  /** The headers of a text: those before `at`, those of the block that stands there, and those of the rest. */
  predicate ReadsInParts(
      scan: LineScanner, text: string, before: seq<Header>, block: string, rest: string, s: State, at: nat)
  {
    var x := ScanLines(scan, SplitLines(block), s, at);
    Headers(scan, text) == before + x.headers + ScanLines(scan, SplitLines(rest), x.state, at + |block|).headers
  }

  lemma HeadersOfParts(scan: LineScanner, a: string, block: string, c: string, s: State, before: seq<Header>)
    requires s == EndState(scan, a) && before == Headers(scan, a)
    requires Complete(a) && Complete(block) && block != "" && block[0] != '\n' && block[|block| - 1] != '\r'
    ensures ReadsInParts(scan, a + block + c, before, block, c, s, |a|)
  {
    var ab := a + block;
    assert ab[|ab| - 1] == block[|block| - 1];
    JoinedHeaders(scan, a, block);
    JoinedHeaders(scan, ab, c);
  }

  lemma LaterHeaders(scan: LineScanner, text: string, s: State, offset: nat)
    ensures Placed(ScanLines(scan, SplitLines(text), s, offset).headers, offset, offset + |text|)
  {
    SplitsAreLines(text, 0);
    LinesMakeText(text);
    HeadersAscend(scan, SplitLines(text), s, offset);
  }

  /** Headers that differ from the block's in their first one cannot make up the block's and what follows. */
  lemma OtherFirst(x: seq<Header>, y: seq<Header>, block: seq<Header>, after: seq<Header>, at: int)
    requires block != [] && block[0].start == 0
    requires x == [] || x[0].start > at || x[0].path != block[0].path
    requires y == [] || y[0].start > at
    ensures x + y != Shifted(block, at) + after
  {
    assert (Shifted(block, at) + after)[0] == Shifted(block, at)[0] && Shifted(block, at)[0].start == at;
    if x != [] {
      assert (x + y)[0] == x[0];
    } else if y != [] {
      assert (x + y)[0] == y[0];
    }
  }

  /**
   Replacing a span by an entry keeps all other headers, in order and moved by the difference in length,
   with the entry's own between them, exactly when its first line reads as a header where the span began
   and nothing follows the span or the line that follows reads as before.
   */
  lemma ReplacementKeepsIff(scan: LineScanner, text: string, span: Span, block: string)
    requires Sound(scan) && span.first < span.after <= |Headers(scan, text)| && EntryBlock(scan, block)
    ensures KeepsHeaders(scan, text, span, block) <==> SameReadings(scan, text, span, block)
  {
    var at: int, end: int := SpanStart(scan, text, span), SpanEnd(scan, text, span);
    var x := ScanLines(scan, SplitLines(block), StateAt(scan, text, at), at);
    var y := ScanLines(scan, SplitLines(text[end..]), x.state, at + |block|).headers;
    ReplacedHeaders(scan, text, span, block);
    ReplacementReads(scan, text, span, block);
    Associated(
      Headers(scan, text)[..span.first], x.headers, y, Shifted(Headers(scan, block), at),
      Shifted(Headers(scan, text)[span.after..], at + |block| - end));
  }

  /** The headers read from the block on. */
  function ReadFromBlock(scan: LineScanner, text: string, span: Span, block: string): seq<Header>
    requires span.first < |Headers(scan, text)|
  {
    var at := SpanStart(scan, text, span);
    var x := ScanLines(scan, SplitLines(block), StateAt(scan, text, at), at);
    x.headers + ScanLines(scan, SplitLines(text[SpanEnd(scan, text, span)..]), x.state, at + |block|).headers
  }

  /** The entry's headers, and those after the span. */
  function WantedFromBlock(scan: LineScanner, text: string, span: Span, block: string): seq<Header>
    requires span.first < span.after <= |Headers(scan, text)|
  {
    var at: int, end: int := SpanStart(scan, text, span), SpanEnd(scan, text, span);
    Shifted(Headers(scan, block), at) + Shifted(Headers(scan, text)[span.after..], at + |block| - end)
  }

  lemma ReplacementReads(scan: LineScanner, text: string, span: Span, block: string)
    requires Sound(scan) && span.first < span.after <= |Headers(scan, text)| && EntryBlock(scan, block)
    ensures ReadFromBlock(scan, text, span, block) == WantedFromBlock(scan, text, span, block) <==>
      SameReadings(scan, text, span, block)
  {
    var first := SplitLines(block)[0];
    if scan(first, StateAt(scan, text, SpanStart(scan, text, span))) == scan(first, CLEAN) {
      SameBlock(scan, text, span, block);
    } else {
      OtherBlock(scan, text, span, block);
    }
  }

  lemma SameBlock(scan: LineScanner, text: string, span: Span, block: string)
    requires Sound(scan) && span.first < span.after <= |Headers(scan, text)| && EntryBlock(scan, block)
    requires var first := SplitLines(block)[0];
      scan(first, StateAt(scan, text, SpanStart(scan, text, span))) == scan(first, CLEAN)
    ensures ReadFromBlock(scan, text, span, block) == WantedFromBlock(scan, text, span, block) <==>
      || span.after == |Headers(scan, text)|
      || scan(Follower(scan, text, span), CLEAN)
           == scan(Follower(scan, text, span), StateAt(scan, text, SpanEnd(scan, text, span)))
  {
    var at: int, end: int := SpanStart(scan, text, span), SpanEnd(scan, text, span);
    BlockReads(scan, block, StateAt(scan, text, at), at);
    AfterSpan(scan, text, span, CLEAN, at + |block|);
    SamePrefix(
      Shifted(Headers(scan, block), at), ScanLines(scan, SplitLines(text[end..]), CLEAN, at + |block|).headers,
      Shifted(Headers(scan, text)[span.after..], at + |block| - end));
  }

  lemma OtherBlock(scan: LineScanner, text: string, span: Span, block: string)
    requires Sound(scan) && span.first < span.after <= |Headers(scan, text)| && EntryBlock(scan, block)
    requires var first := SplitLines(block)[0];
      scan(first, StateAt(scan, text, SpanStart(scan, text, span))) != scan(first, CLEAN)
    ensures ReadFromBlock(scan, text, span, block) != WantedFromBlock(scan, text, span, block)
  {
    var at: int, end: int := SpanStart(scan, text, span), SpanEnd(scan, text, span);
    var x := ScanLines(scan, SplitLines(block), StateAt(scan, text, at), at);
    BlockReads(scan, block, StateAt(scan, text, at), at);
    LaterHeaders(scan, text[end..], x.state, at + |block|);
    OtherFirst(
      x.headers, ScanLines(scan, SplitLines(text[end..]), x.state, at + |block|).headers, Headers(scan, block),
      Shifted(Headers(scan, text)[span.after..], at + |block| - end), at);
  }

  lemma ReplacedHeaders(scan: LineScanner, text: string, span: Span, block: string)
    requires Sound(scan) && span.first < |Headers(scan, text)|
    requires Complete(block) && block != "" && block[0] != '\n' && block[|block| - 1] != '\r'
    ensures ReadsInParts(
      scan, Spliced(scan, text, span, block), Headers(scan, text)[..span.first], block,
        text[SpanEnd(scan, text, span)..],
      StateAt(scan, text, SpanStart(scan, text, span)), SpanStart(scan, text, span))
  {
    BeforeSpan(scan, text, span);
    HeadersOfParts(
      scan, text[..SpanStart(scan, text, span)], block, text[SpanEnd(scan, text, span)..],
      StateAt(scan, text, SpanStart(scan, text, span)), Headers(scan, text)[..span.first]);
  }

  lemma Associated<T>(before: seq<T>, x: seq<T>, y: seq<T>, own: seq<T>, after: seq<T>)
    ensures before + x + y == before + own + after <==> x + y == own + after
  {
    assert before + x + y == before + (x + y) && before + own + after == before + (own + after);
    SamePrefix(before, x + y, own + after);
  }
}
