/**
 The header scanner of the TOML merge (application/client_config/merge_toml.py): it reads a document line
 by line, follows strings, comments and brackets, and reports the table headers with their offsets.
 */
module TomlScan {
  import opened Wrappers
  import opened Text

  // ----- lines

  /** The characters at which `str.splitlines` ends a line. */
  predicate IsBreak(c: char) {
    || '\U{000A}' <= c <= '\U{000D}'
    || '\U{001C}' <= c <= '\U{001E}'
    || c == '\U{0085}' || c == '\U{2028}' || c == '\U{2029}'
  }

  /** Where the line on which `i` stands ends, past its line end; CR LF is one line end. */
  function LineEndFrom(text: string, i: nat): (n: nat)
    requires i <= |text|
    ensures i <= n <= |text| && (i < |text| ==> i < n)
    decreases |text| - i
  {
    if i == |text| then i
    else if text[i] == '\r' && i + 1 < |text| && text[i + 1] == '\n' then i + 2
    else if IsBreak(text[i]) then i + 1
    else LineEndFrom(text, i + 1)
  }

  /** The lines from `i` on. */
  function SplitFrom(text: string, i: nat): seq<string>
    requires i <= |text|
    decreases |text| - i
  {
    if i == |text| then [] else [text[i..LineEndFrom(text, i)]] + SplitFrom(text, LineEndFrom(text, i))
  }

  /** `text.splitlines(keepends=True)`. */
  function SplitLines(text: string): seq<string> { SplitFrom(text, 0) }

  function Concat(lines: seq<string>): string {
    if lines == [] then "" else lines[0] + Concat(lines[1..])
  }

  /** `line.rstrip("\r\n")`. */
  function WithoutEnd(line: string): (r: string)
    ensures |r| <= |line| && r == line[..|r|]
  {
    if line != "" && line[|line| - 1] in {'\r', '\n'} then WithoutEnd(line[..|line| - 1]) else line
  }

  // ----- key paths

  type KeyPath = seq<string>

  /** A character of a bare key, over ASCII. */
  predicate IsBare(c: char) { 'a' <= c <= 'z' || 'A' <= c <= 'Z' || '0' <= c <= '9' || c == '_' || c == '-' }

  function SkipDots(text: string, i: nat): (j: nat)
    requires i <= |text|
    ensures i <= j <= |text| && (j < |text| ==> text[j] != '.' && !IsSpace(text[j]))
    decreases |text| - i
  {
    if i < |text| && (text[i] == '.' || IsSpace(text[i])) then SkipDots(text, i + 1) else i
  }

  function BareEnd(text: string, i: nat): (j: nat)
    requires i <= |text|
    ensures i <= j <= |text|
    decreases |text| - i
  {
    if i < |text| && IsBare(text[i]) then BareEnd(text, i + 1) else i
  }

  function PathFrom(text: string, at: nat, segments: seq<string>): Option<KeyPath>
    requires at <= |text|
    decreases |text| - at
  {
    var i := SkipDots(text, at);
    if i == |text| then (if segments == [] then None else Some(segments))
    else if text[i] == '"' || text[i] == '\'' then
      var close := FindFrom(text, [text[i]], i + 1);
      if close < 0 then None
      else if close + 1 < |text| && text[close + 1] != '.' then None
      else PathFrom(text, close + 1, segments + [text[i + 1..close]])
    else
      var j := BareEnd(text, i);
      if j == i then None else PathFrom(text, j, segments + [text[i..j]])
  }

  /** The segments between the brackets of a header; the inner brackets of an array of tables are dropped. */
  function ParseKeyPath(raw: string): Option<KeyPath> {
    var text := Strip(raw);
    var inner := if |text| >= 2 && text[0] == '[' && text[|text| - 1] == ']' then Strip(text[1..|text| - 1]) else text;
    PathFrom(inner, 0, [])
  }

  // ----- one line

  /** Open brackets, and the delimiter of the multi-line string that is open. */
  datatype State = State(depth: nat, open: Option<string>)

  const CLEAN := State(0, None)

  const BASIC := "\"\"\""
  const LITERAL := "'''"

  /** Just past the single-line string that opens at `start`, or the end of an unterminated one. */
  function StringEndFrom(text: string, quote: char, i: nat): (end: nat)
    ensures end <= |text|
    ensures i <= |text| ==> i <= end
    decreases |text| - i
  {
    if i >= |text| then |text|
    else if quote == '"' && text[i] == '\\' then StringEndFrom(text, quote, i + 2)
    else if text[i] == quote then i + 1
    else StringEndFrom(text, quote, i + 1)
  }

  /** What the scanner remembers within a line. */
  datatype Walk = Walk(depth: nat, seen: bool, start: Option<nat>, path: Option<KeyPath>)

  datatype LineResult = LineResult(header: Option<KeyPath>, state: State)

  predicate DelimiterAt(line: string, i: nat) { OccursAt(line, BASIC, i) || OccursAt(line, LITERAL, i) }

  function Opened(w: Walk, i: nat): Walk {
    w.(depth := w.depth + 1, seen := true,
      start := if w.depth == 0 && !w.seen && w.start.None? then Some(i + 1) else w.start)
  }

  function Closed(line: string, w: Walk, i: nat): Walk
    requires i < |line|
  {
    var depth := if w.depth == 0 then 0 else w.depth - 1;
    if w.start.Some? && w.start.value <= i && depth == 0 && w.path.None? then
      var path := ParseKeyPath(line[w.start.value..i]);
      Walk(depth, true, if path.None? then None else w.start, path)
    else Walk(depth, true, w.start, w.path)
  }

  function Passed(w: Walk, c: char): Walk {
    if IsSpace(c) then w else if w.path.Some? then Walk(w.depth, true, None, None) else w.(seen := true)
  }

  function WalkFrom(line: string, i: nat, w: Walk): LineResult
    decreases |line| - i
  {
    if i >= |line| || line[i] == '#' then
      LineResult(if w.depth == 0 then w.path else None, State(w.depth, None))
    else if DelimiterAt(line, i) then
      var close := FindFrom(line, line[i..i + 3], i + 3);
      if close < 0 then LineResult(None, State(w.depth, Some(line[i..i + 3])))
      else WalkFrom(line, close + 3, w.(seen := true))
    else if line[i] == '"' || line[i] == '\'' then
      WalkFrom(line, StringEndFrom(line, line[i], i + 1), w.(seen := true))
    else if line[i] == '[' then WalkFrom(line, i + 1, Opened(w, i))
    else if line[i] == ']' then WalkFrom(line, i + 1, Closed(line, w, i))
    else WalkFrom(line, i + 1, Passed(w, line[i]))
  }

  /** One line: an open multi-line string is looked to its end first. */
  function ScanLine(line: string, s: State): LineResult {
    match s.open
    case None => WalkFrom(line, 0, Walk(s.depth, false, None, None))
    case Some(delimiter) =>
      var close := FindFrom(line, delimiter, 0);
      if close < 0 || close + 3 > |line| then LineResult(None, s)
      else WalkFrom(line[close + 3..], 0, Walk(s.depth, false, None, None))
  }

  /** The loop over the characters of a line. */
  method WalkLine(line: string, depth: nat) returns (r: LineResult)
    ensures r == WalkFrom(line, 0, Walk(depth, false, None, None))
  {
    var w := Walk(depth, false, None, None);
    var i := 0;
    while i < |line| && line[i] != '#'
      invariant WalkFrom(line, i, w) == WalkFrom(line, 0, Walk(depth, false, None, None))
      decreases |line| - i
    {
      if DelimiterAt(line, i) {
        var close := FindFrom(line, line[i..i + 3], i + 3);
        if close < 0 {
          return LineResult(None, State(w.depth, Some(line[i..i + 3])));
        }
        i, w := close + 3, w.(seen := true);
      } else if line[i] == '"' || line[i] == '\'' {
        i, w := StringEndFrom(line, line[i], i + 1), w.(seen := true);
      } else if line[i] == '[' {
        if w.depth == 0 && !w.seen && w.start.None? {
          w := w.(start := Some(i + 1));
        }
        w := w.(depth := w.depth + 1, seen := true);
        i := i + 1;
      } else if line[i] == ']' {
        w := Closed(line, w, i);
        i := i + 1;
      } else {
        if w.path.Some? && !IsSpace(line[i]) {
          w := w.(path := None, start := None);
        }
        if !IsSpace(line[i]) {
          w := w.(seen := true);
        }
        i := i + 1;
      }
    }
    return LineResult(if w.depth == 0 then w.path else None, State(w.depth, None));
  }

  // ----- the document

  datatype Header = Header(path: KeyPath, start: int, end: int)

  datatype Scanned = Scanned(headers: seq<Header>, state: State)

  type LineScanner = (string, State) -> LineResult

  /** The headers of consecutive lines, the first of which begins at `offset` in state `s`. */
  function ScanLines(scan: LineScanner, lines: seq<string>, s: State, offset: nat): Scanned {
    if lines == [] then Scanned([], s)
    else
      var r, next := scan(lines[0], s), offset + |lines[0]|;
      var rest := ScanLines(scan, lines[1..], r.state, next);
      if IsHeader(r) then rest.(headers := [Header(r.header.value, offset, next)] + rest.headers) else rest
  }

  predicate IsHeader(r: LineResult) { r.header.Some? && r.state == CLEAN }

  function ScanRawLine(line: string, s: State): LineResult { ScanLine(WithoutEnd(line), s) }

  predicate Placed(h: seq<Header>, lo: int, hi: int) {
    && (forall i :: 0 <= i < |h| ==> lo <= h[i].start < h[i].end <= hi)
    && (forall i, j :: 0 <= i < j < |h| ==> h[i].end <= h[j].start)
  }

  lemma PlacedFirst(first: Header, rest: seq<Header>, lo: int, mid: int, hi: int)
    requires lo <= first.start < first.end == mid <= hi && Placed(rest, mid, hi)
    ensures Placed([first] + rest, lo, hi)
  {
  }

  /** Headers come one after the other, within the lines scanned. */
  lemma {:induction false} HeadersAscend(scan: LineScanner, lines: seq<string>, s: State, offset: nat)
    requires forall line <- lines :: line != ""
    ensures Placed(ScanLines(scan, lines, s, offset).headers, offset, offset + |Concat(lines)|)
  {
    if lines != [] {
      assert lines[0] in lines && forall line <- lines[1..] :: line in lines;
      var r, next := scan(lines[0], s), offset + |lines[0]|;
      HeadersAscend(scan, lines[1..], r.state, next);
      if IsHeader(r) {
        PlacedFirst(Header(r.header.value, offset, next), ScanLines(scan, lines[1..], r.state, next).headers,
          offset, next, offset + |Concat(lines)|);
      }
    }
  }

  lemma {:induction false} SplitsAreLines(text: string, i: nat)
    requires i <= |text|
    ensures forall line <- SplitFrom(text, i) :: line != ""
    ensures Concat(SplitFrom(text, i)) == text[i..]
    decreases |text| - i
  {
    if i < |text| {
      var n := LineEndFrom(text, i);
      SplitsAreLines(text, n);
      assert text[i..n] + text[n..] == text[i..];
    }
  }

  /** All headers of a document, in order, as a line scanner finds them. */
  function Headers(scan: LineScanner, text: string): (h: seq<Header>)
    ensures Placed(h, 0, |text|)
  {
    SplitsAreLines(text, 0);
    assert text[0..] == text;
    HeadersAscend(scan, SplitLines(text), CLEAN, 0);
    ScanLines(scan, SplitLines(text), CLEAN, 0).headers
  }

  method ScanHeaders(text: string) returns (headers: seq<Header>)
    ensures headers == Headers(ScanRawLine, text)
  {
    var lines := SplitLines(text);
    var state: State, offset: nat := CLEAN, 0;
    headers := [];
    for k := 0 to |lines|
      invariant Headers(ScanRawLine, text) == headers + ScanLines(ScanRawLine, lines[k..], state, offset).headers
    {
      var start := offset;
      offset := offset + |lines[k]|;
      var r := ScanLine(WithoutEnd(lines[k]), state);
      assert lines[k..][0] == lines[k] && lines[k..][1..] == lines[k + 1..];
      state := r.state;
      if r.header.Some? && state.depth == 0 && state.open.None? {
        headers := headers + [Header(r.header.value, start, offset)];
      }
    }
  }

  // ----- the span of an entry

  const TABLE_ROOT := "mcp_servers"

  predicate Within(path: KeyPath, key: string) { |path| >= 2 && path[0] == TABLE_ROOT && path[1] == key }

  predicate IsEntry(path: KeyPath, key: string) { |path| == 2 && Within(path, key) }

  /** The entry's header is the `first`, and the headers up to `after` are its subtree. */
  datatype Span = Span(first: nat, after: nat)

  ghost predicate IsSpan(headers: seq<Header>, key: string, span: Span) {
    && span.first < span.after <= |headers|
    && IsEntry(headers[span.first].path, key)
    && (forall k :: 0 <= k < span.first ==> !IsEntry(headers[k].path, key))
    && (forall k :: span.first < k < span.after ==> Within(headers[k].path, key))
    && (span.after < |headers| ==> !Within(headers[span.after].path, key))
  }

  method FindSpan(headers: seq<Header>, key: string) returns (span: Option<Span>)
    ensures span.Some? ==> IsSpan(headers, key, span.value)
    ensures span.None? <==> forall k :: 0 <= k < |headers| ==> !IsEntry(headers[k].path, key)
  {
    for i := 0 to |headers|
      invariant forall k :: 0 <= k < i ==> !IsEntry(headers[k].path, key)
    {
      if IsEntry(headers[i].path, key) {
        var j := i + 1;
        while j < |headers| && Within(headers[j].path, key)
          invariant i < j <= |headers|
          invariant forall k :: i < k < j ==> Within(headers[k].path, key)
        {
          j := j + 1;
        }
        return Some(Span(i, j));
      }
    }
    return None;
  }

  /** Where the span begins, and where it ends: at the next foreign header, or with the text. */
  function SpanStart(scan: LineScanner, text: string, span: Span): (at: nat)
    requires span.first < |Headers(scan, text)|
    ensures at < |text|
  {
    Headers(scan, text)[span.first].start
  }

  function SpanEnd(scan: LineScanner, text: string, span: Span): (end: nat)
    ensures end <= |text|
  {
    if span.after < |Headers(scan, text)| then Headers(scan, text)[span.after].start else |text|
  }

  /** The text with the span replaced; removal replaces it with nothing. */
  function Spliced(scan: LineScanner, text: string, span: Span, block: string): string
    requires span.first < |Headers(scan, text)|
  {
    text[..SpanStart(scan, text, span)] + block + text[SpanEnd(scan, text, span)..]
  }
}
