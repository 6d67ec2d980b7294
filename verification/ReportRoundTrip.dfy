/** Printing a report and reading it back. */
module ReportRoundTrip {
  import opened Wrappers
  import opened Text
  import opened ReportFormat
  import Json

  // ----- frontmatter lines

  predicate CleanKey(name: string) {
    && name != "" && 'a' <= name[0] <= 'z' && 'a' <= name[|name| - 1] <= 'z'
    && ':' !in name && SingleLine(name)
  }

  lemma NamesAreClean(key: Key)
    ensures CleanKey(Name(key))
  {
  }

  lemma NamesDiffer(a: Key, b: Key)
    requires a != b
    ensures Name(a) != Name(b)
  {
    match a {
      case PublishedAt => assert b == SummaryMode ==> Name(b)[0] != Name(a)[0];
      case _ =>
    }
  }

  lemma {:induction false} TrimRightKeeps(s: string)
    requires s != "" && !IsSpace(s[0])
    ensures TrimRight(s) != ""
  {
    if IsSpace(s[|s| - 1]) {
      TrimRightKeeps(s[..|s| - 1]);
    }
  }

  lemma SeparatorAt(name: string, raw: string)
    requires CleanKey(name)
    ensures FindFrom(name + ": " + raw, ": ", 0) == |name|
  {
    var line := name + ": " + raw;
    assert line[|name|..|name| + 2] == ": ";
    assert OccursAt(line, ": ", |name|);
    forall j | 0 <= j < |name| ensures !OccursAt(line, ": ", j) {
      assert line[j] == name[j] && line[j..j + 2][0] == line[j];
    }
  }

  lemma ReadPrinted(name: string, raw: string)
    requires CleanKey(name)
    ensures ReadField(name + ": " + raw) == Field(name, raw)
  {
    var line := name + ": " + raw;
    assert line[0] == name[0];
    TrimRightKeeps(line);
    SeparatorAt(name, raw);
    assert line[..|name|] == name && line[|name| + 2..] == raw;
  }

  predicate Maps(fields: Option<map<string, string>>, name: string, raw: string) {
    fields.Some? && name in fields.value && fields.value[name] == raw
  }

  lemma FieldsExtend(lines: seq<string>, name: string, raw: string)
    requires lines != [] && lines[|lines| - 1] == name + ": " + raw && CleanKey(name)
    requires Fields(lines[..|lines| - 1]).Some?
    ensures Fields(lines) == Some(Fields(lines[..|lines| - 1]).value[name := raw])
  {
    ReadPrinted(name, raw);
  }

  predicate FieldOf(line: string, name: string, raw: string) { CleanKey(name) && line == name + ": " + raw }

  /** Lines `name: raw` with distinct names read back as exactly those bindings. */
  lemma {:induction false} FieldsOfPairs(names: seq<string>, raws: seq<string>, lines: seq<string>, k: nat)
    requires k <= |names| == |raws| == |lines|
    requires forall i | 0 <= i < |names| :: FieldOf(lines[i], names[i], raws[i])
    requires forall i, j | 0 <= i < j < |names| :: names[i] != names[j]
    ensures Fields(lines[..k]).Some?
    ensures forall i | 0 <= i < k :: Maps(Fields(lines[..k]), names[i], raws[i])
  {
    if k > 0 {
      var n := k - 1;
      FieldsOfPairs(names, raws, lines, n);
      assert FieldOf(lines[n], names[n], raws[n]);
      assert lines[..k][..n] == lines[..n];
      FieldsExtend(lines[..k], names[n], raws[n]);
      forall i | 0 <= i < n ensures Maps(Fields(lines[..k]), names[i], raws[i]) {
        assert Maps(Fields(lines[..n]), names[i], raws[i]);
      }
    }
  }

  function Index(key: Key): (i: nat)
    ensures i < |KEYS| && KEYS[i] == key
  {
    match key
    case SchemaVersion => 0
    case AnalysisId => 1
    case SourceUrl => 2
    case Platform => 3
    case VideoId => 4
    case Title => 5
    case Author => 6
    case PublishedAt => 7
    case AnalyzedAt => 8
    case SummaryMode => 9
    case Language => 10
    case AsrProvider => 11
    case AsrModel => 12
    case AsrModelVersion => 13
    case Tags => 14
  }

  predicate Prints<D>(fields: map<string, string>, doc: Document<D>, lib: Library<D>, key: Key) {
    Name(key) in fields && fields[Name(key)] == Raw(doc, lib, key)
  }

  lemma FrontmatterReads<D>(doc: Document<D>, lib: Library<D>)
    ensures Fields(FieldLines(doc, lib)).Some?
    ensures forall key :: Prints(Fields(FieldLines(doc, lib)).value, doc, lib, key)
  {
    var lines := FieldLines(doc, lib);
    var names := seq(|KEYS|, i requires 0 <= i < |KEYS| => Name(KEYS[i]));
    var raws := seq(|KEYS|, i requires 0 <= i < |KEYS| => Raw(doc, lib, KEYS[i]));
    forall i | 0 <= i < |KEYS| ensures FieldOf(lines[i], names[i], raws[i]) {
      NamesAreClean(KEYS[i]);
    }
    forall i, j | 0 <= i < j < |KEYS| ensures names[i] != names[j] {
      KeysDiffer(i, j);
      NamesDiffer(KEYS[i], KEYS[j]);
    }
    FieldsOfPairs(names, raws, lines, |KEYS|);
    assert lines[..|KEYS|] == lines;
    forall key ensures Prints(Fields(lines).value, doc, lib, key) {
      var i := Index(key);
      assert Maps(Fields(lines), names[i], raws[i]);
    }
  }

  lemma KeysDiffer(i: nat, j: nat)
    requires i < j < |KEYS|
    ensures KEYS[i] != KEYS[j]
  {
  }

  // ----- finding the closing fence

  predicate Fieldlike(line: string) { line != "" && line[0] != '-' && SingleLine(line) }

  lemma DumpedIsSingleLine(s: string)
    ensures SingleLine(Json.DumpString(s))
  {
    Json.EscapedIsSingleLine(s);
  }

  lemma RawIsSingleLine<D(!new)>(doc: Document<D>, lib: Library<D>, key: Key)
    requires Lawful(lib)
    ensures SingleLine(Raw(doc, lib, key))
  {
    match key {
      case SchemaVersion =>
      case PublishedAt =>
        if doc.publishedAt.Some? {
          assert ShowsFaithfully(lib, doc.publishedAt.value);
        }
      case AnalysisId => DumpedIsSingleLine(doc.analysisId);
      case SourceUrl => DumpedIsSingleLine(doc.sourceUrl);
      case Platform => DumpedIsSingleLine(doc.platform);
      case VideoId => DumpedIsSingleLine(doc.videoId);
      case Title => DumpedIsSingleLine(doc.title);
      case Author => DumpedIsSingleLine(doc.author);
      case AnalyzedAt => DumpedIsSingleLine(lib.show(doc.analyzedAt));
      case SummaryMode => DumpedIsSingleLine(doc.summaryMode);
      case Language => DumpedIsSingleLine(doc.language);
      case AsrProvider => DumpedIsSingleLine(doc.asrProvider);
      case AsrModel => DumpedIsSingleLine(doc.asrModel);
      case AsrModelVersion => DumpedIsSingleLine(doc.asrModelVersion);
      case Tags => Json.DumpedItemsAreSingleLine(doc.tags);
    }
  }

  lemma FieldLinesAreFieldlike<D(!new)>(doc: Document<D>, lib: Library<D>)
    requires Lawful(lib)
    ensures forall line <- FieldLines(doc, lib) :: Fieldlike(line)
  {
    forall i | 0 <= i < |KEYS| ensures Fieldlike(FieldLines(doc, lib)[i]) {
      NamesAreClean(KEYS[i]);
      RawIsSingleLine(doc, lib, KEYS[i]);
    }
  }

  lemma {:induction false} NoFenceInside(lines: seq<string>, i: nat)
    requires lines != [] && forall line <- lines :: Fieldlike(line)
    requires i < |Unlines(lines)| && Unlines(lines)[i] == NL
    ensures i + 1 < |Unlines(lines)| && Unlines(lines)[i + 1] != '-'
  {
    var n := |lines[0]|;
    assert Fieldlike(lines[0]);
    assert forall j :: 0 <= j < n ==> Unlines(lines)[j] == lines[0][j];
    assert i >= n && |lines| > 1;
    assert Fieldlike(lines[1]);
    assert lines[1] in lines[1..] && forall line <- lines[1..] :: line in lines;
    var rest := Unlines(lines[1..]);
    assert Unlines(lines) == (lines[0] + "\n") + rest;
    if i > n {
      NoFenceInside(lines[1..], i - n - 1);
    } else {
      assert rest[0] == lines[1][0];
    }
  }

  lemma FenceAt(lines: seq<string>, after: string, text: string)
    requires lines != [] && forall line <- lines :: Fieldlike(line)
    requires text == "---\n" + Unlines(lines) + "\n---\n" + after
    ensures FindFrom(text, "\n---\n", 4) == 4 + |Unlines(lines)|
  {
    var block, fence := Unlines(lines), "\n---\n";
    var at := 4 + |block|;
    assert text[at..at + 5] == fence;
    assert OccursAt(text, fence, at);
    forall j | 4 <= j < at ensures !OccursAt(text, fence, j) {
      assert text[j..j + 5][0] == text[j] == block[j - 4];
      assert text[j..j + 5][1] == text[j + 1];
      if text[j] == NL {
        NoFenceInside(lines, j - 4);
        assert text[j + 1] == block[j - 4 + 1];
      }
    }
  }

  // ----- the lines of the printed body

  function FrameOf<D>(doc: Document<D>, s: Section): seq<string> {
    [""] + Lines(Content(doc, s)) + [""]
  }

  /** The printed sections as lines: each heading, then its content framed by blank lines. */
  function BodyLinesUpTo<D>(doc: Document<D>, k: nat): seq<string>
    requires k <= |SECTIONS|
  {
    if k == 0 then []
    else if Printed(doc, SECTIONS[k - 1]) then
      BodyLinesUpTo(doc, k - 1) + [Heading(SECTIONS[k - 1])] + FrameOf(doc, SECTIONS[k - 1])
    else BodyLinesUpTo(doc, k - 1)
  }

  lemma LinesOfParagraphs(a: string, b: string)
    ensures Lines(a + "\n\n" + b) == Lines(a) + [""] + Lines(b)
  {
    LinesOfJoined(a, "\n" + b);
    assert a + "\n" + ("\n" + b) == a + "\n\n" + b;
    LinesOfJoined("", b);
    assert "" + "\n" + b == "\n" + b;
  }

  lemma LinesOfSection<D>(doc: Document<D>, s: Section)
    ensures Lines(SectionText(doc, s)) + [""] == [Heading(s)] + FrameOf(doc, s)
  {
    LinesOfParagraphs(Heading(s), Content(doc, s));
    HeadingIsSingleLine(s);
    LinesOfSingle(Heading(s));
  }

  lemma HeadingIsSingleLine(s: Section)
    ensures SingleLine(Heading(s))
  {
  }

  lemma {:induction false} LinesOfSections<D>(doc: Document<D>, k: nat)
    requires k <= |SECTIONS|
    ensures Lines(SectionsUpTo(doc, k)) + [""] == Lines("# " + doc.title) + [""] + BodyLinesUpTo(doc, k)
  {
    if k > 0 {
      LinesOfSections(doc, k - 1);
      var s := SECTIONS[k - 1];
      if Printed(doc, s) {
        LinesOfParagraphs(SectionsUpTo(doc, k - 1), SectionText(doc, s));
        LinesOfSection(doc, s);
        var before := Lines(SectionsUpTo(doc, k - 1));
        assert Lines(SectionsUpTo(doc, k)) + [""] == (before + [""]) + (Lines(SectionText(doc, s)) + [""]);
      }
    }
  }

  function BodyLines<D>(doc: Document<D>): seq<string> {
    [""] + Lines("# " + doc.title) + [""] + BodyLinesUpTo(doc, |SECTIONS|)
  }

  lemma LinesOfBody<D>(doc: Document<D>)
    ensures Lines("\n" + SectionsUpTo(doc, |SECTIONS|) + "\n") == BodyLines(doc)
  {
    var text := SectionsUpTo(doc, |SECTIONS|);
    LinesOfJoined("", text + "\n");
    LinesOfJoined(text, "");
    assert "" + "\n" + (text + "\n") == "\n" + text + "\n";
    assert text + "\n" + "" == text + "\n";
    LinesOfSections(doc, |SECTIONS|);
    assert Lines("\n" + text + "\n") == [""] + (Lines(text) + [""]);
  }

  // ----- reading the printed body

  predicate Plain(lines: seq<string>) { forall line <- lines :: Matched(line).None? }

  lemma {:induction false} ReadLinesAppends(scan: Scan, a: seq<string>, b: seq<string>)
    ensures ReadLines(scan, a + b) == ReadLines(ReadLines(scan, a), b)
  {
    if b == [] {
      assert a + b == a;
    } else {
      var n := |b| - 1;
      assert (a + b)[..|a + b| - 1] == a + b[..n];
      ReadLinesAppends(scan, a, b[..n]);
    }
  }

  lemma {:induction false} PlainLinesBeforeAnyHeading(lines: seq<string>)
    requires Plain(lines)
    ensures ReadLines(UNREAD, lines) == UNREAD
  {
    if lines != [] {
      PlainLinesBeforeAnyHeading(lines[..|lines| - 1]);
    }
  }

  lemma LineIsGathered(chunks: map<Section, seq<string>>, s: Section, lines: seq<string>, line: string)
    requires Matched(line).None?
    ensures ReadLine(Scan(Some(s), chunks[s := lines]), line) == Scan(Some(s), chunks[s := lines + [line]])
  {
    assert chunks[s := lines][s := lines + [line]] == chunks[s := lines + [line]];
  }

  lemma {:induction false} FrameIsGathered(chunks: map<Section, seq<string>>, s: Section, lines: seq<string>)
    requires Plain(lines)
    ensures ReadLines(Scan(Some(s), chunks[s := []]), lines) == Scan(Some(s), chunks[s := lines])
  {
    if lines != [] {
      var front, last := lines[..|lines| - 1], lines[|lines| - 1];
      FrameIsGathered(chunks, s, front);
      LineIsGathered(chunks, s, front, last);
      assert front + [last] == lines;
    }
  }

  lemma HeadingsDiffer(a: Section, b: Section)
    requires a != b
    ensures Heading(a) != Heading(b)
  {
    if |Heading(a)| == |Heading(b)| {
      assert Heading(a)[3] != Heading(b)[3] || Heading(a)[5] != Heading(b)[5];
    }
  }

  function Position(s: Section): (i: nat)
    ensures i < |SECTIONS| && SECTIONS[i] == s
  {
    match s
    case CoreSummary => 0
    case KeyTakeaways => 1
    case TimelineOutline => 2
    case ContentAnalysis => 3
    case CommentSentiment => 4
    case VideoInformation => 5
    case OriginalLink => 6
    case Transcript => 7
  }

  lemma {:induction false} HeadingMatchesFrom(s: Section, k: nat)
    requires k <= Position(s)
    ensures MatchedFrom(Heading(s), k) == Some(s)
    decreases |SECTIONS| - k
  {
    if k < Position(s) {
      SectionsDiffer(k, Position(s));
      HeadingsDiffer(s, SECTIONS[k]);
      HeadingMatchesFrom(s, k + 1);
    }
  }

  lemma {:induction false} UnmatchedFrom(line: string, k: nat)
    requires k <= |SECTIONS| && forall s: Section :: line != Heading(s)
    ensures MatchedFrom(line, k) == None
    decreases |SECTIONS| - k
  {
    if k < |SECTIONS| {
      UnmatchedFrom(line, k + 1);
    }
  }

  lemma HeadingIsEntered(scan: Scan, s: Section)
    ensures ReadLines(scan, [Heading(s)]) == Scan(Some(s), scan.chunks[s := []])
  {
    HeadingMatchesFrom(s, 0);
    var line := Heading(s);
    assert [line][..0] == [];
    assert ReadLines(scan, [line]) == ReadLine(scan, line);
  }

  lemma SectionIsGathered(before: seq<string>, s: Section, frame: seq<string>)
    requires Plain(frame)
    ensures ReadLines(UNREAD, before + [Heading(s)] + frame).chunks == ReadLines(UNREAD, before).chunks[s := frame]
  {
    ReadLinesAppends(UNREAD, before, [Heading(s)]);
    ReadLinesAppends(UNREAD, before + [Heading(s)], frame);
    HeadingIsEntered(ReadLines(UNREAD, before), s);
    FrameIsGathered(ReadLines(UNREAD, before).chunks, s, frame);
  }

  /** No line inside a printed section equals one of the frozen headings. */
  ghost predicate HeadingFree<D>(doc: Document<D>) {
    forall s: Section :: Plain(Lines(Content(doc, s)))
  }

  function ChunksUpTo<D>(doc: Document<D>, k: nat): map<Section, seq<string>>
    requires k <= |SECTIONS|
  {
    map i | 0 <= i < k && Printed(doc, SECTIONS[i]) :: SECTIONS[i] := FrameOf(doc, SECTIONS[i])
  }

  lemma SectionsDiffer(i: nat, j: nat)
    requires i < j < |SECTIONS|
    ensures SECTIONS[i] != SECTIONS[j]
  {
  }

  lemma ChunksGrow<D>(doc: Document<D>, k: nat)
    requires 0 < k <= |SECTIONS|
    ensures ChunksUpTo(doc, k) ==
      if Printed(doc, SECTIONS[k - 1]) then ChunksUpTo(doc, k - 1)[SECTIONS[k - 1] := FrameOf(doc, SECTIONS[k - 1])]
      else ChunksUpTo(doc, k - 1)
  {
  }

  lemma FrameIsPlain<D>(doc: Document<D>, s: Section)
    requires HeadingFree(doc)
    ensures Plain(FrameOf(doc, s))
  {
    forall t: Section ensures "" != Heading(t) {
      assert Heading(t) != "";
    }
    UnmatchedFrom("", 0);
  }

  lemma {:induction false} SectionsAreGathered<D>(doc: Document<D>, k: nat)
    requires k <= |SECTIONS| && HeadingFree(doc)
    ensures ReadLines(UNREAD, BodyLinesUpTo(doc, k)).chunks == ChunksUpTo(doc, k)
  {
    if k > 0 {
      SectionsAreGathered(doc, k - 1);
      ChunksGrow(doc, k);
      var s := SECTIONS[k - 1];
      if Printed(doc, s) {
        FrameIsPlain(doc, s);
        SectionIsGathered(BodyLinesUpTo(doc, k - 1), s, FrameOf(doc, s));
      }
    }
  }

  lemma TitleIsPlain(title: string)
    requires SingleLine(title)
    ensures Lines("# " + title) == ["# " + title] && Matched("# " + title).None?
  {
    LinesOfSingle("# " + title);
    forall s: Section ensures Heading(s) != "# " + title {
      assert Heading(s)[1] == '#';
    }
    UnmatchedFrom("# " + title, 0);
  }

  lemma BodyIsGathered<D>(doc: Document<D>)
    requires HeadingFree(doc) && SingleLine(doc.title)
    ensures ReadLines(UNREAD, BodyLines(doc)).chunks == ChunksUpTo(doc, |SECTIONS|)
  {
    TitleIsPlain(doc.title);
    var top := [""] + Lines("# " + doc.title) + [""];
    PlainLinesBeforeAnyHeading(top);
    ReadLinesAppends(UNREAD, top, BodyLinesUpTo(doc, |SECTIONS|));
    SectionsAreGathered(doc, |SECTIONS|);
  }

  lemma GatheredIsContent<D>(doc: Document<D>, scan: Scan, s: Section)
    requires scan.chunks == ChunksUpTo(doc, |SECTIONS|)
    ensures (s in scan.chunks) == Printed(doc, s)
    ensures Stripped(Content(doc, s)) ==> Gathered(scan, s) == Content(doc, s)
  {
    assert SECTIONS[Position(s)] == s;
    if Stripped(Content(doc, s)) {
      StripFramed(Content(doc, s));
    }
  }
}
