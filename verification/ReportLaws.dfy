/** What reading back a printed report gives, and exactly when that is the report itself. */
module ReportLaws {
  import opened Wrappers
  import opened Text
  import opened ReportFormat
  import opened ReportRoundTrip
  import Json
  import Urls

  // ----- the takeaways

  predicate LineLike(items: seq<string>) { forall t <- items :: SingleLine(t) && Stripped(t) }

  lemma {:induction false} LinesOfBullets(items: seq<string>)
    requires items != [] && forall t <- items :: SingleLine(t)
    ensures Lines(Unlines(Bullets(items))) == Bullets(items)
  {
    forall i | 0 <= i < |items| ensures SingleLine(Bullets(items)[i]) {
      assert items[i] in items;
    }
    LinesOfUnlines(Bullets(items));
  }

  lemma {:induction false} ItemsOfBullets(items: seq<string>)
    requires LineLike(items)
    ensures Items(Bullets(items)) == items
  {
    if items != [] {
      var n := |items| - 1;
      assert items[n] in items;
      assert Bullets(items)[..n] == Bullets(items[..n]);
      ItemsOfBullets(items[..n]);
      assert ("- " + items[n])[..2] == "- " && ("- " + items[n])[2..] == items[n];
      StrippedStays(items[n]);
    }
  }

  lemma {:induction false} LastOfUnlines(lines: seq<string>)
    requires lines != [] && lines[|lines| - 1] != ""
    ensures Unlines(lines) != ""
    ensures Unlines(lines)[|Unlines(lines)| - 1] == lines[|lines| - 1][|lines[|lines| - 1]| - 1]
  {
    if |lines| > 1 {
      LastOfUnlines(lines[1..]);
    }
  }

  lemma FirstOfUnlines(lines: seq<string>)
    requires lines != [] && lines[0] != ""
    ensures Unlines(lines) != "" && Unlines(lines)[0] == lines[0][0]
  {
  }

  lemma BulletsAreStripped(items: seq<string>)
    requires LineLike(items) && (items != [] ==> items[|items| - 1] != "")
    ensures Stripped(Unlines(Bullets(items)))
  {
    if items != [] {
      assert items[|items| - 1] in items;
      FirstOfUnlines(Bullets(items));
      LastOfUnlines(Bullets(items));
    }
  }

  lemma {:induction false} UnlinesSnoc(lines: seq<string>, last: string)
    requires lines != []
    ensures Unlines(lines + [last]) == Unlines(lines) + "\n" + last
  {
    if |lines| > 1 {
      assert (lines + [last])[1..] == lines[1..] + [last];
      UnlinesSnoc(lines[1..], last);
    } else {
      assert (lines + [last])[1..] == [last];
    }
  }

  lemma BulletsWithEmptyLast(items: seq<string>)
    requires items != [] && items[|items| - 1] == ""
    ensures Unlines(Bullets(items)) == Unlines(Bullets(items[..|items| - 1]) + ["-"]) + " "
  {
    var front := Bullets(items[..|items| - 1]);
    assert "- " + items[|items| - 1] == "- ";
    assert Bullets(items) == front + ["- "];
    if front == [] {
      assert front + ["-"] == ["-"] && front + ["- "] == ["- "];
    } else {
      UnlinesSnoc(front, "- ");
      UnlinesSnoc(front, "-");
    }
  }

  /** An empty last bullet does not survive: stripping the section cuts it down to a bare dash. */
  lemma EmptyLastBullet(items: seq<string>)
    requires items != [] && items[|items| - 1] == ""
    ensures Strip(Unlines([""] + Lines(Unlines(Bullets(items))) + [""]))
      == Unlines(Bullets(items[..|items| - 1]) + ["-"])
  {
    var lines := Bullets(items[..|items| - 1]) + ["-"];
    var text, kept := Unlines(Bullets(items)), Unlines(lines);
    BulletsWithEmptyLast(items);
    FirstOfUnlines(lines);
    LastOfUnlines(lines);
    FramedText(text);
    StripPadding("\n", kept, " \n");
    assert "\n" + text + "\n" == "\n" + kept + " \n";
  }

  lemma FramedText(s: string)
    ensures Unlines([""] + Lines(s) + [""]) == "\n" + s + "\n"
  {
    LinesOfJoined("", s);
    LinesOfJoined("" + "\n" + s, "");
    var framed := "" + "\n" + s + "\n" + "";
    assert Lines(framed) == [""] + Lines(s) + [""];
    UnlinesOfLines(framed);
  }

  lemma EmptyLastBulletIsLost(items: seq<string>)
    requires LineLike(items) && items != [] && items[|items| - 1] == ""
    ensures Items(Lines(Unlines(Bullets(items[..|items| - 1]) + ["-"]))) == items[..|items| - 1]
  {
    var front := items[..|items| - 1];
    var lines := Bullets(front) + ["-"];
    forall i | 0 <= i < |lines| ensures SingleLine(lines[i]) {
      if i < |front| {
        assert front[i] in items;
      }
    }
    LinesOfUnlines(lines);
    assert lines[..|lines| - 1] == Bullets(front);
    ItemsOfBullets(front);
  }

  // ----- what the reader accepts

  /** Everything the reader promises of a report it accepts, whatever the text was. */
  predicate Recoverable<D>(doc: Document<D>) {
    && SingleLine(doc.title)
    && Stripped(doc.coreSummary) && Stripped(doc.timelineOutline) && Stripped(doc.contentAnalysis)
    && Stripped(doc.commentSentiment) && Stripped(doc.videoInformation)
    && (doc.transcript.Some? ==> doc.transcript.value != "" && Stripped(doc.transcript.value))
    && LineLike(doc.keyTakeaways)
  }

  lemma {:induction false} ItemsAreLineLike(lines: seq<string>)
    requires forall i | 0 <= i < |lines| :: SingleLine(lines[i])
    ensures LineLike(Items(lines))
  {
    if lines != [] {
      var line := lines[|lines| - 1];
      ItemsAreLineLike(lines[..|lines| - 1]);
      if StartsWith(line, "- ") {
        StripIsStripped(line[2..]);
        StripStaysSingle(line[2..]);
      }
    }
  }

  lemma {:induction false} TrimLeftPart(s: string)
    ensures |TrimLeft(s)| <= |s| && TrimLeft(s) == s[|s| - |TrimLeft(s)|..]
  {
    if s != "" && IsSpace(s[0]) {
      TrimLeftPart(s[1..]);
    }
  }

  lemma {:induction false} TrimRightPart(s: string)
    ensures |TrimRight(s)| <= |s| && TrimRight(s) == s[..|TrimRight(s)|]
  {
    if s != "" && IsSpace(s[|s| - 1]) {
      TrimRightPart(s[..|s| - 1]);
    }
  }

  lemma StripStaysSingle(s: string)
    requires SingleLine(s)
    ensures SingleLine(Strip(s))
  {
    TrimLeftPart(s);
    TrimRightPart(TrimLeft(s));
  }

  lemma {:induction false} FirstNonBlankIsSingle(lines: seq<string>)
    requires forall i | 0 <= i < |lines| :: SingleLine(lines[i])
    ensures SingleLine(FirstNonBlank(lines))
  {
    if lines != [] {
      FirstNonBlankIsSingle(lines[1..]);
    }
  }

  lemma GatheredIsStripped(scan: Scan, s: Section)
    ensures Stripped(Gathered(scan, s))
  {
    if s in scan.chunks {
      StripIsStripped(Unlines(scan.chunks[s]));
    }
  }

  lemma AcceptedTexts(version: string, texts: Texts, lower: string -> string)
    requires FieldFault(version, texts, lower).None?
    ensures Value(texts, AnalysisId) != "" && Value(texts, Platform) != ""
    ensures Value(texts, VideoId) != "" && Value(texts, Title) != ""
    ensures IsHttpUrl(Value(texts, SourceUrl)) && Value(texts, Platform) == lower(Value(texts, Platform))
  {
    assert forall key <- REQUIRED :: Value(texts, key) != "";
  }

  /** What an accepted body says of its document: the decoded texts and the gathered sections. */
  lemma AcceptedRest<D>(
      texts: Texts, tags: FieldRead<seq<string>>, published: FieldRead<Option<D>>, analyzed: FieldRead<Option<D>>,
      body: seq<string>, scan: Scan)
    requires ParseRest(texts, tags, published, analyzed, body, scan).Report? && Tags !in texts
    ensures var r := ParseRest(texts, tags, published, analyzed, body, scan).parsed;
      && TitleStands(texts, body)
      && r.doc.summaryMode == Value(texts, SummaryMode) && r.doc.summaryMode in SUMMARY_MODES
      && r == Assemble(texts, r.doc.tags, Tags !in r.lone, r.doc.publishedAt, r.doc.analyzedAt, scan)
  {
  }

  lemma AcceptedLone<D>(
      texts: Texts, tags: seq<string>, whole: bool, published: Option<D>, analyzed: D, scan: Scan)
    requires IsWhole(texts, Title)
    ensures Title !in Assemble(texts, tags, whole, published, analyzed, scan).lone
  {
  }

  /** What the document class demands of its fields. */
  predicate SchemaValid<D>(doc: Document<D>) {
    && doc.analysisId != "" && doc.platform != "" && doc.videoId != "" && doc.title != ""
    && IsHttpUrl(doc.sourceUrl)
    && doc.summaryMode in SUMMARY_MODES
  }

  /** An accepted report is in normal form, passes the document class's own checks, and has a whole title. */
  ghost predicate Sound<D>(r: Parsed<D>, lower: string -> string) {
    Recoverable(r.doc) && SchemaValid(r.doc) && r.doc.platform == lower(r.doc.platform) && Title !in r.lone
  }

  lemma AcceptedDecoded<D>(
      version: string, texts: Texts, tags: FieldRead<seq<string>>, published: FieldRead<Option<D>>,
      analyzed: FieldRead<Option<D>>, body: seq<string>, lower: string -> string)
    requires ParseDecoded(version, texts, tags, published, analyzed, body, lower).Report? && Tags !in texts
    requires forall i | 0 <= i < |body| :: SingleLine(body[i])
    ensures Sound(ParseDecoded(version, texts, tags, published, analyzed, body, lower).parsed, lower)
  {
    var scan := ReadLines(UNREAD, body);
    var r := ParseRest(texts, tags, published, analyzed, body, scan).parsed;
    AcceptedRest(texts, tags, published, analyzed, body, scan);
    AcceptedTexts(version, texts, lower);
    AcceptedLone(texts, r.doc.tags, Tags !in r.lone, r.doc.publishedAt, r.doc.analyzedAt, scan);
    AssembledIsNormal(texts, r.doc.tags, Tags !in r.lone, r.doc.publishedAt, r.doc.analyzedAt, body, scan);
  }

  lemma AssembledIsNormal<D>(
      texts: Texts, tags: seq<string>, whole: bool, published: Option<D>, analyzed: D, body: seq<string>, scan: Scan)
    requires TitleStands(texts, body) && forall i | 0 <= i < |body| :: SingleLine(body[i])
    ensures Recoverable(Assemble(texts, tags, whole, published, analyzed, scan).doc)
  {
    FirstNonBlankIsSingle(body);
    var line, title := FirstNonBlank(body), Value(texts, Title);
    assert line == "# " + title;
    assert forall i :: 0 <= i < |title| ==> title[i] == line[i + 2];
    forall s { GatheredIsStripped(scan, s); }
    LinesAreSingle(Gathered(scan, KeyTakeaways));
    ItemsAreLineLike(Lines(Gathered(scan, KeyTakeaways)));
  }

  lemma AcceptedBody<D>(fields: map<string, string>, body: seq<string>, lib: Library<D>)
    requires ParseBody(fields, body, lib).Report?
    requires forall i | 0 <= i < |body| :: SingleLine(body[i])
    ensures Sound(ParseBody(fields, body, lib).parsed, lib.lower)
  {
    AcceptedDecoded(
      Lookup(fields, SchemaVersion), DecodeTexts(fields, lib.nesting), ReadTags(fields, lib.nesting),
      ReadDate(fields, PublishedAt, lib), ReadDate(fields, AnalyzedAt, lib), body, lib.lower);
  }

  /** Whatever text is read, an accepted report is in the reader's normal form and a valid document. */
  lemma AcceptedReportsAreSound<D>(text: string, lib: Library<D>)
    requires Parse(text, lib).Report?
    ensures Sound(Parse(text, lib).parsed, lib.lower)
  {
    SplitBodyIsSingle(text);
    AcceptedBody(Split(text).value.0, Split(text).value.1, lib);
  }

  lemma SplitBodyIsSingle(text: string)
    requires Split(text).Some?
    ensures forall line <- Split(text).value.1 :: SingleLine(line)
  {
    LinesAreSingle(text[FindFrom(text, "\n---\n", 4) + 5..]);
  }

  // ----- reading a printed report

  lemma SplitPrinted<D(!new)>(doc: Document<D>, lib: Library<D>)
    requires Lawful(lib)
    ensures Fields(FieldLines(doc, lib)).Some?
    ensures Split(Render(doc, lib)) == Some((Fields(FieldLines(doc, lib)).value, BodyLines(doc)))
  {
    var lines := FieldLines(doc, lib);
    var block, rest := Unlines(lines), "\n" + SectionsUpTo(doc, |SECTIONS|) + "\n";
    var text := Render(doc, lib);
    RenderShape(doc, lib);
    FieldLinesAreFieldlike(doc, lib);
    FenceAt(lines, rest, text);
    FrontmatterReads(doc, lib);
    FieldLinesReadBack(doc, lib);
    LinesOfBody(doc);
    SplitOfText(lines, rest, text);
  }

  /** A frontmatter block between its fences, and the rest. */
  lemma SplitOfText(lines: seq<string>, rest: string, text: string)
    requires text == "---\n" + Unlines(lines) + "\n---\n" + rest
    requires FindFrom(text, "\n---\n", 4) == 4 + |Unlines(lines)|
    requires Lines(Unlines(lines)) == lines && Fields(lines).Some?
    ensures Split(text) == Some((Fields(lines).value, Lines(rest)))
  {
    SliceOfText(Unlines(lines), rest);
  }

  lemma RenderShape<D>(doc: Document<D>, lib: Library<D>)
    ensures Render(doc, lib) ==
      "---\n" + Unlines(FieldLines(doc, lib)) + "\n---\n" + ("\n" + SectionsUpTo(doc, |SECTIONS|) + "\n")
  {
  }

  lemma SliceOfText(block: string, rest: string)
    ensures var text := "---\n" + block + "\n---\n" + rest;
      && StartsWith(text, "---\n")
      && text[4..4 + |block|] == block && text[4 + |block| + 5..] == rest
  {
  }

  lemma FieldLinesReadBack<D(!new)>(doc: Document<D>, lib: Library<D>)
    requires Lawful(lib)
    ensures Lines(Unlines(FieldLines(doc, lib))) == FieldLines(doc, lib)
  {
    FieldLinesAreFieldlike(doc, lib);
    var lines := FieldLines(doc, lib);
    forall i | 0 <= i < |lines| ensures SingleLine(lines[i]) {
      assert Fieldlike(lines[i]);
    }
    LinesOfUnlines(lines);
  }

  function TextOf<D>(doc: Document<D>, key: Key): string
    requires key in TEXT_KEYS
  {
    match key
    case AnalysisId => doc.analysisId
    case SourceUrl => doc.sourceUrl
    case Platform => doc.platform
    case VideoId => doc.videoId
    case Title => doc.title
    case Author => doc.author
    case SummaryMode => doc.summaryMode
    case Language => doc.language
    case AsrProvider => doc.asrProvider
    case AsrModel => doc.asrModel
    case AsrModelVersion => doc.asrModelVersion
  }

  lemma TextReads<D>(fields: map<string, string>, doc: Document<D>, lib: Library<D>, key: Key)
    requires key in TEXT_KEYS && Prints(fields, doc, lib, key)
    ensures ReadText(fields, key, lib.nesting) == Good(TextOf(doc, key), true)
  {
    assert Raw(doc, lib, key) == Json.DumpString(TextOf(doc, key));
    Json.LoadsDumpedString(TextOf(doc, key), lib.nesting);
  }

  lemma BareDateReads<D>(fields: map<string, string>, key: Key, d: D, lib: Library<D>)
    requires ShowsFaithfully(lib, d) && Lookup(fields, key) == lib.show(d)
    ensures ReadDate(fields, key, lib) == Good(Some(d), true)
  {
    Json.ShortNumberReads(lib.show(d), lib.nesting);
  }

  lemma QuotedDateReads<D>(fields: map<string, string>, key: Key, d: D, lib: Library<D>)
    requires ShowsFaithfully(lib, d) && Lookup(fields, key) == Json.DumpString(lib.show(d))
    ensures ReadDate(fields, key, lib) == Good(Some(d), true)
  {
    Json.LoadsDumpedString(lib.show(d), lib.nesting);
    assert Json.DumpString(lib.show(d))[0] == '"';
  }

  lemma DatesRead<D(!new)>(fields: map<string, string>, doc: Document<D>, lib: Library<D>)
    requires Lawful(lib)
    requires Prints(fields, doc, lib, PublishedAt) && Prints(fields, doc, lib, AnalyzedAt)
    ensures ReadDate(fields, PublishedAt, lib) == Good(doc.publishedAt, true)
    ensures ReadDate(fields, AnalyzedAt, lib) == Good(Some(doc.analyzedAt), true)
  {
    if doc.publishedAt.Some? {
      assert ShowsFaithfully(lib, doc.publishedAt.value);
      BareDateReads(fields, PublishedAt, doc.publishedAt.value, lib);
    }
    assert ShowsFaithfully(lib, doc.analyzedAt);
    QuotedDateReads(fields, AnalyzedAt, doc.analyzedAt, lib);
  }

  lemma TagsRead<D>(fields: map<string, string>, doc: Document<D>, lib: Library<D>)
    requires lib.nesting > 0 && Prints(fields, doc, lib, Tags)
    ensures ReadTags(fields, lib.nesting) == Good(doc.tags, true)
  {
    Json.LoadsDumpedStrings(doc.tags, lib.nesting);
    assert TagTexts(Json.Strings(doc.tags)) == doc.tags;
  }

  /** The document with its section fields taken from what was gathered under the headings. */
  function WithSections<D>(doc: Document<D>, scan: Scan): Document<D> {
    doc.(
      coreSummary := Gathered(scan, CoreSummary), keyTakeaways := Items(Lines(Gathered(scan, KeyTakeaways))),
      timelineOutline := Gathered(scan, TimelineOutline), contentAnalysis := Gathered(scan, ContentAnalysis),
      commentSentiment := Gathered(scan, CommentSentiment), videoInformation := Gathered(scan, VideoInformation),
      transcript := if Gathered(scan, Transcript) == "" then None else Some(Gathered(scan, Transcript)))
  }

  /** The decoded texts are those of the document. */
  ghost predicate Decodes<D>(texts: Texts, doc: Document<D>) {
    forall key ::
      (key in texts <==> key in TEXT_KEYS) && (key in TEXT_KEYS ==> texts[key] == Good(TextOf(doc, key), true))
  }

  lemma PrintedTextReads<D>(fields: map<string, string>, doc: Document<D>, lib: Library<D>)
    requires forall key :: Prints(fields, doc, lib, key)
    ensures Decodes(DecodeTexts(fields, lib.nesting), doc)
  {
    forall key <- TEXT_KEYS ensures ReadText(fields, key, lib.nesting) == Good(TextOf(doc, key), true) {
      assert Prints(fields, doc, lib, key);
      TextReads(fields, doc, lib, key);
    }
  }

  lemma VersionReads<D>(fields: map<string, string>, doc: Document<D>, lib: Library<D>)
    requires Prints(fields, doc, lib, SchemaVersion)
    ensures ReadsAsOne(Lookup(fields, SchemaVersion))
  {
    StrippedStays("1");
  }

  lemma {:induction false} NoTextFault(texts: Texts, k: nat)
    requires k <= |TEXT_ORDER| && forall key | key in texts :: texts[key].Good?
    ensures TextFault(texts, k).None?
    decreases |TEXT_ORDER| - k
  {
    if k < |TEXT_ORDER| {
      NoTextFault(texts, k + 1);
    }
  }

  /** What the document class demands of the required fields, the address's form aside. */
  predicate Filled<D>(doc: Document<D>) {
    doc.analysisId != "" && doc.sourceUrl != "" && doc.platform != "" && doc.videoId != "" && doc.title != ""
  }

  lemma RequiredIsNonEmpty<D>(doc: Document<D>, key: Key)
    requires Filled(doc) && key in REQUIRED
    ensures key in TEXT_KEYS && TextOf(doc, key) != ""
  {
  }

  lemma DecodedValue<D>(texts: Texts, doc: Document<D>, key: Key)
    requires Decodes(texts, doc) && key in TEXT_KEYS
    ensures Value(texts, key) == TextOf(doc, key) && IsWhole(texts, key)
  {
  }

  /** With version and texts in order, address and platform decide. */
  lemma AddressAndPlatformDecide(
      version: string, texts: Texts, lower: string -> string, url: string, platform: string)
    requires ReadsAsOne(version) && TextFault(texts, 0).None?
    requires forall key <- REQUIRED :: Value(texts, key) != ""
    requires url == Value(texts, SourceUrl) && platform == Value(texts, Platform)
    ensures FieldFault(version, texts, lower) ==
      if Urls.Split(url).Refused? then Some(Exception)
      else if !IsHttpUrl(url) || platform != lower(platform) then Some(Refusal(MissingField))
      else None
  {
  }

  lemma RequiredStand<D>(texts: Texts, doc: Document<D>)
    requires Filled(doc) && Decodes(texts, doc)
    ensures forall key <- REQUIRED :: Value(texts, key) != ""
  {
    forall key <- REQUIRED ensures Value(texts, key) != "" {
      RequiredIsNonEmpty(doc, key);
      DecodedValue(texts, doc, key);
    }
  }

  /** What the checks come to on the fields of a printed report. */
  lemma PrintedFields<D>(version: string, texts: Texts, doc: Document<D>, lower: string -> string)
    requires Filled(doc) && ReadsAsOne(version) && Decodes(texts, doc)
    ensures FieldFault(version, texts, lower) ==
      if Urls.Split(doc.sourceUrl).Refused? then Some(Exception)
      else if !IsHttpUrl(doc.sourceUrl) || doc.platform != lower(doc.platform) then Some(Refusal(MissingField))
      else None
  {
    NoTextFault(texts, 0);
    RequiredStand(texts, doc);
    DecodedValue(texts, doc, SourceUrl);
    DecodedValue(texts, doc, Platform);
    AddressAndPlatformDecide(version, texts, lower, doc.sourceUrl, doc.platform);
  }

  lemma ValidIsFilled<D>(doc: Document<D>)
    requires SchemaValid(doc)
    ensures Filled(doc) && !Urls.Split(doc.sourceUrl).Refused?
  {
    assert !IsHttpUrl("") by {
      assert Urls.SplitClean("") == ("", "");
    }
  }

  lemma PrintedFieldsRead<D(!new)>(
      fields: map<string, string>, doc: Document<D>, lib: Library<D>, body: seq<string>)
    requires Lawful(lib) && SchemaValid(doc)
    requires forall key :: Prints(fields, doc, lib, key)
    ensures ParseBody(fields, body, lib) ==
      var scan := ReadLines(UNREAD, body);
      if doc.platform != lib.lower(doc.platform) then Rejected(MissingField)
      else if FirstNonBlank(body) != "# " + doc.title || OriginalLink !in scan.chunks
        then Rejected(BodyStructureInvalid)
      else Report(Parsed(WithSections(doc, scan), exists s <- ANALYSIS_SECTIONS :: Gathered(scan, s) != "", {}))
  {
    var texts := DecodeTexts(fields, lib.nesting);
    assert Prints(fields, doc, lib, SchemaVersion);
    VersionReads(fields, doc, lib);
    PrintedTextReads(fields, doc, lib);
    ValidIsFilled(doc);
    PrintedFields(Lookup(fields, SchemaVersion), texts, doc, lib.lower);
    assert Prints(fields, doc, lib, PublishedAt) && Prints(fields, doc, lib, AnalyzedAt);
    DatesRead(fields, doc, lib);
    assert Prints(fields, doc, lib, Tags);
    TagsRead(fields, doc, lib);
    PrintedRest(texts, doc, body, ReadLines(UNREAD, body));
  }

  lemma PrintedRest<D>(texts: Texts, doc: Document<D>, body: seq<string>, scan: Scan)
    requires SchemaValid(doc) && Decodes(texts, doc)
    ensures ParseRest(
        texts, Good(doc.tags, true), Good(doc.publishedAt, true), Good(Some(doc.analyzedAt), true), body, scan) ==
      if FirstNonBlank(body) != "# " + doc.title || OriginalLink !in scan.chunks then Rejected(BodyStructureInvalid)
      else Report(Parsed(WithSections(doc, scan), exists s <- ANALYSIS_SECTIONS :: Gathered(scan, s) != "", {}))
  {
    DecodedValue(texts, doc, Title);
    DecodedValue(texts, doc, SummaryMode);
    PrintedAssembles(texts, doc, scan);
  }

  lemma PrintedAssembles<D>(texts: Texts, doc: Document<D>, scan: Scan)
    requires Decodes(texts, doc)
    ensures Assemble(texts, doc.tags, true, doc.publishedAt, doc.analyzedAt, scan) ==
      Parsed(WithSections(doc, scan), exists s <- ANALYSIS_SECTIONS :: Gathered(scan, s) != "", {})
  {
    forall key <- TEXT_KEYS ensures Value(texts, key) == TextOf(doc, key) && IsWhole(texts, key) {
      DecodedValue(texts, doc, key);
    }
    assert (set key | key in texts && !IsWhole(texts, key)) == {};
    TextsAreFields(texts, doc);
  }

  lemma TextsAreFields<D>(texts: Texts, doc: Document<D>)
    requires forall key <- TEXT_KEYS :: Value(texts, key) == TextOf(doc, key)
    ensures Value(texts, AnalysisId) == doc.analysisId && Value(texts, SourceUrl) == doc.sourceUrl
    ensures Value(texts, Platform) == doc.platform && Value(texts, VideoId) == doc.videoId
    ensures Value(texts, Title) == doc.title && Value(texts, Author) == doc.author
    ensures Value(texts, SummaryMode) == doc.summaryMode && Value(texts, Language) == doc.language
    ensures Value(texts, AsrProvider) == doc.asrProvider && Value(texts, AsrModel) == doc.asrModel
    ensures Value(texts, AsrModelVersion) == doc.asrModelVersion
  {
    assert Value(texts, AnalysisId) == TextOf(doc, AnalysisId);
    assert Value(texts, SourceUrl) == TextOf(doc, SourceUrl);
    assert Value(texts, Platform) == TextOf(doc, Platform);
    assert Value(texts, VideoId) == TextOf(doc, VideoId);
    assert Value(texts, Title) == TextOf(doc, Title);
    assert Value(texts, Author) == TextOf(doc, Author);
    assert Value(texts, SummaryMode) == TextOf(doc, SummaryMode);
    assert Value(texts, Language) == TextOf(doc, Language);
    assert Value(texts, AsrProvider) == TextOf(doc, AsrProvider);
    assert Value(texts, AsrModel) == TextOf(doc, AsrModel);
    assert Value(texts, AsrModelVersion) == TextOf(doc, AsrModelVersion);
  }

  // ----- the laws

  /** The first line of the body that is not blank is the title line. */
  lemma TitleLineIsFirst<D>(doc: Document<D>)
    requires SingleLine(doc.title)
    ensures FirstNonBlank(BodyLines(doc)) == "# " + doc.title
  {
    LinesOfSingle("# " + doc.title);
    var line, rest := "# " + doc.title, [""] + BodyLinesUpTo(doc, |SECTIONS|);
    assert BodyLines(doc) == [""] + ([line] + rest);
    TrimRightKeeps(line);
    assert FirstNonBlank([line] + rest) == line;
    assert ([""] + ([line] + rest))[1..] == [line] + rest;
  }

  predicate HasAnalysis<D>(doc: Document<D>) { exists s <- ANALYSIS_SECTIONS :: Content(doc, s) != "" }

  lemma ContentIsStripped<D>(doc: Document<D>, s: Section)
    requires Recoverable(doc) && (doc.keyTakeaways != [] ==> doc.keyTakeaways[|doc.keyTakeaways| - 1] != "")
    requires s != OriginalLink
    ensures Stripped(Content(doc, s))
  {
    if s == KeyTakeaways {
      BulletsAreStripped(doc.keyTakeaways);
    }
  }

  lemma SectionsReadBack<D>(doc: Document<D>, scan: Scan)
    requires scan.chunks == ChunksUpTo(doc, |SECTIONS|)
    requires Recoverable(doc) && (doc.keyTakeaways != [] ==> doc.keyTakeaways[|doc.keyTakeaways| - 1] != "")
    ensures WithSections(doc, scan) == doc
    ensures HasAnalysis(doc) == exists s <- ANALYSIS_SECTIONS :: Gathered(scan, s) != ""
  {
    forall s | s != OriginalLink ensures Gathered(scan, s) == Content(doc, s) {
      ContentIsStripped(doc, s);
      GatheredIsContent(doc, scan, s);
    }
    GatheredFieldsAreFields(doc, scan);
  }

  lemma GatheredFieldsAreFields<D>(doc: Document<D>, scan: Scan)
    requires forall s | s != OriginalLink :: Gathered(scan, s) == Content(doc, s)
    requires Recoverable(doc)
    ensures WithSections(doc, scan) == doc
  {
    TakeawaysReadBack(doc.keyTakeaways);
    assert Gathered(scan, KeyTakeaways) == Unlines(Bullets(doc.keyTakeaways));
    assert Gathered(scan, Transcript) == Content(doc, Transcript);
  }

  lemma TakeawaysReadBack(items: seq<string>)
    requires LineLike(items)
    ensures Items(Lines(Unlines(Bullets(items)))) == items
  {
    if items != [] {
      LinesOfBullets(items);
      ItemsOfBullets(items);
    } else {
      assert [""][..0] == [];
      assert Items([""]) == [];
    }
  }

  lemma LostTakeaway<D>(doc: Document<D>, scan: Scan)
    requires scan.chunks == ChunksUpTo(doc, |SECTIONS|) && LineLike(doc.keyTakeaways)
    requires doc.keyTakeaways != [] && doc.keyTakeaways[|doc.keyTakeaways| - 1] == ""
    ensures WithSections(doc, scan).keyTakeaways == doc.keyTakeaways[..|doc.keyTakeaways| - 1]
  {
    assert SECTIONS[Position(KeyTakeaways)] == KeyTakeaways;
    FirstOfUnlines(Bullets(doc.keyTakeaways));
    EmptyLastBullet(doc.keyTakeaways);
    EmptyLastBulletIsLost(doc.keyTakeaways);
  }

  /** What reading a printed report comes to: its platform, title and link are checked, its sections gathered. */
  lemma PrintedReads<D(!new)>(doc: Document<D>, lib: Library<D>)
    requires Lawful(lib) && SchemaValid(doc)
    ensures Parse(Render(doc, lib), lib) ==
      var scan := ReadLines(UNREAD, BodyLines(doc));
      if doc.platform != lib.lower(doc.platform) then Rejected(MissingField)
      else if FirstNonBlank(BodyLines(doc)) != "# " + doc.title || OriginalLink !in scan.chunks
      then Rejected(BodyStructureInvalid)
      else Report(Parsed(WithSections(doc, scan), exists s <- ANALYSIS_SECTIONS :: Gathered(scan, s) != "", {}))
  {
    SplitPrinted(doc, lib);
    FrontmatterReads(doc, lib);
    PrintedFieldsRead(Fields(FieldLines(doc, lib)).value, doc, lib, BodyLines(doc));
  }

  /** Without heading lines in it a report in the reader's normal form reads back, unless its last takeaway is empty. */
  lemma PlainReportsReadBack<D(!new)>(doc: Document<D>, lib: Library<D>)
    requires Lawful(lib) && SchemaValid(doc) && HeadingFree(doc)
    requires Recoverable(doc) && doc.platform == lib.lower(doc.platform)
    ensures Parse(Render(doc, lib), lib) == Report(Parsed(doc, HasAnalysis(doc), {})) <==>
      (doc.keyTakeaways != [] ==> doc.keyTakeaways[|doc.keyTakeaways| - 1] != "")
  {
    PrintedReads(doc, lib);
    var scan := ReadLines(UNREAD, BodyLines(doc));
    BodyIsGathered(doc);
    TitleLineIsFirst(doc);
    GatheredIsContent(doc, scan, OriginalLink);
    if doc.keyTakeaways != [] && doc.keyTakeaways[|doc.keyTakeaways| - 1] == "" {
      LostTakeaway(doc, scan);
    } else {
      SectionsReadBack(doc, scan);
    }
  }

  // ----- line ends

  lemma {:induction false} CrlfIsUndone(text: string)
    requires '\r' !in text
    ensures Normalized(WithCrlf(text)) == text && Normalized(text) == text
  {
    if text != "" {
      CrlfIsUndone(text[1..]);
      var rest := WithCrlf(text[1..]);
      if text[0] == NL {
        assert WithCrlf(text) == "\r\n" + rest;
        assert ("\r\n" + rest)[2..] == rest;
      } else {
        assert WithCrlf(text) == [text[0]] + rest;
        assert ([text[0]] + rest)[1..] == rest;
      }
      assert [text[0]] + text[1..] == text;
    }
  }

  /** A report saved with Windows line ends reads as the same report. */
  lemma LineEndsDoNotMatter<D>(text: string, lib: Library<D>)
    requires '\r' !in text
    ensures Decode(WithCrlf(text), lib) == Parse(text, lib) == Decode(text, lib)
  {
    CrlfIsUndone(text);
  }
}
