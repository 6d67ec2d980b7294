/** Files on which the report reader raises an exception that is not its own. */
module ReportFaults {
  import opened Wrappers
  import opened Text
  import opened ReportFormat
  import opened ReportRoundTrip
  import opened ReportLaws
  import Json
  import Urls

  // ----- addresses

  lemma RefusedAddressFails<D>(
      fields: map<string, string>, doc: Document<D>, body: seq<string>, lib: Library<D>)
    requires Filled(doc) && Urls.Split(doc.sourceUrl).Refused? && forall key :: Prints(fields, doc, lib, key)
    ensures ParseBody(fields, body, lib) == Raised
  {
    assert Prints(fields, doc, lib, SchemaVersion);
    VersionReads(fields, doc, lib);
    PrintedTextReads(fields, doc, lib);
    PrintedFields(Lookup(fields, SchemaVersion), DecodeTexts(fields, lib.nesting), doc, lib.lower);
  }

  /** A report whose address `urlsplit` refuses raises, where one with another bad address would be rejected. */
  lemma RefusedAddressRaises<D(!new)>(doc: Document<D>, lib: Library<D>)
    requires Lawful(lib) && Filled(doc) && Urls.Split(doc.sourceUrl).Refused?
    ensures Parse(Render(doc, lib), lib) == Raised
  {
    SplitPrinted(doc, lib);
    FrontmatterReads(doc, lib);
    RefusedAddressFails(Fields(FieldLines(doc, lib)).value, doc, BodyLines(doc), lib);
  }

  // ----- values of the frontmatter

  /** A printed report with one more frontmatter line, which takes the place of the printed one. */
  function Amended<D>(doc: Document<D>, lib: Library<D>, key: Key, raw: string): string {
    "---\n" + Unlines(FieldLines(doc, lib) + [Name(key) + ": " + raw]) + "\n---\n" +
    ("\n" + SectionsUpTo(doc, |SECTIONS|) + "\n")
  }

  lemma AmendedLines<D(!new)>(doc: Document<D>, lib: Library<D>, key: Key, raw: string)
    requires Lawful(lib) && SingleLine(raw)
    ensures var lines := FieldLines(doc, lib) + [Name(key) + ": " + raw];
      && Fields(FieldLines(doc, lib)).Some?
      && Fields(lines) == Some(Fields(FieldLines(doc, lib)).value[Name(key) := raw])
      && forall line <- lines :: Fieldlike(line)
  {
    var line := Name(key) + ": " + raw;
    var lines := FieldLines(doc, lib) + [line];
    FrontmatterReads(doc, lib);
    FieldLinesAreFieldlike(doc, lib);
    NamesAreClean(key);
    assert line[0] == Name(key)[0];
    assert lines[..|lines| - 1] == FieldLines(doc, lib);
    FieldsExtend(lines, Name(key), raw);
  }

  lemma FieldlikeSplits(lines: seq<string>, rest: string)
    requires lines != [] && Fields(lines).Some? && forall line <- lines :: Fieldlike(line)
    ensures Split("---\n" + Unlines(lines) + "\n---\n" + rest) == Some((Fields(lines).value, Lines(rest)))
  {
    var text := "---\n" + Unlines(lines) + "\n---\n" + rest;
    FenceAt(lines, rest, text);
    forall i | 0 <= i < |lines| ensures SingleLine(lines[i]) {
      assert Fieldlike(lines[i]);
    }
    LinesOfUnlines(lines);
    SplitOfText(lines, rest, text);
  }

  lemma AmendedSplits<D(!new)>(doc: Document<D>, lib: Library<D>, key: Key, raw: string)
    requires Lawful(lib) && SingleLine(raw)
    ensures Fields(FieldLines(doc, lib)).Some?
    ensures Split(Amended(doc, lib, key, raw)) ==
      Some((Fields(FieldLines(doc, lib)).value[Name(key) := raw], BodyLines(doc)))
  {
    AmendedLines(doc, lib, key, raw);
    FieldlikeSplits(FieldLines(doc, lib) + [Name(key) + ": " + raw], "\n" + SectionsUpTo(doc, |SECTIONS|) + "\n");
    LinesOfBody(doc);
  }

  /** The text fields of an amended report are those of the printed one, except the amended one. */
  lemma AmendedTexts(fields: map<string, string>, key: Key, raw: string, nesting: nat)
    requires raw != ""
    ensures var before, after := DecodeTexts(fields, nesting), DecodeTexts(fields[Name(key) := raw], nesting);
      && (forall other | other in before && other != key :: other in after && after[other] == before[other])
      && after.Keys == before.Keys
  {
    forall other: Key | other != key ensures Name(other) != Name(key) {
      NamesDiffer(other, key);
    }
  }

  lemma {:induction false} OneTextRaises(texts: Texts, k: nat, i: nat)
    requires k <= i < |TEXT_ORDER| && TEXT_ORDER[i] in texts && texts[TEXT_ORDER[i]].Raising?
    requires forall other | other in texts && other != TEXT_ORDER[i] :: texts[other].Good?
    ensures TextFault(texts, k) == Some(Exception)
    decreases |TEXT_ORDER| - k
  {
    if k < i {
      OneTextRaises(texts, k + 1, i);
    }
  }

  function Turn(key: Key): (i: nat)
    requires key in TEXT_KEYS
    ensures i < |TEXT_ORDER| && TEXT_ORDER[i] == key
  {
    match key
    case AnalysisId => 0
    case SourceUrl => 1
    case Platform => 2
    case VideoId => 3
    case Title => 4
    case SummaryMode => 5
    case Author => 6
    case Language => 7
    case AsrProvider => 8
    case AsrModel => 9
    case AsrModelVersion => 10
  }

  /** Whether the value of this field, tags and moments included, is one on which decoding raises. */
  predicate RaisesAt<D>(
      key: Key, texts: Texts, tags: FieldRead<seq<string>>, published: FieldRead<Option<D>>,
      analyzed: FieldRead<Option<D>>)
  {
    match key
    case SchemaVersion => false
    case Tags => tags.Raising?
    case PublishedAt => published.Raising?
    case AnalyzedAt => analyzed.Raising?
    case _ => key in texts && texts[key].Raising?
  }

  /** The checks on the body and the mode, made before tags and moments are decoded. */
  predicate BodyPasses(texts: Texts, body: seq<string>) {
    && TitleStands(texts, body) && OriginalLink in ReadLines(UNREAD, body).chunks
    && Value(texts, SummaryMode) in SUMMARY_MODES
  }

  lemma OneFieldRaises<D>(
      version: string, texts: Texts, tags: FieldRead<seq<string>>, published: FieldRead<Option<D>>,
      analyzed: FieldRead<Option<D>>, body: seq<string>, lower: string -> string, key: Key)
    requires key in TEXT_KEYS ==> ReadsAsOne(version)
    requires key !in TEXT_KEYS ==> FieldFault(version, texts, lower).None? && BodyPasses(texts, body)
    requires RaisesAt(key, texts, tags, published, analyzed)
    requires forall other | other in texts && other != key :: texts[other].Good?
    requires key != Tags ==> tags.Good?
    requires key == AnalyzedAt ==> published.Good?
    ensures ParseDecoded(version, texts, tags, published, analyzed, body, lower) == Raised
  {
    if key in TEXT_KEYS {
      OneTextRaises(texts, 0, Turn(key));
    }
  }

  lemma LookupElsewhere(fields: map<string, string>, key: Key, raw: string, other: Key)
    requires other != key
    ensures Lookup(fields[Name(key) := raw], other) == Lookup(fields, other)
  {
    NamesDiffer(other, key);
  }

  lemma RaisingRead<D>(fields: map<string, string>, key: Key, raw: string, lib: Library<D>)
    requires Json.Loads(raw, lib.nesting).Fails?
    ensures raw != "" && raw != "null"
    ensures var after := fields[Name(key) := raw];
      && ReadText(after, key, lib.nesting) == Raising
      && (key == Tags ==> ReadTags(after, lib.nesting) == Raising)
      && ReadDate(after, key, lib) == Raising
  {
    assert Json.Loads("", lib.nesting) == Json.NotJson;
    NullReads(lib.nesting);
  }

  lemma NullReads(nesting: nat)
    ensures Json.Loads("null", nesting).Ok?
  {
    assert StartsWith("null", Json.LITERALS[0]);
    assert "null"[4..] == "";
  }

  lemma SameTags(a: map<string, string>, b: map<string, string>, nesting: nat)
    requires Lookup(a, Tags) == Lookup(b, Tags)
    ensures ReadTags(a, nesting) == ReadTags(b, nesting)
  {
  }

  lemma SameDate<D>(a: map<string, string>, b: map<string, string>, key: Key, lib: Library<D>)
    requires Lookup(a, key) == Lookup(b, key)
    ensures ReadDate(a, key, lib) == ReadDate(b, key, lib)
  {
  }

  /** The other fields of an amended report read as they are printed. */
  lemma OthersRead<D(!new)>(fields: map<string, string>, doc: Document<D>, lib: Library<D>, key: Key, raw: string)
    requires Lawful(lib) && forall other :: Prints(fields, doc, lib, other)
    ensures var after := fields[Name(key) := raw];
      && (key != SchemaVersion ==> ReadsAsOne(Lookup(after, SchemaVersion)))
      && (key != Tags ==> ReadTags(after, lib.nesting) == Good(doc.tags, true))
      && (key != PublishedAt ==> ReadDate(after, PublishedAt, lib) == Good(doc.publishedAt, true))
      && (key != AnalyzedAt ==> ReadDate(after, AnalyzedAt, lib) == Good(Some(doc.analyzedAt), true))
  {
    var after := fields[Name(key) := raw];
    assert Prints(fields, doc, lib, SchemaVersion) && Prints(fields, doc, lib, Tags);
    assert Prints(fields, doc, lib, PublishedAt) && Prints(fields, doc, lib, AnalyzedAt);
    VersionReads(fields, doc, lib);
    DatesRead(fields, doc, lib);
    TagsRead(fields, doc, lib);
    forall other | other != key ensures Lookup(after, other) == Lookup(fields, other) {
      LookupElsewhere(fields, key, raw, other);
    }
    if key != Tags {
      SameTags(after, fields, lib.nesting);
    }
    if key != PublishedAt {
      SameDate(after, fields, PublishedAt, lib);
    }
    if key != AnalyzedAt {
      SameDate(after, fields, AnalyzedAt, lib);
    }
  }

  lemma OtherTexts<D>(fields: map<string, string>, doc: Document<D>, lib: Library<D>, key: Key, raw: string)
    requires raw != "" && forall other :: Prints(fields, doc, lib, other)
    ensures var after := DecodeTexts(fields[Name(key) := raw], lib.nesting);
      && (forall other | other in after && other != key :: after[other] == Good(TextOf(doc, other), true))
      && (key !in TEXT_KEYS ==> Decodes(after, doc))
      && (key in TEXT_KEYS ==> key in after && after[key] == ReadText(fields[Name(key) := raw], key, lib.nesting))
  {
    PrintedTextReads(fields, doc, lib);
    AmendedTexts(fields, key, raw, lib.nesting);
  }

  lemma ValidFieldsPass<D>(version: string, texts: Texts, doc: Document<D>, lower: string -> string)
    requires SchemaValid(doc) && doc.platform == lower(doc.platform) && Decodes(texts, doc) && ReadsAsOne(version)
    ensures FieldFault(version, texts, lower).None?
  {
    ValidIsFilled(doc);
    PrintedFields(version, texts, doc, lower);
  }

  lemma PrintedBodyPasses<D>(texts: Texts, doc: Document<D>, body: seq<string>)
    requires doc.summaryMode in SUMMARY_MODES && Decodes(texts, doc)
    requires FirstNonBlank(body) == "# " + doc.title && OriginalLink in ReadLines(UNREAD, body).chunks
    ensures BodyPasses(texts, body)
  {
    DecodedValue(texts, doc, Title);
    DecodedValue(texts, doc, SummaryMode);
  }

  lemma AmendedBodyRaises<D(!new)>(
      fields: map<string, string>, doc: Document<D>, lib: Library<D>, key: Key, raw: string, body: seq<string>)
    requires Lawful(lib) && SchemaValid(doc) && doc.platform == lib.lower(doc.platform)
    requires FirstNonBlank(body) == "# " + doc.title && OriginalLink in ReadLines(UNREAD, body).chunks
    requires key != SchemaVersion && Json.Loads(raw, lib.nesting).Fails?
    requires forall other :: Prints(fields, doc, lib, other)
    ensures ParseBody(fields[Name(key) := raw], body, lib) == Raised
  {
    var after := fields[Name(key) := raw];
    var version, texts := Lookup(after, SchemaVersion), DecodeTexts(after, lib.nesting);
    RaisingRead(fields, key, raw, lib);
    OthersRead(fields, doc, lib, key, raw);
    OtherTexts(fields, doc, lib, key, raw);
    if key !in TEXT_KEYS {
      ValidFieldsPass(version, texts, doc, lib.lower);
      PrintedBodyPasses(texts, doc, body);
    }
    OneFieldRaises(version, texts, ReadTags(after, lib.nesting), ReadDate(after, PublishedAt, lib),
      ReadDate(after, AnalyzedAt, lib), body, lib.lower, key);
  }

  /**
   A report that is read as printed raises once any of its fields but the version holds a value on which
   `json.loads` raises: an integer of too many digits, or brackets nested too deep.
   */
  lemma AmendedReportRaises<D(!new)>(doc: Document<D>, lib: Library<D>, key: Key, raw: string)
    requires Lawful(lib) && SchemaValid(doc) && Parse(Render(doc, lib), lib).Report?
    requires key != SchemaVersion && SingleLine(raw) && Json.Loads(raw, lib.nesting).Fails?
    ensures Parse(Amended(doc, lib, key, raw), lib) == Raised
  {
    PrintedReads(doc, lib);
    AmendedSplits(doc, lib, key, raw);
    FrontmatterReads(doc, lib);
    AmendedBodyRaises(Fields(FieldLines(doc, lib)).value, doc, lib, key, raw, BodyLines(doc));
  }

  // ----- lone surrogates

  /** Fields that hold any text. */
  predicate Free(key: Key) {
    key in TEXT_KEYS && key != SourceUrl && key != Platform && key != Title && key != SummaryMode
  }

  lemma UpdatedValue(texts: Texts, key: Key, s: string, other: Key)
    requires other != key
    ensures var after := texts[key := Good(s, false)];
      && (other in after <==> other in texts) && Value(after, other) == Value(texts, other)
      && (IsWhole(after, other) <==> IsWhole(texts, other))
  {
  }

  lemma LoneRequired(texts: Texts, key: Key, s: string, other: Key)
    requires s != "" && Value(texts, other) != ""
    ensures Value(texts[key := Good(s, false)], other) != ""
  {
    if other != key {
      UpdatedValue(texts, key, s, other);
    }
  }

  lemma FieldsPassAgain(version: string, texts: Texts, after: Texts, lower: string -> string)
    requires FieldFault(version, texts, lower).None? && TextFault(after, 0).None?
    requires forall key <- REQUIRED :: Value(after, key) != ""
    requires Value(after, SourceUrl) == Value(texts, SourceUrl) && Value(after, Platform) == Value(texts, Platform)
    ensures FieldFault(version, after, lower).None?
  {
  }

  lemma LoneFieldsPass(version: string, texts: Texts, lower: string -> string, key: Key, s: string)
    requires FieldFault(version, texts, lower).None? && (forall other | other in texts :: texts[other].Good?)
    requires Free(key) && s != ""
    ensures FieldFault(version, texts[key := Good(s, false)], lower).None?
  {
    var after := texts[key := Good(s, false)];
    NoTextFault(after, 0);
    forall other <- REQUIRED ensures Value(after, other) != "" {
      LoneRequired(texts, key, s, other);
    }
    UpdatedValue(texts, key, s, SourceUrl);
    UpdatedValue(texts, key, s, Platform);
    FieldsPassAgain(version, texts, after, lower);
  }

  lemma LoneBodyPasses(texts: Texts, body: seq<string>, key: Key, s: string)
    requires BodyPasses(texts, body) && Free(key)
    ensures BodyPasses(texts[key := Good(s, false)], body)
  {
    UpdatedValue(texts, key, s, Title);
    UpdatedValue(texts, key, s, SummaryMode);
  }

  lemma LoneIsMarked(texts: Texts, key: Key, s: string)
    requires forall other | other in texts :: IsWhole(texts, other)
    ensures var after := texts[key := Good(s, false)];
      (set other | other in after && !IsWhole(after, other)) == {key}
  {
    var after := texts[key := Good(s, false)];
    forall other | other in after && other != key ensures IsWhole(after, other) {
      UpdatedValue(texts, key, s, other);
    }
    assert !IsWhole(after, key);
  }

  lemma PassingIsRead<D>(
      version: string, texts: Texts, tags: seq<string>, published: Option<D>, analyzed: D, body: seq<string>,
      lower: string -> string)
    requires FieldFault(version, texts, lower).None? && BodyPasses(texts, body)
    ensures ParseDecoded(
        version, texts, Good(tags, true), Good(published, true), Good(Some(analyzed), true), body, lower) ==
      Report(Assemble(texts, tags, true, published, analyzed, ReadLines(UNREAD, body)))
  {
  }

  lemma LoneDecoded<D>(
      version: string, texts: Texts, doc: Document<D>, body: seq<string>, lower: string -> string, key: Key, s: string)
    requires FieldFault(version, texts, lower).None? && BodyPasses(texts, body)
    requires forall other | other in texts :: texts[other].Good? && IsWhole(texts, other)
    requires Free(key) && s != ""
    ensures var r := ParseDecoded(
        version, texts[key := Good(s, false)], Good(doc.tags, true), Good(doc.publishedAt, true),
        Good(Some(doc.analyzedAt), true), body, lower);
      r.Report? && r.parsed.lone == {key}
  {
    LoneFieldsPass(version, texts, lower, key, s);
    LoneBodyPasses(texts, body, key, s);
    LoneIsMarked(texts, key, s);
    PassingIsRead(
      version, texts[key := Good(s, false)], doc.tags, doc.publishedAt, doc.analyzedAt, body, lower);
  }

  /** A value that reads as a text with a lone surrogate. */
  predicate HoldsLone(raw: string, nesting: nat) {
    var loaded := Json.Loads(raw, nesting);
    SingleLine(raw) && loaded.Ok? && loaded.value.Str? && !loaded.value.whole && loaded.value.s != ""
  }

  lemma UpdatedMap<K, V>(a: map<K, V>, b: map<K, V>, key: K, value: V)
    requires a.Keys == b.Keys && key in b && b[key] == value
    requires forall other | other in a && other != key :: b[other] == a[other]
    ensures b == a[key := value]
  {
  }

  lemma LoneTexts(fields: map<string, string>, key: Key, raw: string, s: string, nesting: nat)
    requires key in TEXT_KEYS && raw != ""
    requires ReadText(fields[Name(key) := raw], key, nesting) == Good(s, false)
    ensures DecodeTexts(fields[Name(key) := raw], nesting) == DecodeTexts(fields, nesting)[key := Good(s, false)]
  {
    var before, after := DecodeTexts(fields, nesting), DecodeTexts(fields[Name(key) := raw], nesting);
    AmendedTexts(fields, key, raw, nesting);
    UpdatedMap(before, after, key, Good(s, false));
  }

  lemma LoneRead(fields: map<string, string>, key: Key, raw: string, nesting: nat) returns (s: string)
    requires HoldsLone(raw, nesting)
    ensures raw != "" && s != "" && ReadText(fields[Name(key) := raw], key, nesting) == Good(s, false)
  {
    assert Json.Loads("", nesting) == Json.NotJson;
    s := Json.Loads(raw, nesting).value.s;
  }

  /** What decoding gives: the texts of the document but for the one field, its tags and its moments. */
  ghost predicate DecodesBut<D>(
      after: map<string, string>, texts: Texts, doc: Document<D>, lib: Library<D>, key: Key, s: string)
  {
    && ReadsAsOne(Lookup(after, SchemaVersion)) && ReadTags(after, lib.nesting) == Good(doc.tags, true)
    && ReadDate(after, PublishedAt, lib) == Good(doc.publishedAt, true)
    && ReadDate(after, AnalyzedAt, lib) == Good(Some(doc.analyzedAt), true)
    && Decodes(texts, doc) && DecodeTexts(after, lib.nesting) == texts[key := Good(s, false)]
  }

  lemma LoneReads<D(!new)>(
      fields: map<string, string>, doc: Document<D>, lib: Library<D>, key: Key, raw: string, s: string)
    requires Lawful(lib) && Free(key) && raw != "" && forall other :: Prints(fields, doc, lib, other)
    requires ReadText(fields[Name(key) := raw], key, lib.nesting) == Good(s, false)
    ensures DecodesBut(fields[Name(key) := raw], DecodeTexts(fields, lib.nesting), doc, lib, key, s)
  {
    OthersRead(fields, doc, lib, key, raw);
    PrintedTextReads(fields, doc, lib);
    LoneTexts(fields, key, raw, s, lib.nesting);
  }

  lemma LoneAmended<D>(
      after: map<string, string>, texts: Texts, doc: Document<D>, lib: Library<D>, key: Key, s: string,
      body: seq<string>)
    requires SchemaValid(doc) && doc.platform == lib.lower(doc.platform)
    requires FirstNonBlank(body) == "# " + doc.title && OriginalLink in ReadLines(UNREAD, body).chunks
    requires Free(key) && s != "" && DecodesBut(after, texts, doc, lib, key, s)
    ensures var r := ParseBody(after, body, lib); r.Report? && r.parsed.lone == {key}
  {
    LonePrinted(Lookup(after, SchemaVersion), texts, doc, body, lib.lower, key, s);
  }

  lemma LonePrinted<D>(
      version: string, texts: Texts, doc: Document<D>, body: seq<string>, lower: string -> string, key: Key, s: string)
    requires SchemaValid(doc) && doc.platform == lower(doc.platform) && Decodes(texts, doc) && ReadsAsOne(version)
    requires FirstNonBlank(body) == "# " + doc.title && OriginalLink in ReadLines(UNREAD, body).chunks
    requires Free(key) && s != ""
    ensures var r := ParseDecoded(
        version, texts[key := Good(s, false)], Good(doc.tags, true), Good(doc.publishedAt, true),
        Good(Some(doc.analyzedAt), true), body, lower);
      r.Report? && r.parsed.lone == {key}
  {
    ValidFieldsPass(version, texts, doc, lower);
    PrintedBodyPasses(texts, doc, body);
    AllDecoded(texts, doc);
    LoneDecoded(version, texts, doc, body, lower, key, s);
  }

  lemma LoneBodyReads<D(!new)>(
      fields: map<string, string>, doc: Document<D>, lib: Library<D>, key: Key, raw: string, body: seq<string>)
    requires Lawful(lib) && SchemaValid(doc) && doc.platform == lib.lower(doc.platform)
    requires FirstNonBlank(body) == "# " + doc.title && OriginalLink in ReadLines(UNREAD, body).chunks
    requires Free(key) && HoldsLone(raw, lib.nesting) && forall other :: Prints(fields, doc, lib, other)
    ensures var r := ParseBody(fields[Name(key) := raw], body, lib); r.Report? && r.parsed.lone == {key}
  {
    var s := LoneRead(fields, key, raw, lib.nesting);
    LoneReads(fields, doc, lib, key, raw, s);
    LoneAmended(fields[Name(key) := raw], DecodeTexts(fields, lib.nesting), doc, lib, key, s, body);
  }

  lemma AllDecoded<D>(texts: Texts, doc: Document<D>)
    requires Decodes(texts, doc)
    ensures forall other | other in texts :: texts[other].Good? && IsWhole(texts, other)
  {
  }

  /** The reader accepts a report with a lone surrogate in one of the free fields, and that field is marked. */
  lemma LoneSurrogateIsRead<D(!new)>(doc: Document<D>, lib: Library<D>, key: Key, raw: string)
    requires Lawful(lib) && SchemaValid(doc) && Parse(Render(doc, lib), lib).Report?
    requires Free(key) && HoldsLone(raw, lib.nesting)
    ensures var r := Parse(Amended(doc, lib, key, raw), lib); r.Report? && r.parsed.lone == {key}
  {
    PrintedReads(doc, lib);
    AmendedSplits(doc, lib, key, raw);
    FrontmatterReads(doc, lib);
    LoneBodyReads(Fields(FieldLines(doc, lib)).value, doc, lib, key, raw, BodyLines(doc));
  }

  /** The escape of a high surrogate, with nothing to follow it. */
  lemma LoneEscape(nesting: nat)
    ensures HoldsLone(['"', '\\', 'u', 'd', '8', '0', '0', '"'], nesting)
  {
    var raw := ['"', '\\', 'u', 'd', '8', '0', '0', '"'];
    var t := raw[1..];
    assert Json.Code(t[2..]) == Some(0xD800);
    assert t[6..] == ['"'] && t[6..][1..] == [];
    assert Json.LowEscape(t[6..]).None?;
    assert Json.ScanString(t[6..]) == Some(Json.Literal("", true, ""));
    assert Json.ScanString(t) == Some(Json.Literal([Json.REPLACEMENT] + "", false, ""));
    assert Json.SkipSpace(raw) == raw;
    assert Json.ScanValue(raw, nesting) == Json.Ok(Json.Str([Json.REPLACEMENT] + "", false), "");
  }
}
