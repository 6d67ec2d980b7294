/**
 Markdown Schema v1: the report printer and its strict reader. The calendar and the letter cases of
 the standard library are parameters.
 */
module ReportFormat {
  import opened Wrappers
  import opened Text
  import Json
  import Urls

  datatype Document<D> = Document(
    analysisId: string, sourceUrl: string, platform: string, videoId: string, title: string, author: string,
    publishedAt: Option<D>, analyzedAt: D,
    summaryMode: string, language: string, asrProvider: string, asrModel: string, asrModelVersion: string,
    tags: seq<string>,
    coreSummary: string, keyTakeaways: seq<string>, timelineOutline: string, contentAnalysis: string,
    commentSentiment: string, videoInformation: string, transcript: Option<string>)

  /** What the reader returns: the document, whether it has any analysis, and the fields with a lone surrogate. */
  datatype Parsed<D> = Parsed(doc: Document<D>, hasAnalysis: bool, lone: set<Key>)

  datatype ParseError = FrontmatterInvalid | UnknownSchemaVersion | MissingField | BodyStructureInvalid

  /** `Raised` is any exception other than the reader's own. */
  datatype Outcome<D> = Report(parsed: Parsed<D>) | Rejected(error: ParseError) | Raised

  /**
   What the reader takes from Python: `isoformat`, `fromisoformat` restricted to moments with an offset,
   `str.lower`, and how deep brackets may nest before the interpreter gives up.
   */
  datatype Library<!D> = Library(
    show: D -> string, read: string -> Option<D>, lower: string -> string, nesting: nat)

  /** What is known of it: arrays can be read, and every moment is shown as one that reads back. */
  ghost predicate Lawful<D(!new)>(lib: Library<D>) {
    lib.nesting > 0 && forall d :: ShowsFaithfully(lib, d)
  }

  /** A moment is shown on one line of moderate length that starts with a digit, and reads back. */
  predicate ShowsFaithfully<D(==)>(lib: Library<D>, d: D) {
    var shown := lib.show(d);
    && shown != "" && '0' <= shown[0] <= '9' && |shown| <= Json.MAX_DIGITS
    && SingleLine(shown)
    && lib.read(shown) == Some(d)
  }

  // ----- the frontmatter

  datatype Key =
    | SchemaVersion | AnalysisId | SourceUrl | Platform | VideoId | Title | Author | PublishedAt | AnalyzedAt
    | SummaryMode | Language | AsrProvider | AsrModel | AsrModelVersion | Tags

  function Name(key: Key): string {
    match key
    case SchemaVersion => "schema_version"
    case AnalysisId => "analysis_id"
    case SourceUrl => "source_url"
    case Platform => "platform"
    case VideoId => "video_id"
    case Title => "title"
    case Author => "author"
    case PublishedAt => "published_at"
    case AnalyzedAt => "analyzed_at"
    case SummaryMode => "summary_mode"
    case Language => "language"
    case AsrProvider => "asr_provider"
    case AsrModel => "asr_model"
    case AsrModelVersion => "asr_model_version"
    case Tags => "tags"
  }

  /** The order in which the frontmatter lists its fields. */
  const KEYS: seq<Key> := [
    SchemaVersion, AnalysisId, SourceUrl, Platform, VideoId, Title, Author, PublishedAt, AnalyzedAt,
    SummaryMode, Language, AsrProvider, AsrModel, AsrModelVersion, Tags]

  /** The value printed after a key. */
  function Raw<D>(doc: Document<D>, lib: Library<D>, key: Key): string {
    match key
    case SchemaVersion => "1"
    case AnalysisId => Json.DumpString(doc.analysisId)
    case SourceUrl => Json.DumpString(doc.sourceUrl)
    case Platform => Json.DumpString(doc.platform)
    case VideoId => Json.DumpString(doc.videoId)
    case Title => Json.DumpString(doc.title)
    case Author => Json.DumpString(doc.author)
    case PublishedAt => if doc.publishedAt.Some? then lib.show(doc.publishedAt.value) else "null"
    case AnalyzedAt => Json.DumpString(lib.show(doc.analyzedAt))
    case SummaryMode => Json.DumpString(doc.summaryMode)
    case Language => Json.DumpString(doc.language)
    case AsrProvider => Json.DumpString(doc.asrProvider)
    case AsrModel => Json.DumpString(doc.asrModel)
    case AsrModelVersion => Json.DumpString(doc.asrModelVersion)
    case Tags => Json.DumpStrings(doc.tags)
  }

  function FieldLines<D>(doc: Document<D>, lib: Library<D>): seq<string> {
    seq(|KEYS|, i requires 0 <= i < |KEYS| => Name(KEYS[i]) + ": " + Raw(doc, lib, KEYS[i]))
  }

  function RenderFrontmatter<D>(doc: Document<D>, lib: Library<D>): string {
    "---\n" + Unlines(FieldLines(doc, lib)) + "\n---"
  }

  // ----- the sections

  datatype Section =
    | CoreSummary | KeyTakeaways | TimelineOutline | ContentAnalysis
    | CommentSentiment | VideoInformation | OriginalLink | Transcript

  function Heading(s: Section): string {
    match s
    case CoreSummary => "## 核心摘要"
    case KeyTakeaways => "## 核心收获"
    case TimelineOutline => "## 时间轴大纲"
    case ContentAnalysis => "## 内容分析"
    case CommentSentiment => "## 评论风向"
    case VideoInformation => "## 视频信息"
    case OriginalLink => "## 原始链接"
    case Transcript => "## 完整字幕"
  }

  /** The order in which sections are printed. */
  const SECTIONS: seq<Section> := [
    CoreSummary, KeyTakeaways, TimelineOutline, ContentAnalysis,
    CommentSentiment, VideoInformation, OriginalLink, Transcript]

  function Bullets(items: seq<string>): seq<string> {
    seq(|items|, i requires 0 <= i < |items| => "- " + items[i])
  }

  function Content<D>(doc: Document<D>, s: Section): string {
    match s
    case CoreSummary => doc.coreSummary
    case KeyTakeaways => Unlines(Bullets(doc.keyTakeaways))
    case TimelineOutline => doc.timelineOutline
    case ContentAnalysis => doc.contentAnalysis
    case CommentSentiment => doc.commentSentiment
    case VideoInformation => doc.videoInformation
    case OriginalLink => doc.sourceUrl
    case Transcript => if doc.transcript.Some? then doc.transcript.value else ""
  }

  /** The link is always printed; every other section only when it has content. */
  predicate Printed<D>(doc: Document<D>, s: Section) { s == OriginalLink || Content(doc, s) != "" }

  function SectionText<D>(doc: Document<D>, s: Section): string { Heading(s) + "\n\n" + Content(doc, s) }

  /** The title and the printed ones of the first `k` sections, separated by blank lines. */
  function SectionsUpTo<D>(doc: Document<D>, k: nat): string
    requires k <= |SECTIONS|
  {
    if k == 0 then "# " + doc.title
    else if Printed(doc, SECTIONS[k - 1]) then SectionsUpTo(doc, k - 1) + "\n\n" + SectionText(doc, SECTIONS[k - 1])
    else SectionsUpTo(doc, k - 1)
  }

  function Render<D>(doc: Document<D>, lib: Library<D>): string {
    RenderFrontmatter(doc, lib) + "\n\n" + SectionsUpTo(doc, |SECTIONS|) + "\n"
  }

  // ----- reading the frontmatter

  datatype FieldLine = BlankLine | Field(key: string, raw: string) | Malformed

  function ReadField(line: string): FieldLine {
    if Strip(line) == "" then BlankLine
    else
      var i := FindFrom(line, ": ", 0);
      if i >= 0 then Field(Strip(line[..i]), line[i + 2..])
      else if line != "" && line[|line| - 1] == ':' then Field(Strip(line[..|line| - 1]), "")
      else Malformed
  }

  /** The fields of a frontmatter block; a later line for the same key wins. `None` when a line is malformed. */
  function Fields(lines: seq<string>): Option<map<string, string>> {
    if lines == [] then Some(map[])
    else match Fields(lines[..|lines| - 1])
      case None => None
      case Some(fields) =>
        match ReadField(lines[|lines| - 1])
        case BlankLine => Some(fields)
        case Field(key, raw) => Some(fields[key := raw])
        case Malformed => None
  }

  function Lookup(fields: map<string, string>, key: Key): string {
    if Name(key) in fields then fields[Name(key)] else ""
  }

  /** `int(raw) == 1`, over ASCII digits and no more of them than the interpreter converts. */
  predicate ReadsAsOne(raw: string) {
    var t := Strip(raw);
    ZerosThenOne(if t != "" && t[0] == '+' then t[1..] else t, Json.MAX_DIGITS)
  }

  predicate ZerosThenOne(t: string, most: nat) {
    most > 0 && (
      || t == "1"
      || (|t| > 1 && t[0] == '0' && ZerosThenOne(t[1..], most - 1))
      || (|t| > 2 && t[0] == '0' && t[1] == '_' && ZerosThenOne(t[2..], most - 1)))
  }

  /** A decoded field, a value the reader refuses, or one on which decoding raises. */
  datatype FieldRead<+T> = Good(value: T, whole: bool) | Invalid | Raising

  function ReadText(fields: map<string, string>, key: Key, nesting: nat): FieldRead<string> {
    var raw := Lookup(fields, key);
    if raw == "" then Good("", true)
    else match Json.Loads(raw, nesting)
      case Ok(Str(s, whole), _) => Good(s, whole)
      case Fails => Raising
      case _ => Invalid
  }

  function TagTexts(items: seq<Json.Value>): seq<string>
    requires forall item <- items :: item.Str?
  {
    seq(|items|, i requires 0 <= i < |items| => items[i].s)
  }

  function ReadTags(fields: map<string, string>, nesting: nat): FieldRead<seq<string>> {
    var raw := Lookup(fields, Tags);
    if raw == "" then Good([], true)
    else match Json.Loads(raw, nesting)
      case Ok(List(items), _) =>
        if forall item <- items :: item.Str? then Good(TagTexts(items), forall item <- items :: item.whole) else Invalid
      case Fails => Raising
      case _ => Invalid
  }

  /** Both spellings of a moment occur, bare and as a JSON string; `null` counts as absent. */
  function ReadDate<D>(fields: map<string, string>, key: Key, lib: Library<D>): FieldRead<Option<D>> {
    var raw := Lookup(fields, key);
    if raw == "" || raw == "null" then Good(None, true)
    else
      var loaded := Json.Loads(raw, lib.nesting);
      if loaded.Fails? then Raising
      else
        var text := if loaded.Ok? && loaded.value.Str? then loaded.value.s else raw;
        match lib.read(text) case Some(d) => Good(Some(d), true) case None => Invalid
  }

  const TEXT_KEYS: set<Key> := {
    AnalysisId, SourceUrl, Platform, VideoId, Title, SummaryMode, Author, Language, AsrProvider, AsrModel,
    AsrModelVersion}

  /** The text fields, in the order the reader decodes them. */
  const TEXT_ORDER: seq<Key> := [
    AnalysisId, SourceUrl, Platform, VideoId, Title, SummaryMode, Author, Language, AsrProvider, AsrModel,
    AsrModelVersion]

  const REQUIRED: set<Key> := {AnalysisId, SourceUrl, Platform, VideoId, Title}

  const SUMMARY_MODES: set<string> := {"auto", "standard", "unboxing"}

  /** An absolute HTTP(S) address with a host. */
  predicate IsHttpUrl(url: string) {
    match Urls.Split(url)
    case Address(scheme, netloc) => (scheme == "http" || scheme == "https") && netloc != ""
    case Refused => false
  }

  // ----- reading the sections

  /** The first of the frozen headings, from the `k`th on, that the line equals. */
  function MatchedFrom(line: string, k: nat): Option<Section>
    requires k <= |SECTIONS|
    decreases |SECTIONS| - k
  {
    if k == |SECTIONS| then None
    else if line == Heading(SECTIONS[k]) then Some(SECTIONS[k])
    else MatchedFrom(line, k + 1)
  }

  function Matched(line: string): Option<Section> { MatchedFrom(line, 0) }

  /** The section being read, and the lines gathered so far for each heading seen. */
  datatype Scan = Scan(current: Option<Section>, chunks: map<Section, seq<string>>)

  const UNREAD := Scan(None, map[])

  function ReadLine(scan: Scan, line: string): Scan {
    match Matched(line)
    case Some(s) => Scan(Some(s), scan.chunks[s := []])
    case None =>
      if scan.current.Some? && scan.current.value in scan.chunks then
        scan.(chunks := scan.chunks[scan.current.value := scan.chunks[scan.current.value] + [line]])
      else scan
  }

  function ReadLines(scan: Scan, lines: seq<string>): Scan {
    if lines == [] then scan else ReadLine(ReadLines(scan, lines[..|lines| - 1]), lines[|lines| - 1])
  }

  function Gathered(scan: Scan, s: Section): string {
    if s in scan.chunks then Strip(Unlines(scan.chunks[s])) else ""
  }

  /** The bullets of the takeaways section. */
  function Items(lines: seq<string>): seq<string> {
    if lines == [] then []
    else
      var before, line := Items(lines[..|lines| - 1]), lines[|lines| - 1];
      if StartsWith(line, "- ") then before + [Strip(line[2..])] else before
  }

  function FirstNonBlank(lines: seq<string>): string {
    if lines == [] then "" else if Strip(lines[0]) != "" then lines[0] else FirstNonBlank(lines[1..])
  }

  const ANALYSIS_SECTIONS: set<Section> := {
    CoreSummary, KeyTakeaways, TimelineOutline, ContentAnalysis, CommentSentiment, VideoInformation}

  // ----- the reader

  /** The frontmatter fields and the lines of the body; `None` when the frontmatter is malformed. */
  function Split(text: string): Option<(map<string, string>, seq<string>)> {
    if !StartsWith(text, "---\n") then None
    else
      var end := FindFrom(text, "\n---\n", 4);
      if end < 0 then None
      else match Fields(Lines(text[4..end]))
        case None => None
        case Some(fields) => Some((fields, Lines(text[end + 5..])))
  }

  function Parse<D>(text: string, lib: Library<D>): Outcome<D> {
    match Split(text)
    case None => Rejected(FrontmatterInvalid)
    case Some((fields, body)) => ParseBody(fields, body, lib)
  }

  /** The text fields as decoded. */
  type Texts = map<Key, FieldRead<string>>

  function DecodeTexts(fields: map<string, string>, nesting: nat): (texts: Texts)
    ensures Tags !in texts
  {
    map key | key in TEXT_KEYS :: ReadText(fields, key, nesting)
  }

  function Value(texts: Texts, key: Key): string {
    if key in texts && texts[key].Good? then texts[key].value else ""
  }

  predicate IsWhole(texts: Texts, key: Key) { key in texts && texts[key].Good? ==> texts[key].whole }

  /** How the checks on the fields fail: with the reader's own error, or with another exception. */
  datatype Fault = Refusal(error: ParseError) | Exception

  /** The first text field, from the `k`th on, that is not a string. */
  function TextFault(texts: Texts, k: nat): Option<Fault>
    requires k <= |TEXT_ORDER|
    decreases |TEXT_ORDER| - k
  {
    if k == |TEXT_ORDER| then None
    else if TEXT_ORDER[k] !in texts || texts[TEXT_ORDER[k]].Good? then TextFault(texts, k + 1)
    else if texts[TEXT_ORDER[k]].Raising? then Some(Exception)
    else Some(Refusal(FrontmatterInvalid))
  }

  /** The checks on version and text fields, in the order they are made. */
  function FieldFault(version: string, texts: Texts, lower: string -> string): Option<Fault> {
    if !ReadsAsOne(version) then Some(Refusal(UnknownSchemaVersion))
    else if TextFault(texts, 0).Some? then TextFault(texts, 0)
    else if exists key <- REQUIRED :: Value(texts, key) == "" then Some(Refusal(MissingField))
    else if Urls.Split(Value(texts, SourceUrl)).Refused? then Some(Exception)
    else if !IsHttpUrl(Value(texts, SourceUrl)) then Some(Refusal(MissingField))
    else if Value(texts, Platform) != lower(Value(texts, Platform)) then Some(Refusal(MissingField))
    else None
  }

  /** No line of a file equals a title with a lone surrogate, since a file holds none. */
  predicate TitleStands(texts: Texts, body: seq<string>) {
    IsWhole(texts, Title) && FirstNonBlank(body) == "# " + Value(texts, Title)
  }

  function ParseBody<D>(fields: map<string, string>, body: seq<string>, lib: Library<D>): Outcome<D> {
    ParseDecoded(
      Lookup(fields, SchemaVersion), DecodeTexts(fields, lib.nesting), ReadTags(fields, lib.nesting),
      ReadDate(fields, PublishedAt, lib), ReadDate(fields, AnalyzedAt, lib), body, lib.lower)
  }

  function ParseDecoded<D>(
      version: string, texts: Texts, tags: FieldRead<seq<string>>, published: FieldRead<Option<D>>,
      analyzed: FieldRead<Option<D>>, body: seq<string>, lower: string -> string): Outcome<D>
  {
    match FieldFault(version, texts, lower)
    case Some(Exception) => Raised
    case Some(Refusal(error)) => Rejected(error)
    case None => ParseRest(texts, tags, published, analyzed, body, ReadLines(UNREAD, body))
  }

  /** The checks on the body and the mode; tags and moments are decoded last, one after the other. */
  function ParseRest<D>(
      texts: Texts, tags: FieldRead<seq<string>>, published: FieldRead<Option<D>>, analyzed: FieldRead<Option<D>>,
      body: seq<string>, scan: Scan): Outcome<D>
  {
    if !TitleStands(texts, body) then Rejected(BodyStructureInvalid)
    else if OriginalLink !in scan.chunks then Rejected(BodyStructureInvalid)
    else if Value(texts, SummaryMode) !in SUMMARY_MODES then Rejected(MissingField)
    else if tags.Raising? then Raised
    else if tags.Invalid? then Rejected(FrontmatterInvalid)
    else if published.Raising? then Raised
    else if published.Invalid? then Rejected(MissingField)
    else if analyzed.Raising? then Raised
    else if analyzed.Invalid? || analyzed.value.None? then Rejected(MissingField)
    else Report(Assemble(texts, tags.value, tags.whole, published.value, analyzed.value.value, scan))
  }

  function Assemble<D>(
      texts: Texts, tags: seq<string>, whole: bool, published: Option<D>, analyzed: D, scan: Scan): Parsed<D>
  {
    var doc := Document(
      Value(texts, AnalysisId), Value(texts, SourceUrl), Value(texts, Platform), Value(texts, VideoId),
      Value(texts, Title), Value(texts, Author), published, analyzed,
      Value(texts, SummaryMode), Value(texts, Language),
      Value(texts, AsrProvider), Value(texts, AsrModel), Value(texts, AsrModelVersion), tags,
      Gathered(scan, CoreSummary), Items(Lines(Gathered(scan, KeyTakeaways))),
      Gathered(scan, TimelineOutline), Gathered(scan, ContentAnalysis),
      Gathered(scan, CommentSentiment), Gathered(scan, VideoInformation),
      if Gathered(scan, Transcript) == "" then None else Some(Gathered(scan, Transcript)));
    Parsed(
      doc, exists s <- ANALYSIS_SECTIONS :: Gathered(scan, s) != "",
      (set key | key in texts && !IsWhole(texts, key)) + if whole then {} else {Tags})
  }

  // ----- the loops of the printer and the reader

  method RenderSections<D>(doc: Document<D>) returns (text: string)
    ensures text == SectionsUpTo(doc, |SECTIONS|)
  {
    text := "# " + doc.title;
    for k := 0 to |SECTIONS|
      invariant text == SectionsUpTo(doc, k)
    {
      var s := SECTIONS[k];
      if Printed(doc, s) {
        text := text + "\n\n" + (Heading(s) + "\n\n" + Content(doc, s));
      }
    }
  }

  lemma {:induction false} MalformedStays(lines: seq<string>, k: nat)
    requires k <= |lines| && Fields(lines[..k]).None?
    ensures Fields(lines).None?
    decreases |lines|
  {
    if k < |lines| {
      var front := lines[..|lines| - 1];
      assert front[..k] == lines[..k];
      MalformedStays(front, k);
    } else {
      assert lines[..k] == lines;
    }
  }

  method ParseFrontmatter(block: string) returns (result: Option<map<string, string>>)
    ensures result == Fields(Lines(block))
  {
    var lines := Lines(block);
    var fields: map<string, string> := map[];
    for k := 0 to |lines|
      invariant Fields(lines[..k]) == Some(fields)
    {
      assert lines[..k + 1][..k] == lines[..k];
      match ReadField(lines[k]) {
        case BlankLine =>
        case Field(key, raw) => fields := fields[key := raw];
        case Malformed =>
          MalformedStays(lines, k + 1);
          return None;
      }
    }
    assert lines[..|lines|] == lines;
    return Some(fields);
  }

  method MatchHeading(line: string) returns (matched: Option<Section>)
    ensures matched == Matched(line)
  {
    for k := 0 to |SECTIONS|
      invariant Matched(line) == MatchedFrom(line, k)
    {
      if line == Heading(SECTIONS[k]) {
        return Some(SECTIONS[k]);
      }
    }
    return None;
  }

  /** The content of every section, and the headings that occur. */
  method ParseSections(body: string) returns (sections: map<Section, string>, present: set<Section>)
    ensures present == ReadLines(UNREAD, Lines(body)).chunks.Keys
    ensures forall s :: s in sections && sections[s] == Gathered(ReadLines(UNREAD, Lines(body)), s)
  {
    var lines := Lines(body);
    var current: Option<Section> := None;
    var chunks: map<Section, seq<string>> := map[];
    present := {};
    for k := 0 to |lines|
      invariant Scan(current, chunks) == ReadLines(UNREAD, lines[..k])
      invariant present == chunks.Keys && (current.Some? ==> current.value in present)
    {
      assert lines[..k + 1][..k] == lines[..k];
      var matched := MatchHeading(lines[k]);
      if matched.Some? {
        current := matched;
        present := present + {matched.value};
        chunks := chunks[matched.value := []];
      } else if current.Some? {
        chunks := chunks[current.value := chunks[current.value] + [lines[k]]];
      }
    }
    assert lines[..|lines|] == lines;
    sections := map s: Section | true :: if s in chunks then Strip(Unlines(chunks[s])) else "";
  }

  // ----- line ends

  /** The line-end tolerance of the reader: CRLF and CR both become LF. */
  function Normalized(text: string): string {
    if text == "" then ""
    else if text[0] == '\r' then "\n" + Normalized(if |text| > 1 && text[1] == '\n' then text[2..] else text[1..])
    else [text[0]] + Normalized(text[1..])
  }

  function Decode<D>(text: string, lib: Library<D>): Outcome<D> { Parse(Normalized(text), lib) }

  /** The same text with every line end written as CRLF. */
  function WithCrlf(text: string): string {
    if text == "" then "" else (if text[0] == NL then "\r\n" else [text[0]]) + WithCrlf(text[1..])
  }
}
