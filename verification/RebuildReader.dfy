/** The rescan with the real report reader, and files that no rescan of their folder survives. */
module RebuildReader {
  import opened Wrappers
  import opened ReportIndex
  import opened IndexRebuild
  import opened RebuildLaws
  import opened RebuildTheorems
  import Json
  import ReportFaults
  import ReportFormat
  import ReportLaws
  import Text
  import Urls

  type Library = ReportFormat.Library<real>

  type Document = ReportFormat.Document<real>

  function CodeOf(error: ReportFormat.ParseError): IssueCode {
    match error
    case FrontmatterInvalid => FrontmatterInvalid
    case UnknownSchemaVersion => UnknownSchemaVersion
    case MissingField => MissingField
    case BodyStructureInvalid => BodyStructureInvalid
  }

  /**
   The report reader as the rescan uses it. A report whose id holds a lone surrogate counts as one on which the
   reader raises: its document is looked up in the same batch, and the lookup raises.
   */
  function ReadingOf(outcome: ReportFormat.Outcome<real>): Reading {
    match outcome
    case Report(parsed) => if ReportFormat.AnalysisId in parsed.lone then Raises else Readable(parsed)
    case Rejected(error) => Malformed(CodeOf(error))
    case Raised => Raises
  }

  function ReadReport(raw: string, lib: Library): Reading { ReadingOf(ReportFormat.Decode(raw, lib)) }

  function ReportReader(lib: Library): Reader { Reader(raw => ReadReport(raw, lib), lib.lower) }

  lemma ReadsText(text: string, lib: Library)
    requires '\r' !in text
    ensures ReadReport(text, lib) == ReadingOf(ReportFormat.Parse(text, lib))
  {
    ReportLaws.LineEndsDoNotMatter(text, lib);
  }

  predicate AfterEpoch(doc: Document) {
    doc.analyzedAt > 0.0 && (doc.publishedAt.Some? ==> doc.publishedAt.value > 0.0)
  }

  lemma SoundIsIndexable(report: Report, path: Path, raw: string, read: Reader)
    requires path != "" && ReportLaws.Sound(report, read.lower)
    ensures Indexable(report, path, raw, read) <==> report.lone == {} && AfterEpoch(report.doc)
  {
    ReportLaws.ValidIsFilled(report.doc);
  }

  /** Of the reports it accepts only those with a lone surrogate or a moment up to the epoch cannot be indexed. */
  lemma AcceptedReportsAreIndexable(raw: string, lib: Library, path: Path)
    requires path != "" && ReadReport(raw, lib).Readable?
    ensures var report := ReadReport(raw, lib).report;
      Indexable(report, path, raw, ReportReader(lib)) <==> report.lone == {} && AfterEpoch(report.doc)
  {
    ReportLaws.AcceptedReportsAreSound(ReportFormat.Normalized(raw), lib);
    SoundIsIndexable(ReadReport(raw, lib).report, path, raw, ReportReader(lib));
  }

  // ----- files that abort every rescan

  /** A listed file on which the reader raises aborts every rescan, from any index and without winning an id. */
  lemma RaisingFileAborts(
      index: Tables, issues: set<Issue>, disk: Disk, files: seq<Path>, read: Reader, purge: bool, i: nat)
    requires i < |files| && Examine(disk, read, files[i]).Raising?
    ensures Rescanned(index, issues, disk, files, read, purge) == Aborted
  {
    if !ScanFiles(Begun(index, issues), files, disk, read).failed {
      CompletedScanRead(Begun(index, issues), files, disk, read);
    }
  }

  /** A report with LF line ends that this reader raises on. */
  lemma RaisedIsRaising(text: string, lib: Library)
    requires ReportFormat.Parse(text, lib) == ReportFormat.Raised && '\r' !in text
    ensures ReadReport(text, lib) == Raises
  {
    ReadsText(text, lib);
  }

  /** A bracket without its partner in the address. */
  lemma LoneBracketRaises(doc: Document, netloc: string, lib: Library)
    requires ReportFormat.Lawful(lib) && ReportLaws.Filled(doc) && doc.sourceUrl == "http://" + netloc
    requires Urls.Free(netloc, {'/', '?', '#'}) && ('[' in netloc <==> ']' !in netloc)
    requires '\r' !in ReportFormat.Render(doc, lib)
    ensures ReadReport(ReportFormat.Render(doc, lib), lib) == Raises
  {
    Urls.LoneBracketRaises(netloc);
    ReportFaults.RefusedAddressRaises(doc, lib);
    RaisedIsRaising(ReportFormat.Render(doc, lib), lib);
  }

  /** An integer of too many digits, or brackets nested too deep, in any field but the version. */
  lemma RaisingValueRaises(doc: Document, key: ReportFormat.Key, raw: string, lib: Library)
    requires ReportFormat.Lawful(lib) && ReportLaws.SchemaValid(doc)
    requires ReportFormat.Parse(ReportFormat.Render(doc, lib), lib).Report?
    requires key != ReportFormat.SchemaVersion && Text.SingleLine(raw) && Json.TooMuch(raw, lib.nesting)
    requires '\r' !in ReportFaults.Amended(doc, lib, key, raw)
    ensures ReadReport(ReportFaults.Amended(doc, lib, key, raw), lib) == Raises
  {
    Json.TooMuchRaises(raw, lib.nesting);
    ReportFaults.AmendedReportRaises(doc, lib, key, raw);
    RaisedIsRaising(ReportFaults.Amended(doc, lib, key, raw), lib);
  }

  /** A lone surrogate in the id makes the reader raise; in another free field it keeps the report from the index. */
  lemma LoneSurrogateIsRefused(doc: Document, key: ReportFormat.Key, raw: string, lib: Library, path: Path)
    requires ReportFormat.Lawful(lib) && ReportLaws.SchemaValid(doc)
    requires ReportFormat.Parse(ReportFormat.Render(doc, lib), lib).Report?
    requires ReportFaults.Free(key) && ReportFaults.HoldsLone(raw, lib.nesting)
    requires '\r' !in ReportFaults.Amended(doc, lib, key, raw)
    ensures var text := ReportFaults.Amended(doc, lib, key, raw);
      var reading := ReadReport(text, lib);
      if key == ReportFormat.AnalysisId then reading == Raises
      else reading.Readable? && !Indexable(reading.report, path, text, ReportReader(lib))
  {
    ReportFaults.LoneSurrogateIsRead(doc, lib, key, raw);
    ReadsText(ReportFaults.Amended(doc, lib, key, raw), lib);
  }
}
