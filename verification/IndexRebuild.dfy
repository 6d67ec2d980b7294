/**
 The rescan of the report folder (storage/rebuild.py): files in sorted order are examined, then
 reconciled with the index in batches of one transaction each; documents that no file claimed leave
 the index at the end.
 */
module IndexRebuild {
  import opened Wrappers
  import opened ReportIndex
  import ReportFormat

  datatype IssueCode =
    | FrontmatterInvalid | UnknownSchemaVersion | MissingField | BodyStructureInvalid | EncodingError | EmptyBody
    | DuplicateAnalysisId

  datatype Issue = Issue(code: IssueCode, path: Path)

  /** The codes that concern one file alone. */
  const DIAGNOSTICS: set<IssueCode> := {
    FrontmatterInvalid, UnknownSchemaVersion, MissingField, BodyStructureInvalid, EncodingError, EmptyBody}

  /** A report with its moments as epoch seconds. */
  type Report = ReportFormat.Parsed<real>

  /** What the report reader makes of the bytes of a file: a report, its own error, or any other exception. */
  datatype Reading = Readable(report: Report) | Malformed(code: IssueCode) | Raises

  /** The report reader, and the lower-casing that the entry checks share with it. */
  datatype Reader = Reader(parse: string -> Reading, lower: string -> string)

  datatype DiskFile = Unreadable | Bytes(raw: string)

  type Disk = map<Path, DiskFile>

  /** What examining one file gave, before any transaction. */
  datatype Finding = NotRead | Broken(code: IssueCode) | Raising | Found(raw: string, report: Report)

  /** A file that has gone since it was listed reads as unreadable. Only the reader's own error is caught. */
  function Examine(disk: Disk, read: Reader, path: Path): Finding {
    if path !in disk || disk[path].Unreadable? then NotRead
    else match read.parse(disk[path].raw)
      case Malformed(code) => Broken(code)
      case Raises => Raising
      case Readable(report) => Found(disk[path].raw, report)
  }

  function EntryOf(report: Report, path: Path, raw: string): Entry {
    var doc := report.doc;
    Entry(
      doc.analysisId, doc.title, doc.platform, doc.author, doc.videoId, doc.sourceUrl, doc.publishedAt, doc.analyzedAt,
      doc.summaryMode, doc.language, doc.asrProvider, doc.asrModel, doc.asrModelVersion, doc.tags,
      Preview(doc.coreSummary), path, Sha256(raw), Rescan)
  }

  function Preview(summary: string): (preview: string)
    ensures |preview| <= 200 && preview <= summary
  {
    if |summary| <= 200 then summary else summary[..200]
  }

  function BodyOf(report: Report): Body {
    Body(report.doc.coreSummary, if report.doc.transcript.Some? then report.doc.transcript.value else "")
  }

  /** The checks made when an index entry is built; a violation raises. */
  predicate Acceptable(e: Entry, lower: string -> string) {
    && e.jobId != "" && e.title != "" && e.platform != "" && e.videoId != "" && e.sourceUrl != ""
      && e.relativePath != ""
    && |e.summaryPreview| <= 200
    && e.summaryMode in ReportFormat.SUMMARY_MODES
    && ReportFormat.IsHttpUrl(e.sourceUrl)
    && e.platform == lower(e.platform)
    && e.analyzedAt > 0.0 && (e.publishedAt.Some? ==> e.publishedAt.value > 0.0)
  }

  /** Whether the report can be indexed: no field holds a lone surrogate, and its entry passes the checks. */
  predicate Indexable(report: Report, path: Path, raw: string, read: Reader) {
    report.lone == {} && Acceptable(EntryOf(report, path, raw), read.lower)
  }

  // ----- one file

  /** The document of this file is in the index as it is now. */
  predicate UpToDate(t: Tables, job: JobId, path: Path, raw: string) {
    && job in t.docs && t.docs[job].status == Active
    && t.docs[job].entry.relativePath == path && t.docs[job].entry.contentHash == Sha256(raw)
  }

  function RecordedCodes(finding: Finding, duplicate: bool): set<IssueCode> {
    match finding
    case NotRead => {FrontmatterInvalid}
    case Broken(code) => {code}
    case Raising => {}
    case Found(_, report) =>
      (if report.hasAnalysis then {} else {EmptyBody}) + (if duplicate then {DuplicateAnalysisId} else {})
  }

  /** An unreadable file resolves nothing; a malformed one leaves an earlier duplicate issue open. */
  function ResolvedCodes(finding: Finding, duplicate: bool): set<IssueCode> {
    match finding
    case NotRead | Raising => {}
    case Broken(code) => DIAGNOSTICS - {code}
    case Found(_, _) => DIAGNOSTICS + {DuplicateAnalysisId} - RecordedCodes(finding, duplicate)
  }

  function IssuesAfter(issues: set<Issue>, path: Path, finding: Finding, duplicate: bool): set<Issue> {
    var resolved, recorded := ResolvedCodes(finding, duplicate), RecordedCodes(finding, duplicate);
    (set i | i in issues && !(i.path == path && i.code in resolved)) + (set c | c in recorded :: Issue(c, path))
  }

  datatype Counts = Counts(scanned: nat, indexed: nat, current: nat, quarantined: nat, duplicates: nat)

  const ZERO := Counts(0, 0, 0, 0, 0)

  function Sum(a: Counts, b: Counts): Counts {
    Counts(a.scanned + b.scanned, a.indexed + b.indexed, a.current + b.current,
      a.quarantined + b.quarantined, a.duplicates + b.duplicates)
  }

  /** A rescan in progress: both tables, the winners so far, the files seen, and whether the rescan failed. */
  datatype Scan = Scan(
    index: Tables, issues: set<Issue>, claims: map<JobId, Path>, scanned: seq<Path>, counts: Counts, failed: bool)

  function Begun(index: Tables, issues: set<Issue>): Scan { Scan(index, issues, map[], [], ZERO, false) }

  function Seen(s: Scan, path: Path, finding: Finding, duplicate: bool): Scan {
    s.(issues := IssuesAfter(s.issues, path, finding, duplicate), scanned := s.scanned + [path])
  }

  /** An exception of the reader, or an entry that cannot be indexed, ends the rescan. */
  function Step(s: Scan, path: Path, finding: Finding, read: Reader): Scan {
    if s.failed then s
    else match finding
      case Raising => s.(failed := true)
      case Found(raw, report) =>
        var job := report.doc.analysisId;
        if job in s.claims then
          Seen(s, path, finding, true).(counts := Sum(s.counts, Counts(1, 0, 0, 0, 1)))
        else
          var claimed := Seen(s, path, finding, false).(claims := s.claims[job := path]);
          var entry := EntryOf(report, path, raw);
          if UpToDate(s.index, job, path, raw) then claimed.(counts := Sum(s.counts, Counts(1, 0, 1, 0, 0)))
          else if !Indexable(report, path, raw, read) then claimed.(failed := true)
          else claimed.(
            index := Written(s.index, Upserted(entry, BodyOf(report))),
            counts := Sum(s.counts, Counts(1, 1, 0, 0, 0)))
      case _ =>
        Seen(s, path, finding, false).(counts := Sum(s.counts, Counts(1, 0, 0, 1, 0)))
  }

  function ScanFiles(s: Scan, files: seq<Path>, disk: Disk, read: Reader): Scan {
    if files == [] then s
    else
      var last := files[|files| - 1];
      Step(ScanFiles(s, files[..|files| - 1], disk, read), last, Examine(disk, read, last), read)
  }

  lemma {:induction false} ScanAppends(s: Scan, a: seq<Path>, b: seq<Path>, disk: Disk, read: Reader)
    ensures ScanFiles(s, a + b, disk, read) == ScanFiles(ScanFiles(s, a, disk, read), b, disk, read)
  {
    if b == [] {
      assert a + b == a;
    } else {
      assert (a + b)[..|a + b| - 1] == a + b[..|b| - 1];
      ScanAppends(s, a, b[..|b| - 1], disk, read);
    }
  }

  lemma {:induction false} FailureStays(s: Scan, files: seq<Path>, disk: Disk, read: Reader)
    requires s.failed
    ensures ScanFiles(s, files, disk, read) == s
  {
    if files != [] {
      FailureStays(s, files[..|files| - 1], disk, read);
    }
  }

  // ----- the absence pass

  predicate Claimed(t: Tables, claims: map<JobId, Path>, job: JobId) {
    job in t.docs && job in claims && claims[job] == t.docs[job].entry.relativePath
  }

  /** Only a document whose file is gone from the folder is deleted, and only on request. */
  predicate Deleted(t: Tables, claims: map<JobId, Path>, scanned: set<Path>, purge: bool, job: JobId) {
    job in t.docs && !Claimed(t, claims, job) && purge && t.docs[job].entry.relativePath !in scanned
  }

  /** The tables once the unclaimed ones of `jobs` have left the index. */
  function Swept(t: Tables, claims: map<JobId, Path>, scanned: set<Path>, purge: bool, jobs: set<JobId>): Tables {
    var leaving := set j | j in jobs && j in t.docs && !Claimed(t, claims, j);
    var docs := map j | j in t.docs && !(j in leaving && Deleted(t, claims, scanned, purge, j)) ::
      if j in leaving then t.docs[j].(status := Missing) else t.docs[j];
    Tables(docs, t.fts - (set j | j in leaving :: t.docs[j].id), t.nextId)
  }

  function MarkAbsent(t: Tables, claims: map<JobId, Path>, scanned: seq<Path>, purge: bool): Tables {
    Swept(t, claims, Elements(scanned), purge, t.docs.Keys)
  }

  function Elements(files: seq<Path>): set<Path> { set p | p in files }

  function ResolveAbsent(issues: set<Issue>, scanned: seq<Path>): set<Issue> {
    set i | i in issues && i.path in scanned
  }

  // ----- the whole rescan

  datatype Result = Aborted | Completed(index: Tables, issues: set<Issue>, counts: Counts)

  function Rescanned(
      index: Tables, issues: set<Issue>, disk: Disk, files: seq<Path>, read: Reader, purge: bool): Result
  {
    var s := ScanFiles(Begun(index, issues), files, disk, read);
    if s.failed then Aborted
    else Completed(MarkAbsent(s.index, s.claims, s.scanned, purge), ResolveAbsent(s.issues, s.scanned), s.counts)
  }
}
