/**
 The default list of the web API and the bridge that checks it (web/app.py, mcp/listing.py): jobs that are
 not completed, then indexed reports, paged as one list out of one snapshot of the database.
 */
module UnifiedList {
  import opened Wrappers
  import Text
  import Jobs
  import ReportIndex

  // ----- the LIKE patterns

  const ESCAPE: char := '\\'

  /** `_escape_like`: the wildcards and the escape character itself are escaped. */
  function EscapeLike(s: string): string {
    if s == "" then ""
    else (if s[0] in {ESCAPE, '%', '_'} then [ESCAPE, s[0]] else [s[0]]) + EscapeLike(s[1..])
  }

  /** `text LIKE pattern ESCAPE '\'`, on text and pattern of one case. */
  predicate Like(text: string, pattern: string)
    decreases |pattern|, |text|
  {
    if pattern == "" then text == ""
    else if pattern[0] == '%' then Like(text, pattern[1..]) || (text != "" && Like(text[1..], pattern))
    else if pattern[0] == ESCAPE then
      |pattern| > 1 && text != "" && text[0] == pattern[1] && Like(text[1..], pattern[2..])
    else text != "" && (pattern[0] == '_' || text[0] == pattern[0]) && Like(text[1..], pattern[1..])
  }

  predicate Within(part: string, text: string) { part <= text || (text != "" && Within(part, text[1..])) }

  lemma {:induction false} AnyTail(text: string)
    ensures Like(text, "%")
  {
    assert "%"[1..] == "";
    if text != "" {
      AnyTail(text[1..]);
    }
  }

  lemma {:induction false} LikePrefix(text: string, part: string)
    ensures Like(text, EscapeLike(part) + "%") <==> part <= text
    decreases |part|
  {
    if part == "" {
      assert EscapeLike(part) + "%" == "%";
      AnyTail(text);
    } else {
      var rest := EscapeLike(part[1..]) + "%";
      if part[0] in {ESCAPE, '%', '_'} {
        assert EscapeLike(part) + "%" == [ESCAPE, part[0]] + rest;
        assert ([ESCAPE, part[0]] + rest)[2..] == rest;
      } else {
        assert EscapeLike(part) + "%" == [part[0]] + rest;
        assert ([part[0]] + rest)[1..] == rest;
      }
      if text != "" {
        LikePrefix(text[1..], part[1..]);
        assert part == [part[0]] + part[1..] && text == [text[0]] + text[1..];
        assert part <= text <==> part[0] == text[0] && part[1..] <= text[1..];
      }
    }
  }

  /** User text matches literally: the pattern finds exactly the texts it occurs in. */
  lemma {:induction false} LikeMeansWithin(text: string, part: string)
    ensures Like(text, "%" + EscapeLike(part) + "%") <==> Within(part, text)
  {
    var pattern := "%" + EscapeLike(part) + "%";
    assert pattern[1..] == EscapeLike(part) + "%";
    LikePrefix(text, part);
    if text != "" {
      LikeMeansWithin(text[1..], part);
    }
  }

  // ----- rows and filters

  datatype JobRow = JobRow(
    id: nat, jobId: string, status: Jobs.JobStatus, stage: Option<Jobs.JobStatus>, progress: int,
    errorCode: Option<string>, createdAt: real, title: Option<string>, platform: Option<string>, url: string)

  datatype ReportRow = ReportRow(
    id: nat, jobId: string, analysisId: string, title: string, platform: string, sourceUrl: string,
    analyzedAt: real, status: ReportIndex.DocStatus)

  /** One read transaction: nothing committed later is visible in it. */
  datatype Snapshot = Snapshot(jobs: seq<JobRow>, reports: seq<ReportRow>)

  datatype Filters = Filters(platform: Option<string>, query: Option<string>)

  predicate Mentions(value: string, query: string) {
    Like(Text.Lower(value), "%" + EscapeLike(Text.Lower(Text.Strip(query))) + "%")
  }

  predicate Blank(s: string) { Text.Strip(s) == "" }

  predicate JobListed(j: JobRow, f: Filters) {
    && j.status != Jobs.Completed
    && (f.platform.Some? && !Blank(f.platform.value) ==>
          j.platform.Some? && Text.Lower(j.platform.value) == Text.Lower(Text.Strip(f.platform.value)))
    && (f.query.Some? && !Blank(f.query.value) ==>
          (j.title.Some? && Mentions(j.title.value, f.query.value)) || Mentions(j.url, f.query.value))
  }

  predicate Unfinished(jobs: seq<JobRow>, jobId: string) {
    exists i :: 0 <= i < |jobs| && jobs[i].jobId == jobId && jobs[i].status != Jobs.Completed
  }

  predicate ReportListed(r: ReportRow, jobs: seq<JobRow>, f: Filters) {
    && r.status in {ReportIndex.Active, ReportIndex.Stale}
    && (f.platform.Some? ==> Text.Lower(r.platform) == Text.Lower(f.platform.value))
    && (f.query.Some? && !Blank(f.query.value) ==>
          Mentions(r.title, f.query.value) || Mentions(r.sourceUrl, f.query.value))
    && !Unfinished(jobs, r.analysisId)
  }

  // ----- order

  /** Rank ascending, then time descending, then row id descending. */
  datatype SortKey = SortKey(rank: int, time: real, id: nat)

  predicate Before(a: SortKey, b: SortKey) {
    a.rank < b.rank || (a.rank == b.rank && (a.time > b.time || (a.time == b.time && a.id > b.id)))
  }

  function JobKey(j: JobRow): SortKey { SortKey(if Jobs.Terminal(j.status) then 1 else 0, j.createdAt, j.id) }

  function ReportKey(r: ReportRow): SortKey { SortKey(0, r.analyzedAt, r.id) }

  function Inserted<T>(x: T, rows: seq<T>, key: T -> SortKey): seq<T> {
    if rows == [] then [x]
    else if Before(key(x), key(rows[0])) then [x] + rows
    else [rows[0]] + Inserted(x, rows[1..], key)
  }

  function Sorted<T>(rows: seq<T>, key: T -> SortKey): seq<T> {
    if rows == [] then [] else Inserted(rows[0], Sorted(rows[1..], key), key)
  }

  function Kept<T>(rows: seq<T>, keep: T -> bool): seq<T> {
    if rows == [] then [] else (if keep(rows[0]) then [rows[0]] else []) + Kept(rows[1..], keep)
  }

  ghost predicate Ordered<T>(rows: seq<T>, key: T -> SortKey) {
    forall i, j :: 0 <= i < j < |rows| ==> Before(key(rows[i]), key(rows[j]))
  }

  ghost predicate DistinctKeys<T>(rows: seq<T>, key: T -> SortKey) {
    forall i, j :: 0 <= i < j < |rows| ==> key(rows[i]) != key(rows[j])
  }

  lemma {:induction false} InsertedRows<T>(x: T, rows: seq<T>, key: T -> SortKey)
    ensures multiset(Inserted(x, rows, key)) == multiset{x} + multiset(rows)
  {
    if rows != [] {
      assert rows == [rows[0]] + rows[1..];
      if !Before(key(x), key(rows[0])) {
        InsertedRows(x, rows[1..], key);
      }
    }
  }

  lemma {:induction false} SortedRows<T>(rows: seq<T>, key: T -> SortKey)
    ensures multiset(Sorted(rows, key)) == multiset(rows)
  {
    if rows != [] {
      SortedRows(rows[1..], key);
      InsertedRows(rows[0], Sorted(rows[1..], key), key);
      assert rows == [rows[0]] + rows[1..];
    }
  }

  lemma {:induction false} InsertedOrder<T>(x: T, rows: seq<T>, key: T -> SortKey)
    requires Ordered(rows, key) && forall y | y in rows :: key(y) != key(x)
    ensures Ordered(Inserted(x, rows, key), key)
  {
    if rows == [] {
    } else if Before(key(x), key(rows[0])) {
    } else {
      var rest := Inserted(x, rows[1..], key);
      InsertedOrder(x, rows[1..], key);
      InsertedRows(x, rows[1..], key);
      forall i | 0 <= i < |rest| ensures Before(key(rows[0]), key(rest[i])) {
        assert rest[i] in multiset(rest);
        if rest[i] != x {
          assert rest[i] in rows[1..];
        } else {
          assert rows[0] in rows;
        }
      }
    }
  }

  lemma {:induction false} SortedOrder<T>(rows: seq<T>, key: T -> SortKey)
    requires DistinctKeys(rows, key)
    ensures Ordered(Sorted(rows, key), key)
  {
    if rows != [] {
      assert forall i, j :: 0 <= i < j < |rows[1..]| ==> key(rows[1..][i]) != key(rows[1..][j]);
      SortedOrder(rows[1..], key);
      SortedRows(rows[1..], key);
      forall y | y in Sorted(rows[1..], key) ensures key(y) != key(rows[0]) {
        assert y in multiset(Sorted(rows[1..], key));
        assert y in rows[1..];
        var i :| 0 <= i < |rows[1..]| && rows[1..][i] == y;
        assert key(rows[0]) != key(rows[i + 1]);
      }
      InsertedOrder(rows[0], Sorted(rows[1..], key), key);
    }
  }

  // ----- the two segments and the page

  function JobSegment(db: Snapshot, f: Filters): seq<JobRow> {
    Sorted(Kept(db.jobs, (j: JobRow) => JobListed(j, f)), JobKey)
  }

  function ReportSegment(db: Snapshot, f: Filters): seq<ReportRow> {
    Sorted(Kept(db.reports, (r: ReportRow) => ReportListed(r, db.jobs, f)), ReportKey)
  }

  /** `OFFSET offset LIMIT limit`. */
  function Slice<T>(rows: seq<T>, offset: nat, limit: nat): seq<T> {
    if offset >= |rows| then [] else if offset + limit <= |rows| then rows[offset..offset + limit] else rows[offset..]
  }

  const JOB := "job"
  const HISTORY := "history"

  /** A row of the response, with its segment and its status under their wire names. */
  datatype Item = Item(
    kind: string, jobId: string, status: string, progress: int, stage: Option<string>, errorCode: Option<string>,
    createdAt: Option<real>, title: Option<string>, platform: Option<string>, url: Option<string>)

  datatype Response = Response(
    items: seq<Item>, total: int, jobsTotal: int, historyTotal: int, limit: int, offset: int)

  function StatusName(s: Jobs.JobStatus): string {
    match s
    case Queued => "queued"
    case FetchingMetadata => "fetching_metadata"
    case FetchingSubtitles => "fetching_subtitles"
    case DownloadingAudio => "downloading_audio"
    case Transcribing => "transcribing"
    case WaitingForModel => "waiting_for_model"
    case CleaningTranscript => "cleaning_transcript"
    case Chunking => "chunking"
    case SummarizingChunks => "summarizing_chunks"
    case GeneratingReport => "generating_report"
    case Indexing => "indexing"
    case RetryWait => "retry_wait"
    case Completed => "completed"
    case Failed => "failed"
    case Cancelled => "cancelled"
  }

  function JobItem(j: JobRow): Item {
    Item(JOB, j.jobId, StatusName(j.status), j.progress,
      if j.stage.Some? then Some(StatusName(j.stage.value)) else None, j.errorCode,
      Some(j.createdAt), j.title, j.platform, Some(j.url))
  }

  function ReportItem(r: ReportRow): Item {
    Item(HISTORY, r.jobId, StatusName(Jobs.Completed), 100, None, None, None,
      Some(r.title), Some(r.platform), Some(r.sourceUrl))
  }

  function Mapped<T, U>(rows: seq<T>, f: T -> U): (r: seq<U>)
    ensures |r| == |rows| && forall i :: 0 <= i < |rows| ==> r[i] == f(rows[i])
  {
    seq(|rows|, i requires 0 <= i < |rows| => f(rows[i]))
  }

  /** The whole list: the job segment, then the report segment. */
  function WholeList(db: Snapshot, f: Filters): seq<Item> {
    Mapped(JobSegment(db, f), JobItem) + Mapped(ReportSegment(db, f), ReportItem)
  }

  // ----- the query

  lemma {:induction false} InsertedAt<T>(x: T, rows: seq<T>, key: T -> SortKey, p: nat)
    requires p <= |rows| && (p < |rows| ==> Before(key(x), key(rows[p])))
    requires forall i | 0 <= i < p :: !Before(key(x), key(rows[i]))
    ensures Inserted(x, rows, key) == rows[..p] + [x] + rows[p..]
  {
    if p > 0 {
      assert forall i | 0 <= i < p - 1 :: rows[1..][i] == rows[i + 1];
      InsertedAt(x, rows[1..], key, p - 1);
      assert [rows[0]] + (rows[1..][..p - 1] + [x] + rows[1..][p - 1..]) == rows[..p] + [x] + rows[p..];
    }
  }

  /** One row into the ordered result. */
  method Place<T>(x: T, rows: seq<T>, key: T -> SortKey) returns (placed: seq<T>)
    ensures placed == Inserted(x, rows, key)
  {
    var p := 0;
    while p < |rows| && !Before(key(x), key(rows[p]))
      invariant p <= |rows| && forall i | 0 <= i < p :: !Before(key(x), key(rows[i]))
    {
      p := p + 1;
    }
    InsertedAt(x, rows, key, p);
    return rows[..p] + [x] + rows[p..];
  }

  /**
   A filtered, ordered and counted query over one table: the rows that pass are counted and put in order,
   then a window of at most `limit` rows is taken behind the first `offset` ones.
   */
  method Select<T>(table: seq<T>, keep: T -> bool, key: T -> SortKey, limit: nat, offset: nat)
    returns (rows: seq<T>, total: nat)
    ensures rows == Slice(Sorted(Kept(table, keep), key), offset, limit)
    ensures total == |Sorted(Kept(table, keep), key)|
  {
    var result: seq<T> := [];
    total := 0;
    for k := |table| downto 0
      invariant result == Sorted(Kept(table[k..], keep), key) && total == |result|
    {
      SelectedFrom(table, k, keep, key);
      if keep(table[k]) {
        result := Place(table[k], result, key);
        total := total + 1;
      }
    }
    assert table[0..] == table;
    rows := [];
    var i := offset;
    while i < |result| && |rows| < limit
      invariant offset <= i && (i <= |result| || rows == []) && |rows| == i - offset && |rows| <= limit
      invariant i <= |result| ==> rows == result[offset..i]
    {
      rows := rows + [result[i]];
      i := i + 1;
    }
  }

  /** The result over the rows from `k` on, in terms of that over the rows behind it. */
  lemma SelectedFrom<T>(table: seq<T>, k: nat, keep: T -> bool, key: T -> SortKey)
    requires k < |table|
    ensures var rest := Sorted(Kept(table[k + 1..], keep), key);
      && (keep(table[k]) ==>
            Sorted(Kept(table[k..], keep), key) == Inserted(table[k], rest, key)
            && |Inserted(table[k], rest, key)| == |rest| + 1)
      && (!keep(table[k]) ==> Sorted(Kept(table[k..], keep), key) == rest)
  {
    var rows, kept := table[k..], Kept(table[k + 1..], keep);
    assert rows[0] == table[k] && rows[1..] == table[k + 1..];
    if keep(table[k]) {
      assert Kept(rows, keep) == [table[k]] + kept && ([table[k]] + kept)[1..] == kept;
      InsertedIsLonger(table[k], Sorted(kept, key), key);
    } else {
      assert Kept(rows, keep) == [] + kept == kept;
    }
  }

  lemma {:induction false} InsertedIsLonger<T>(x: T, rows: seq<T>, key: T -> SortKey)
    ensures |Inserted(x, rows, key)| == |rows| + 1
  {
    if rows != [] && !Before(key(x), key(rows[0])) {
      InsertedIsLonger(x, rows[1..], key);
    }
  }

  method ListJobs(db: Snapshot, f: Filters, limit: nat, offset: nat) returns (rows: seq<JobRow>, total: nat)
    ensures rows == Slice(JobSegment(db, f), offset, limit) && total == |JobSegment(db, f)|
  {
    rows, total := Select(db.jobs, (j: JobRow) => JobListed(j, f), JobKey, limit, offset);
  }

  method ListReports(db: Snapshot, f: Filters, limit: nat, offset: nat) returns (rows: seq<ReportRow>, total: nat)
    ensures rows == Slice(ReportSegment(db, f), offset, limit) && total == |ReportSegment(db, f)|
  {
    rows, total := Select(db.reports, (r: ReportRow) => ReportListed(r, db.jobs, f), ReportKey, limit, offset);
  }

  function Page(db: Snapshot, f: Filters, limit: nat, offset: nat): Response {
    Response(
      Slice(WholeList(db, f), offset, limit), |WholeList(db, f)|,
      |JobSegment(db, f)|, |ReportSegment(db, f)|, limit, offset)
  }

  /** The page is that slice of the jobs followed by the reports, with exact totals. */
  method JobsUnifiedList(db: Snapshot, f: Filters, limit: nat, offset: nat) returns (response: Response)
    requires 1 <= limit <= 100
    ensures response == Page(db, f, limit, offset)
  {
    var _, jobsTotal := ListJobs(db, f, 1, 0);
    var jobs: seq<JobRow> := [];
    if offset < jobsTotal {
      var page, _ := ListJobs(db, f, if limit <= jobsTotal - offset then limit else jobsTotal - offset, offset);
      jobs := page;
    }
    assert jobs == Slice(JobSegment(db, f), offset, limit);
    var history: seq<ReportRow>, historyTotal: nat := [], 0;
    if limit > |jobs| {
      history, historyTotal := ListReports(
        db, f, limit - |jobs|, if offset < jobsTotal then 0 else offset - jobsTotal);
    } else {
      var _, count := ListReports(db, f, 1, 0);
      historyTotal := count;
    }
    PageOfSegments(JobSegment(db, f), ReportSegment(db, f), jobs, history, limit, offset);
    return Response(
      Mapped(jobs, JobItem) + Mapped(history, ReportItem), jobsTotal + historyTotal, jobsTotal, historyTotal, limit,
        offset);
  }

  /** The rows the two queries return make up the slice of the whole list. */
  lemma PageOfSegments(
      a: seq<JobRow>, b: seq<ReportRow>, jobs: seq<JobRow>, history: seq<ReportRow>, limit: nat, offset: nat)
    requires jobs == Slice(a, offset, limit)
    requires |jobs| <= limit
    requires history ==
      if limit > |jobs| then Slice(b, if offset < |a| then 0 else offset - |a|, limit - |jobs|) else []
    ensures Mapped(jobs, JobItem) + Mapped(history, ReportItem)
      == Slice(Mapped(a, JobItem) + Mapped(b, ReportItem), offset, limit)
  {
    SliceOfMapped(a, JobItem, offset, limit);
    SliceOfBoth(Mapped(a, JobItem), Mapped(b, ReportItem), offset, limit);
    SliceOfMapped(b, ReportItem, if offset < |a| then 0 else offset - |a|, limit - |jobs|);
  }

  lemma SliceOfMapped<T, U>(rows: seq<T>, f: T -> U, offset: nat, limit: nat)
    ensures Mapped(Slice(rows, offset, limit), f) == Slice(Mapped(rows, f), offset, limit)
  {
  }

  lemma SliceOfBoth<T>(a: seq<T>, b: seq<T>, offset: nat, limit: nat)
    ensures |Slice(a, offset, limit)| <= limit
    ensures Slice(a + b, offset, limit) == Slice(a, offset, limit)
      + Slice(b, if offset < |a| then 0 else offset - |a|, limit - |Slice(a, offset, limit)|)
  {
  }
}
