/** The bridge's strict check of a list page, and what the engine's pages guarantee to it. */
module ListBridge {
  import opened Wrappers
  import opened UnifiedList
  import Jobs

  // ----- the check

  datatype BridgeItem = BridgeItem(
    jobId: string, title: Option<string>, platform: Option<string>, status: Jobs.JobStatus, progress: int,
    errorCode: Option<string>, url: Option<string>)

  datatype Output = Output(items: seq<BridgeItem>, limit: int, offset: int, total: int)

  function ReadStatus(name: string): Option<Jobs.JobStatus> {
    if name == "queued" then Some(Jobs.Queued)
    else if name == "fetching_metadata" then Some(Jobs.FetchingMetadata)
    else if name == "fetching_subtitles" then Some(Jobs.FetchingSubtitles)
    else if name == "downloading_audio" then Some(Jobs.DownloadingAudio)
    else if name == "transcribing" then Some(Jobs.Transcribing)
    else if name == "waiting_for_model" then Some(Jobs.WaitingForModel)
    else if name == "cleaning_transcript" then Some(Jobs.CleaningTranscript)
    else if name == "chunking" then Some(Jobs.Chunking)
    else if name == "summarizing_chunks" then Some(Jobs.SummarizingChunks)
    else if name == "generating_report" then Some(Jobs.GeneratingReport)
    else if name == "indexing" then Some(Jobs.Indexing)
    else if name == "retry_wait" then Some(Jobs.RetryWait)
    else if name == "completed" then Some(Jobs.Completed)
    else if name == "failed" then Some(Jobs.Failed)
    else if name == "cancelled" then Some(Jobs.Cancelled)
    else None
  }

  function CheckedJob(item: Item): Option<BridgeItem> {
    match ReadStatus(item.status)
    case Some(status) =>
      if 0 <= item.progress <= 100 && status != Jobs.Completed then
        Some(BridgeItem(item.jobId, item.title, item.platform, status, item.progress, item.errorCode, item.url))
      else None
    case None => None
  }

  function CheckedHistory(item: Item): Option<BridgeItem> {
    if item.progress >= 0 && item.status == StatusName(Jobs.Completed) then
      Some(BridgeItem(item.jobId, item.title, item.platform, Jobs.Completed, 100, None, item.url))
    else None
  }

  /** A row at a position of the whole list: its kind must fit the position. */
  function Checked(item: Item, inJobs: bool): Option<BridgeItem> {
    if item.kind != (if inJobs then JOB else HISTORY) then None
    else if inJobs then CheckedJob(item) else CheckedHistory(item)
  }

  predicate WindowOk(r: Response, limit: int, offset: int) {
    && r.total >= 0 && r.limit == limit && r.offset == offset
    && var left := if r.total > offset then r.total - offset else 0;
       |r.items| == if limit <= left then limit else left
  }

  predicate TotalsOk(r: Response) { r.jobsTotal >= 0 && r.historyTotal >= 0 && r.total == r.jobsTotal + r.historyTotal }

  predicate RowsOk(r: Response, offset: int) {
    forall i :: 0 <= i < |r.items| ==> Checked(r.items[i], offset + i < r.jobsTotal).Some?
  }

  function Accepted(r: Response, offset: int): seq<BridgeItem>
    requires RowsOk(r, offset)
  {
    seq(|r.items|, i requires 0 <= i < |r.items| => Checked(r.items[i], offset + i < r.jobsTotal).value)
  }

  /** A page is accepted exactly when window, totals and every row are as they should be. */
  method UnifiedPage(r: Response, limit: int, offset: int) returns (out: Option<Output>)
    ensures out.Some? <==> WindowOk(r, limit, offset) && TotalsOk(r) && RowsOk(r, offset)
    ensures out.Some? ==> out.value == Output(Accepted(r, offset), limit, offset, r.total)
  {
    if r.total < 0 || r.limit != limit || r.offset != offset {
      return None;
    }
    var left := if r.total > offset then r.total - offset else 0;
    if |r.items| != (if limit <= left then limit else left) {
      return None;
    }
    if r.jobsTotal < 0 || r.historyTotal < 0 || r.total != r.jobsTotal + r.historyTotal {
      return None;
    }
    var items: seq<BridgeItem> := [];
    for i := 0 to |r.items|
      invariant |items| == i
      invariant forall k :: 0 <= k < i ==> Checked(r.items[k], offset + k < r.jobsTotal) == Some(items[k])
    {
      var item := r.items[i];
      var expected := if offset + i < r.jobsTotal then JOB else HISTORY;
      if item.kind != expected {
        return None;
      }
      var checked := if expected == HISTORY then CheckedHistory(item) else CheckedJob(item);
      assert JOB != HISTORY;
      if checked == None {
        return None;
      }
      items := items + [checked.value];
    }
    return Some(Output(items, limit, offset, r.total));
  }

  // ----- what the segments contain

  /** Primary and unique keys of the two tables, and the one id a report shares with its job. */
  ghost predicate TablesOk(db: Snapshot) {
    && DistinctKeys(db.jobs, JobKey) && DistinctKeys(db.reports, ReportKey)
    && (forall i, j :: 0 <= i < j < |db.jobs| ==> db.jobs[i].jobId != db.jobs[j].jobId)
    && (forall i, j :: 0 <= i < j < |db.reports| ==> db.reports[i].jobId != db.reports[j].jobId)
    && (forall i :: 0 <= i < |db.reports| ==> db.reports[i].jobId == db.reports[i].analysisId)
  }

  lemma {:induction false} KeptRows<T>(rows: seq<T>, keep: T -> bool, x: T)
    ensures x in Kept(rows, keep) <==> x in rows && keep(x)
  {
    if rows != [] {
      KeptRows(rows[1..], keep, x);
      assert rows == [rows[0]] + rows[1..];
    }
  }

  lemma {:induction false} KeptKeys<T>(rows: seq<T>, keep: T -> bool, key: T -> SortKey)
    requires DistinctKeys(rows, key)
    ensures DistinctKeys(Kept(rows, keep), key)
  {
    if rows != [] {
      assert forall i, j :: 0 <= i < j < |rows[1..]| ==> key(rows[1..][i]) != key(rows[1..][j]);
      KeptKeys(rows[1..], keep, key);
      forall y | y in Kept(rows[1..], keep) ensures key(y) != key(rows[0]) {
        KeptRows(rows[1..], keep, y);
        var i :| 0 <= i < |rows[1..]| && rows[1..][i] == y;
        assert key(rows[0]) != key(rows[i + 1]);
      }
    }
  }

  /** Both segments hold exactly the rows that pass their filter, each in its order. */
  lemma SegmentsAreSorted(db: Snapshot, f: Filters)
    requires TablesOk(db)
    ensures Ordered(JobSegment(db, f), JobKey) && Ordered(ReportSegment(db, f), ReportKey)
    ensures forall j :: j in JobSegment(db, f) <==> j in db.jobs && JobListed(j, f)
    ensures forall r :: r in ReportSegment(db, f) <==> r in db.reports && ReportListed(r, db.jobs, f)
  {
    var jobKeep, reportKeep := (j: JobRow) => JobListed(j, f), (r: ReportRow) => ReportListed(r, db.jobs, f);
    KeptKeys(db.jobs, jobKeep, JobKey);
    KeptKeys(db.reports, reportKeep, ReportKey);
    SortedOrder(Kept(db.jobs, jobKeep), JobKey);
    SortedOrder(Kept(db.reports, reportKeep), ReportKey);
    SortedRows(Kept(db.jobs, jobKeep), JobKey);
    SortedRows(Kept(db.reports, reportKeep), ReportKey);
    forall j ensures j in JobSegment(db, f) <==> j in db.jobs && JobListed(j, f) {
      KeptRows(db.jobs, jobKeep, j);
      assert j in JobSegment(db, f) <==> j in multiset(JobSegment(db, f));
    }
    forall r ensures r in ReportSegment(db, f) <==> r in db.reports && ReportListed(r, db.jobs, f) {
      KeptRows(db.reports, reportKeep, r);
      assert r in ReportSegment(db, f) <==> r in multiset(ReportSegment(db, f));
    }
  }

  lemma SameIdSameJob(db: Snapshot, a: JobRow, b: JobRow)
    requires TablesOk(db) && a in db.jobs && b in db.jobs && a.jobId == b.jobId
    ensures a == b
  {
    var i :| 0 <= i < |db.jobs| && db.jobs[i] == a;
    var j :| 0 <= j < |db.jobs| && db.jobs[j] == b;
    assert i == j;
  }

  lemma SameIdSameReport(db: Snapshot, a: ReportRow, b: ReportRow)
    requires TablesOk(db) && a in db.reports && b in db.reports && a.jobId == b.jobId
    ensures a == b
  {
    var i :| 0 <= i < |db.reports| && db.reports[i] == a;
    var j :| 0 <= j < |db.reports| && db.reports[j] == b;
    assert i == j;
  }

  lemma JobsAreNotReported(db: Snapshot, f: Filters, j: JobRow, r: ReportRow)
    requires TablesOk(db) && j in JobSegment(db, f) && r in ReportSegment(db, f)
    ensures j.jobId != r.jobId
  {
    SegmentsAreSorted(db, f);
    var i :| 0 <= i < |db.jobs| && db.jobs[i] == j;
    var k :| 0 <= k < |db.reports| && db.reports[k] == r;
    assert !Unfinished(db.jobs, r.analysisId);
    assert db.jobs[i].jobId != r.analysisId;
  }

  /** No job is listed twice: not within a segment and not in both. */
  lemma NoJobTwice(db: Snapshot, f: Filters, i: nat, k: nat)
    requires TablesOk(db) && i < k < |WholeList(db, f)|
    ensures WholeList(db, f)[i].jobId != WholeList(db, f)[k].jobId
  {
    var jobs, reports := JobSegment(db, f), ReportSegment(db, f);
    SegmentsAreSorted(db, f);
    if k < |jobs| {
      assert jobs[i] in jobs && jobs[k] in jobs && Before(JobKey(jobs[i]), JobKey(jobs[k]));
      if jobs[i].jobId == jobs[k].jobId {
        SameIdSameJob(db, jobs[i], jobs[k]);
      }
    } else if i < |jobs| {
      JobsAreNotReported(db, f, jobs[i], reports[k - |jobs|]);
    } else {
      var a, b := reports[i - |jobs|], reports[k - |jobs|];
      assert a in reports && b in reports && Before(ReportKey(a), ReportKey(b));
      if a.jobId == b.jobId {
        SameIdSameReport(db, a, b);
      }
    }
  }

  // ----- pages

  /** The pages from `offset` on, one after the other. */
  function PagesFrom(list: seq<Item>, offset: nat, limit: nat): seq<Item>
    requires limit > 0
    decreases |list| - offset
  {
    if offset >= |list| then [] else Slice(list, offset, limit) + PagesFrom(list, offset + limit, limit)
  }

  lemma {:induction false} PagesCover(list: seq<Item>, offset: nat, limit: nat)
    requires limit > 0 && offset <= |list|
    ensures PagesFrom(list, offset, limit) == list[offset..]
    decreases |list| - offset
  {
    if offset + limit < |list| {
      PagesCover(list, offset + limit, limit);
      assert list[offset..] == list[offset..offset + limit] + list[offset + limit..];
    }
  }

  /** Turning the pages of any size from the first one shows the whole list, each row once. */
  lemma PagesShowTheWholeList(db: Snapshot, f: Filters, limit: nat)
    requires limit > 0
    ensures PagesFrom(WholeList(db, f), 0, limit) == WholeList(db, f)
  {
    PagesCover(WholeList(db, f), 0, limit);
  }

  // ----- engine and bridge

  lemma StatusReadsBack(s: Jobs.JobStatus)
    ensures ReadStatus(StatusName(s)) == Some(s)
  {
    match s {
      case Queued => case FetchingMetadata => case FetchingSubtitles => case DownloadingAudio => case Transcribing =>
      case WaitingForModel => case CleaningTranscript => case Chunking => case SummarizingChunks =>
      case GeneratingReport => case Indexing => case RetryWait => case Completed => case Failed => case Cancelled =>
    }
  }

  /** What the bridge shows of a row of the engine's list. */
  function Shown(db: Snapshot, f: Filters, i: nat): BridgeItem
    requires i < |WholeList(db, f)|
  {
    var jobs := JobSegment(db, f);
    if i < |jobs| then
      var j := jobs[i];
      BridgeItem(j.jobId, j.title, j.platform, j.status, j.progress, j.errorCode, Some(j.url))
    else
      var r := ReportSegment(db, f)[i - |jobs|];
      BridgeItem(r.jobId, Some(r.title), Some(r.platform), Jobs.Completed, 100, None, Some(r.sourceUrl))
  }

  predicate ProgressOk(db: Snapshot, f: Filters, i: nat) {
    i < |JobSegment(db, f)| ==> 0 <= JobSegment(db, f)[i].progress <= 100
  }

  lemma RowIsAccepted(db: Snapshot, f: Filters, i: nat)
    requires TablesOk(db) && i < |WholeList(db, f)|
    ensures Checked(WholeList(db, f)[i], i < |JobSegment(db, f)|).Some? <==> ProgressOk(db, f, i)
    ensures ProgressOk(db, f, i) ==>
      Checked(WholeList(db, f)[i], i < |JobSegment(db, f)|) == Some(Shown(db, f, i))
  {
    var jobs := JobSegment(db, f);
    SegmentsAreSorted(db, f);
    if i < |jobs| {
      assert jobs[i] in jobs;
      StatusReadsBack(jobs[i].status);
    }
  }

  lemma PageRow(db: Snapshot, f: Filters, limit: nat, offset: nat, i: nat)
    requires TablesOk(db) && i < |Page(db, f, limit, offset).items|
    ensures var r := Page(db, f, limit, offset);
      && offset + i < |WholeList(db, f)|
      && (Checked(r.items[i], offset + i < r.jobsTotal).Some? <==> ProgressOk(db, f, offset + i))
      && (ProgressOk(db, f, offset + i) ==>
            Checked(r.items[i], offset + i < r.jobsTotal) == Some(Shown(db, f, offset + i)))
  {
    RowIsAccepted(db, f, offset + i);
  }

  /**
   The bridge accepts a page of the engine exactly when the job rows on it have a progress between 0 and
   100, and then shows the rows of the page unchanged and in order, with the engine's total.
   */
  lemma BridgeAcceptsPages(db: Snapshot, f: Filters, limit: nat, offset: nat)
    requires TablesOk(db)
    ensures var r := Page(db, f, limit, offset);
      && WindowOk(r, limit, offset) && TotalsOk(r)
      && (RowsOk(r, offset) <==> forall k :: offset <= k < offset + |r.items| ==> ProgressOk(db, f, k))
      && (RowsOk(r, offset) ==>
            forall i | 0 <= i < |r.items| ::
                 offset + i < |WholeList(db, f)| && Accepted(r, offset)[i] == Shown(db, f, offset + i))
  {
    var r := Page(db, f, limit, offset);
    forall i | 0 <= i < |r.items|
      ensures offset + i < |WholeList(db, f)|
      ensures Checked(r.items[i], offset + i < r.jobsTotal).Some? <==> ProgressOk(db, f, offset + i)
      ensures ProgressOk(db, f, offset + i) ==>
        Checked(r.items[i], offset + i < r.jobsTotal) == Some(Shown(db, f, offset + i))
    {
      PageRow(db, f, limit, offset, i);
    }
    if RowsOk(r, offset) {
      forall k | offset <= k < offset + |r.items| ensures ProgressOk(db, f, k) {
        assert Checked(r.items[k - offset], k < r.jobsTotal).Some?;
      }
    }
  }
}
