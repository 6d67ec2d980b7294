/** The list as it stands after any run of the pipeline and any history of the report index. */
module ListOfRuns {
  import opened UnifiedList
  import opened ListBridge
  import Jobs
  import JobRuns
  import JobTheorems
  import ReportIndex

  /** A listed row shows the columns of its job; title and platform are the display columns. */
  predicate ShowsJob(row: JobRow, j: Jobs.Job) {
    && row.id == j.rowId && row.status == j.status && row.stage == j.stage && row.progress == j.progress
    && row.errorCode == j.errorCode && row.createdAt == j.createdAt && row.url == j.url
  }

  predicate ShowsReport(row: ReportRow, d: ReportIndex.Doc) {
    && row.id == d.id && row.analysisId == d.entry.jobId && row.title == d.entry.title
    && row.platform == d.entry.platform && row.sourceUrl == d.entry.sourceUrl
    && row.analyzedAt == d.entry.analyzedAt && row.status == d.status
  }

  ghost predicate Listed<T>(rows: seq<T>, name: T -> string, id: string) {
    exists i :: 0 <= i < |rows| && name(rows[i]) == id
  }

  /** The snapshot reads both tables whole, each row once. */
  ghost predicate Reads(db: Snapshot, jobs: map<Jobs.JobId, Jobs.Job>, index: ReportIndex.Tables) {
    && (forall i | 0 <= i < |db.jobs| :: db.jobs[i].jobId in jobs && ShowsJob(db.jobs[i], jobs[db.jobs[i].jobId]))
    && (forall i, j | 0 <= i < j < |db.jobs| :: db.jobs[i].jobId != db.jobs[j].jobId)
    && (forall i | 0 <= i < |db.reports| ::
          db.reports[i].jobId in index.docs && ShowsReport(db.reports[i], index.docs[db.reports[i].jobId]))
    && (forall i, j | 0 <= i < j < |db.reports| :: db.reports[i].jobId != db.reports[j].jobId)
    && (forall id | id in jobs :: Listed(db.jobs, (row: JobRow) => row.jobId, id))
    && (forall id | id in index.docs :: Listed(db.reports, (row: ReportRow) => row.jobId, id))
  }

  /** Documents are stored under their own job. */
  predicate Filed(t: ReportIndex.Tables) { forall job | job in t.docs :: t.docs[job].entry.jobId == job }

  lemma {:induction false} WritesFile(run: seq<ReportIndex.Write>)
    ensures Filed(ReportIndex.After(run)) && ReportIndex.Keyed(ReportIndex.After(run))
  {
    ReportIndex.IndexMirrorsWrites(run);
    if run != [] {
      WritesFile(run[..|run| - 1]);
      WriteFiles(ReportIndex.After(run[..|run| - 1]), run[|run| - 1]);
    }
  }

  lemma WriteFiles(t: ReportIndex.Tables, w: ReportIndex.Write)
    requires Filed(t)
    ensures Filed(ReportIndex.Written(t, w))
  {
  }

  /** Primary keys and progress of reachable tables are all the list asks for. */
  lemma ReachableTables(db: Snapshot, run: JobTheorems.Run, writes: seq<ReportIndex.Write>)
    requires JobRuns.IsRun(JobRuns.START, run)
    requires Reads(db, JobRuns.After(JobRuns.START, run).tables.jobs, ReportIndex.After(writes))
    ensures TablesOk(db) && forall i | 0 <= i < |db.jobs| :: 0 <= db.jobs[i].progress <= 100
  {
    var t, index := JobRuns.After(JobRuns.START, run).tables, ReportIndex.After(writes);
    JobTheorems.Reachable(run);
    WritesFile(writes);
    forall i, j | 0 <= i < j < |db.jobs| ensures JobKey(db.jobs[i]) != JobKey(db.jobs[j]) {
      assert t.jobs[db.jobs[i].jobId].rowId != t.jobs[db.jobs[j].jobId].rowId;
    }
    forall i, j | 0 <= i < j < |db.reports| ensures ReportKey(db.reports[i]) != ReportKey(db.reports[j]) {
      assert index.docs[db.reports[i].jobId].id != index.docs[db.reports[j].jobId].id;
    }
    forall i | 0 <= i < |db.jobs| ensures 0 <= db.jobs[i].progress <= 100 {
      assert Jobs.RowOk(t.jobs[db.jobs[i].jobId]);
    }
  }

  /**
   After any run of the pipeline and any history of the index, the bridge accepts every page of the list,
   for every filter, limit and offset, and shows its rows as they are, in order, with the exact total.
   */
  lemma EveryPageIsAccepted(
      db: Snapshot, run: JobTheorems.Run, writes: seq<ReportIndex.Write>, f: Filters, limit: nat, offset: nat)
    requires JobRuns.IsRun(JobRuns.START, run)
    requires Reads(db, JobRuns.After(JobRuns.START, run).tables.jobs, ReportIndex.After(writes))
    ensures var r := Page(db, f, limit, offset);
      && WindowOk(r, limit, offset) && TotalsOk(r) && RowsOk(r, offset)
      && forall i | 0 <= i < |r.items| ::
           offset + i < |WholeList(db, f)| && Accepted(r, offset)[i] == Shown(db, f, offset + i)
  {
    ReachableTables(db, run, writes);
    SegmentsAreSorted(db, f);
    forall k: nat ensures ProgressOk(db, f, k) {
      if k < |JobSegment(db, f)| {
        var row := JobSegment(db, f)[k];
        assert row in JobSegment(db, f) && row in db.jobs;
      }
    }
    BridgeAcceptsPages(db, f, limit, offset);
  }

  /** In every run no job of the list occurs twice, on no page and on no two. */
  lemma NoJobTwiceInRuns(
      db: Snapshot, run: JobTheorems.Run, writes: seq<ReportIndex.Write>, f: Filters, i: nat, k: nat)
    requires JobRuns.IsRun(JobRuns.START, run)
    requires Reads(db, JobRuns.After(JobRuns.START, run).tables.jobs, ReportIndex.After(writes))
    requires i < k < |WholeList(db, f)|
    ensures WholeList(db, f)[i].jobId != WholeList(db, f)[k].jobId
  {
    ReachableTables(db, run, writes);
    NoJobTwice(db, f, i, k);
  }
}
