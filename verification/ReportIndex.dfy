/**
 The report index (storage/report_repository.py): a table of documents and a full-text table whose
 rows are keyed by document id. The two are written as pairs. Row timestamps are not modelled.
 */
module ReportIndex {
  import opened Wrappers
  import opened Text
  import FtsText

  type JobId = string
  type Path = string

  datatype DocSource = Pipeline | Rescan

  /** Everything needed to index one report. `analysis_id` equals `job_id`, so it is kept once. */
  datatype Entry = Entry(
    jobId: JobId, title: string, platform: string, author: string, videoId: string, sourceUrl: string,
    publishedAt: Option<real>, analyzedAt: real,
    summaryMode: string, language: string, asrProvider: string, asrModel: string, asrModelVersion: string,
    tags: seq<string>, summaryPreview: string, relativePath: Path, contentHash: Digest, source: DocSource)

  datatype Body = Body(summary: string, transcript: string)

  datatype DocStatus = Active | Stale | Missing

  datatype Doc = Doc(id: nat, entry: Entry, status: DocStatus)

  datatype FtsRow = FtsRow(
    title: string, tags: string, author: string, summary: string, transcript: string, url: string)

  /** The full-text row of a report: normalised text, and the address in lower case as it is. */
  function FtsRowOf(entry: Entry, body: Body): FtsRow {
    FtsRow(
      FtsText.Normalize(entry.title), FtsText.Normalize(FtsText.Unwords(entry.tags)), FtsText.Normalize(entry.author),
      FtsText.Normalize(body.summary), FtsText.Normalize(body.transcript), Lower(entry.sourceUrl))
  }

  datatype Tables = Tables(docs: map<JobId, Doc>, fts: map<nat, FtsRow>, nextId: nat)

  const EMPTY := Tables(map[], map[], 1)

  predicate Live(doc: Doc) { doc.status != Missing }

  // ----- the four writes

  datatype Write =
    | Upserted(entry: Entry, body: Body)
    | MarkedStale(job: JobId)
    | MarkedMissing(job: JobId)
    | Purged(job: JobId)

  function Written(t: Tables, w: Write): Tables {
    match w
    case Upserted(entry, body) =>
      var known := entry.jobId in t.docs;
      var id := if known then t.docs[entry.jobId].id else t.nextId;
      Tables(
        t.docs[entry.jobId := Doc(id, entry, Active)], t.fts[id := FtsRowOf(entry, body)],
        if known then t.nextId else t.nextId + 1)
    case MarkedStale(job) =>
      if job in t.docs && t.docs[job].status == Active then
        t.(docs := t.docs[job := t.docs[job].(status := Stale)])
      else t
    case MarkedMissing(job) =>
      if job in t.docs && Live(t.docs[job]) then
        t.(docs := t.docs[job := t.docs[job].(status := Missing)], fts := t.fts - {t.docs[job].id})
      else t
    case Purged(job) =>
      if job in t.docs then t.(docs := t.docs - {job}, fts := t.fts - {t.docs[job].id}) else t
  }

  function After(run: seq<Write>): Tables {
    if run == [] then EMPTY else Written(After(run[..|run| - 1]), run[|run| - 1])
  }

  // ----- pairing

  /** Document ids are primary keys. */
  predicate Keyed(t: Tables) {
    && (forall j | j in t.docs :: t.docs[j].id < t.nextId)
    && (forall j, k | j in t.docs && k in t.docs && j != k :: t.docs[j].id != t.docs[k].id)
  }

  predicate RowMatches(t: Tables, id: nat) { exists j | j in t.docs :: t.docs[j].id == id && Live(t.docs[j]) }

  /** The full-text rows are exactly those of the active and stale documents. */
  predicate Paired(t: Tables) {
    && Keyed(t)
    && (forall j | j in t.docs :: Live(t.docs[j]) <==> t.docs[j].id in t.fts)
    && (forall id | id in t.fts :: RowMatches(t, id))
  }

  lemma UpsertKeepsPairs(t: Tables, entry: Entry, body: Body)
    requires Paired(t)
    ensures Paired(Written(t, Upserted(entry, body)))
  {
    var u := Written(t, Upserted(entry, body));
    var job := entry.jobId;
    forall id | id in u.fts ensures RowMatches(u, id) {
      if id == u.docs[job].id {
        assert job in u.docs;
      } else {
        assert RowMatches(t, id);
        var j :| j in t.docs && t.docs[j].id == id && Live(t.docs[j]);
        assert j in u.docs && j != job;
      }
    }
    assert forall j | j in t.docs :: t.docs[j].id != t.nextId;
  }

  lemma MissingKeepsPairs(t: Tables, job: JobId)
    requires Paired(t)
    ensures Paired(Written(t, MarkedMissing(job)))
  {
    var u := Written(t, MarkedMissing(job));
    forall id | id in u.fts ensures RowMatches(u, id) {
      assert RowMatches(t, id);
      var j :| j in t.docs && t.docs[j].id == id && Live(t.docs[j]);
      assert j in u.docs && u.docs[j] == t.docs[j];
    }
  }

  lemma StaleKeepsPairs(t: Tables, job: JobId)
    requires Paired(t)
    ensures Paired(Written(t, MarkedStale(job)))
  {
    var u := Written(t, MarkedStale(job));
    forall id | id in u.fts ensures RowMatches(u, id) {
      assert RowMatches(t, id);
      var j :| j in t.docs && t.docs[j].id == id && Live(t.docs[j]);
      assert j in u.docs && u.docs[j].id == id && Live(u.docs[j]);
    }
  }

  lemma PurgeKeepsPairs(t: Tables, job: JobId)
    requires Paired(t)
    ensures Paired(Written(t, Purged(job)))
  {
    var u := Written(t, Purged(job));
    forall id | id in u.fts ensures RowMatches(u, id) {
      assert RowMatches(t, id);
      var j :| j in t.docs && t.docs[j].id == id && Live(t.docs[j]);
      assert j in u.docs;
    }
  }

  lemma WritesKeepPairs(t: Tables, w: Write)
    requires Paired(t)
    ensures Paired(Written(t, w))
  {
    match w
    case Upserted(entry, body) => UpsertKeepsPairs(t, entry, body);
    case MarkedStale(job) => StaleKeepsPairs(t, job);
    case MarkedMissing(job) => MissingKeepsPairs(t, job);
    case Purged(job) => PurgeKeepsPairs(t, job);
  }

  // ----- what the rows carry

  /** What was last indexed for a job and not purged since, and whether its file has gone missing since. */
  datatype History = Nothing | Indexed(entry: Entry, body: Body, dropped: bool)

  function Extended(h: History, w: Write, job: JobId): History {
    match w
    case Upserted(entry, body) => if entry.jobId == job then Indexed(entry, body, false) else h
    case MarkedStale(_) => h
    case MarkedMissing(other) => if other == job && h.Indexed? then h.(dropped := true) else h
    case Purged(other) => if other == job then Nothing else h
  }

  function HistoryOf(run: seq<Write>, job: JobId): History {
    if run == [] then Nothing else Extended(HistoryOf(run[..|run| - 1], job), run[|run| - 1], job)
  }

  predicate Mirrors(t: Tables, job: JobId, h: History) {
    match h
    case Nothing => job !in t.docs
    case Indexed(entry, body, dropped) =>
      && job in t.docs && t.docs[job].entry == entry
      && (dropped <==> t.docs[job].status == Missing)
      && (!dropped ==> t.docs[job].id in t.fts && t.fts[t.docs[job].id] == FtsRowOf(entry, body))
  }

  /**
   Over any sequence of writes: the full-text rows are those of the active and stale documents, a job has
   a document exactly while it has an indexed entry that was not purged, and its row is the normalised
   text of the entry and body indexed last.
   */
  lemma {:induction false} IndexMirrorsWrites(run: seq<Write>)
    ensures Paired(After(run))
    ensures forall job :: Mirrors(After(run), job, HistoryOf(run, job))
  {
    if run != [] {
      var front, w := run[..|run| - 1], run[|run| - 1];
      IndexMirrorsWrites(front);
      WritesKeepPairs(After(front), w);
      forall job ensures Mirrors(After(run), job, HistoryOf(run, job)) {
        MirrorStep(After(front), w, job, HistoryOf(front, job));
      }
    }
  }

  lemma MirrorStep(t: Tables, w: Write, job: JobId, h: History)
    requires Paired(t) && Mirrors(t, job, h)
    ensures Mirrors(Written(t, w), job, Extended(h, w, job))
  {
    if w.Upserted? && job in t.docs {
      assert t.docs[job].id < t.nextId;
    }
  }

  // ----- the completeness check

  datatype Verification = Verification(
    consistent: bool, documentCount: nat, rowCount: nat, missingRows: set<nat>, orphanRows: set<nat>)

  function LiveJobs(t: Tables): set<JobId> { set j | j in t.docs && Live(t.docs[j]) }

  function Verify(t: Tables): Verification {
    var missing := set j | j in LiveJobs(t) && t.docs[j].id !in t.fts :: t.docs[j].id;
    var orphans := set id | id in t.fts && !RowMatches(t, id);
    Verification(
      |LiveJobs(t)| == |t.fts| && missing == {} && orphans == {}, |LiveJobs(t)|, |t.fts|, missing, orphans)
  }

  lemma {:induction false} IdsCount(t: Tables, jobs: set<JobId>)
    requires Keyed(t) && jobs <= t.docs.Keys
    ensures |set j | j in jobs :: t.docs[j].id| == |jobs|
    decreases |jobs|
  {
    var ids := set j | j in jobs :: t.docs[j].id;
    if jobs != {} {
      var j :| j in jobs;
      var rest := jobs - {j};
      IdsCount(t, rest);
      assert ids == (set k | k in rest :: t.docs[k].id) + {t.docs[j].id};
    }
  }

  lemma AntiJoins(t: Tables)
    ensures forall j | j in t.docs && Live(t.docs[j]) :: t.docs[j].id !in t.fts ==>
      t.docs[j].id in Verify(t).missingRows
    ensures forall id | id in t.fts :: !RowMatches(t, id) ==> id in Verify(t).orphanRows
  {
  }

  /** With primary keys, empty anti-joins already make the two counts equal. */
  lemma AntiJoinsImplyCounts(t: Tables)
    requires Keyed(t)
    ensures Verify(t).missingRows == {} && Verify(t).orphanRows == {} ==>
      Verify(t).documentCount == Verify(t).rowCount
  {
    AntiJoins(t);
    if Verify(t).missingRows == {} && Verify(t).orphanRows == {} {
      var ids := set j | j in LiveJobs(t) :: t.docs[j].id;
      IdsCount(t, LiveJobs(t));
      forall id | id in t.fts ensures id in ids {
        assert RowMatches(t, id);
      }
      assert ids == t.fts.Keys;
    }
  }

  /** The check passes exactly when the two tables are paired. */
  lemma VerifyMeansPaired(t: Tables)
    requires Keyed(t)
    ensures Verify(t).consistent <==> Paired(t)
  {
    AntiJoinsImplyCounts(t);
    AntiJoins(t);
    if Verify(t).consistent {
      forall j | j in t.docs ensures Live(t.docs[j]) <==> t.docs[j].id in t.fts {
        if t.docs[j].id in t.fts {
          assert RowMatches(t, t.docs[j].id);
        }
      }
    }
  }

  // ----- the statements

  lemma RowReplaced(fts: map<nat, FtsRow>, id: nat, row: FtsRow)
    ensures (fts - {id})[id := row] == fts[id := row]
  {
  }

  class Index {
    var docs: map<JobId, Doc>
    var fts: map<nat, FtsRow>
    var nextId: nat

    function Contents(): Tables
      reads this
    {
      Tables(docs, fts, nextId)
    }

    constructor ()
      ensures Contents() == EMPTY
    {
      docs, fts, nextId := map[], map[], 1;
    }

    /**
     The pair of writes inside a savepoint. `fault` is the statement that fails, if one does: then
     the savepoint is rolled back and nothing has changed.
     */
    method Upsert(entry: Entry, body: Body, fault: Option<nat>) returns (id: Option<nat>)
      modifies this
      ensures fault.Some? && fault.value < 3 ==> id == None && Contents() == old(Contents())
      ensures !(fault.Some? && fault.value < 3) ==>
        && Contents() == Written(old(Contents()), Upserted(entry, body))
        && id == Some(docs[entry.jobId].id)
    {
      var savepoint := Contents();
      var failed := fault == Some(0);
      var docId := 0;
      if !failed {
        if entry.jobId in docs {
          docId := docs[entry.jobId].id;
        } else {
          docId, nextId := nextId, nextId + 1;
        }
        docs := docs[entry.jobId := Doc(docId, entry, Active)];
        failed := fault == Some(1);
      }
      if !failed {
        fts := fts - {docId};
        failed := fault == Some(2);
      }
      if failed {
        docs, fts, nextId := savepoint.docs, savepoint.fts, savepoint.nextId;
        return None;
      }
      RowReplaced(savepoint.fts, docId, FtsRowOf(entry, body));
      fts := fts[docId := FtsRowOf(entry, body)];
      return Some(docId);
    }

    method MarkStale(job: JobId) returns (changed: bool)
      modifies this
      ensures Contents() == Written(old(Contents()), MarkedStale(job))
      ensures changed <==> job in old(docs) && old(docs)[job].status == Active
    {
      if job !in docs || docs[job].status != Active {
        return false;
      }
      docs := docs[job := docs[job].(status := Stale)];
      return true;
    }

    method MarkMissing(job: JobId) returns (changed: bool)
      modifies this
      ensures Contents() == Written(old(Contents()), MarkedMissing(job))
      ensures changed <==> job in old(docs) && Live(old(docs)[job])
    {
      if job !in docs || docs[job].status == Missing {
        return false;
      }
      var doc := docs[job];
      docs := docs[job := doc.(status := Missing)];
      fts := fts - {doc.id};
      return true;
    }

    method Purge(job: JobId) returns (deleted: bool)
      modifies this
      ensures Contents() == Written(old(Contents()), Purged(job))
      ensures deleted <==> job in old(docs)
    {
      if job !in docs {
        return false;
      }
      fts := fts - {docs[job].id};
      docs := docs - {job};
      return true;
    }
  }
}
