/** What a completed rescan leaves behind, and what an interrupted one does. */
module RebuildLaws {
  import opened ReportIndex
  import opened IndexRebuild

  // ----- the winners

  /** The first file in listing order that can be read and parsed wins its analysis id. */
  function Winners(files: seq<Path>, disk: Disk, read: Reader): map<JobId, Path> {
    if files == [] then map[]
    else
      var before, last := Winners(files[..|files| - 1], disk, read), files[|files| - 1];
      match Examine(disk, read, last)
      case Found(_, report) =>
        if report.doc.analysisId in before then before else before[report.doc.analysisId := last]
      case _ => before
  }

  /** No listed file makes the reader raise. */
  ghost predicate NoneRaises(files: seq<Path>, disk: Disk, read: Reader) {
    forall i | 0 <= i < |files| :: !Examine(disk, read, files[i]).Raising?
  }

  predicate Names(disk: Disk, read: Reader, path: Path, job: JobId) {
    Examine(disk, read, path).Found? && Examine(disk, read, path).report.doc.analysisId == job
  }

  predicate FirstNamed(files: seq<Path>, disk: Disk, read: Reader, job: JobId, i: nat) {
    && i < |files| && Names(disk, read, files[i], job)
    && forall k :: 0 <= k < i ==> !Names(disk, read, files[k], job)
  }

  lemma {:induction false} WinnersComeFirst(files: seq<Path>, disk: Disk, read: Reader, job: JobId)
    ensures job in Winners(files, disk, read) ==>
      exists i: nat :: FirstNamed(files, disk, read, job, i) && Winners(files, disk, read)[job] == files[i]
    ensures job !in Winners(files, disk, read) ==> forall k :: 0 <= k < |files| ==> !Names(disk, read, files[k], job)
  {
    if files != [] {
      var n := |files| - 1;
      var front := files[..n];
      WinnersComeFirst(front, disk, read, job);
      assert forall k :: 0 <= k < n ==> front[k] == files[k];
      if job in Winners(front, disk, read) {
        var i: nat :| FirstNamed(front, disk, read, job, i) && Winners(front, disk, read)[job] == front[i];
        assert FirstNamed(files, disk, read, job, i);
      } else if job in Winners(files, disk, read) {
        assert FirstNamed(files, disk, read, job, n);
      }
    }
  }

  lemma {:induction false} CompletedScanRead(s: Scan, files: seq<Path>, disk: Disk, read: Reader)
    requires !ScanFiles(s, files, disk, read).failed
    ensures NoneRaises(files, disk, read)
  {
    if files != [] {
      CompletedScanRead(s, files[..|files| - 1], disk, read);
      assert forall i | 0 <= i < |files| - 1 :: files[i] == files[..|files| - 1][i];
    }
  }

  predicate AddsUp(counts: Counts) {
    counts.scanned == counts.indexed + counts.current + counts.quarantined + counts.duplicates
  }

  function ClaimsAfter(claims: map<JobId, Path>, path: Path, finding: Finding): map<JobId, Path> {
    if finding.Found? && finding.report.doc.analysisId !in claims then claims[finding.report.doc.analysisId := path]
    else claims
  }

  lemma StepCounts(s: Scan, path: Path, finding: Finding, read: Reader)
    requires !s.failed && AddsUp(s.counts) && !Step(s, path, finding, read).failed
    ensures var after := Step(s, path, finding, read);
      && after.scanned == s.scanned + [path] && after.claims == ClaimsAfter(s.claims, path, finding)
      && after.counts.scanned == s.counts.scanned + 1 && AddsUp(after.counts)
  {
  }

  lemma WinnersStep(files: seq<Path>, disk: Disk, read: Reader)
    requires files != []
    ensures var front, path := files[..|files| - 1], files[|files| - 1];
      Winners(files, disk, read) == ClaimsAfter(Winners(front, disk, read), path, Examine(disk, read, path))
  {
  }

  /** A scan that has claimed the winners of these files and counted each of them once. */
  predicate HasClaimed(s: Scan, files: seq<Path>, disk: Disk, read: Reader) {
    && s.claims == Winners(files, disk, read) && s.scanned == files
    && s.counts.scanned == |files| && AddsUp(s.counts)
  }

  lemma StepClaimsWinner(s: Scan, files: seq<Path>, disk: Disk, read: Reader)
    requires files != [] && !s.failed && HasClaimed(s, files[..|files| - 1], disk, read)
    requires !Step(s, files[|files| - 1], Examine(disk, read, files[|files| - 1]), read).failed
    ensures HasClaimed(Step(s, files[|files| - 1], Examine(disk, read, files[|files| - 1]), read), files, disk, read)
  {
    assert files == files[..|files| - 1] + [files[|files| - 1]];
    StepCounts(s, files[|files| - 1], Examine(disk, read, files[|files| - 1]), read);
    WinnersStep(files, disk, read);
  }

  /** Scanning claims the winners, sees every file, and counts each file once. */
  lemma {:induction false} ScanClaimsWinners(
      index: Tables, issues: set<Issue>, files: seq<Path>, disk: Disk, read: Reader)
    ensures var s := ScanFiles(Begun(index, issues), files, disk, read); !s.failed ==> HasClaimed(s, files, disk, read)
  {
    if files != [] {
      ScanClaimsWinners(index, issues, files[..|files| - 1], disk, read);
      if !ScanFiles(Begun(index, issues), files, disk, read).failed {
        StepClaimsWinner(ScanFiles(Begun(index, issues), files[..|files| - 1], disk, read), files, disk, read);
      }
    }
  }

  // ----- what the tables say of the files

  /** An indexed entry and its row say what the bytes of the content hash say. */
  predicate Honest(e: Entry, row: FtsRow, job: JobId, read: Reader) {
    var raw := e.contentHash.preimage;
    && e.jobId == job && Acceptable(e, read.lower)
    && read.parse(raw).Readable? && read.parse(raw).report.lone == {} && read.parse(raw).report.doc.analysisId == job
    && e == EntryOf(read.parse(raw).report, e.relativePath, raw).(source := e.source)
    && row == FtsRowOf(e, BodyOf(read.parse(raw).report))
  }

  predicate Faithful(t: Tables, job: JobId, read: Reader) {
    job in t.docs && Live(t.docs[job]) ==>
      t.docs[job].id in t.fts && Honest(t.docs[job].entry, t.fts[t.docs[job].id], job, read)
  }

  /** Every searchable document was derived from the file it names. */
  ghost predicate Derived(t: Tables, read: Reader) { forall job :: Faithful(t, job, read) }

  /** What the finished pipeline indexes, too: the report parsed from the very bytes it hashed. */
  ghost predicate FromFile(w: Write, read: Reader) {
    w.Upserted? ==>
      var raw := w.entry.contentHash.preimage;
      && read.parse(raw).Readable? && read.parse(raw).report.lone == {} && Acceptable(w.entry, read.lower)
      && w.entry == EntryOf(read.parse(raw).report, w.entry.relativePath, raw).(source := w.entry.source)
      && w.body == BodyOf(read.parse(raw).report)
  }

  lemma UpsertStaysDerived(t: Tables, entry: Entry, body: Body, read: Reader)
    requires Paired(t) && Derived(t, read) && Honest(entry, FtsRowOf(entry, body), entry.jobId, read)
    ensures Derived(Written(t, Upserted(entry, body)), read)
  {
    var u := Written(t, Upserted(entry, body));
    forall job ensures Faithful(u, job, read) {
      if job != entry.jobId && job in t.docs {
        assert Faithful(t, job, read) && t.docs[job].id < t.nextId;
        assert u.docs[job] == t.docs[job];
      }
    }
  }

  /** Documents that stay live keep their entry and row when others leave or drift. */
  lemma DepartureStaysDerived(t: Tables, w: Write, read: Reader)
    requires Keyed(t) && Derived(t, read) && !w.Upserted?
    ensures Derived(Written(t, w), read)
  {
    var u := Written(t, w);
    forall job ensures Faithful(u, job, read) {
      assert Faithful(t, job, read);
    }
  }

  lemma WritesStayDerived(t: Tables, w: Write, read: Reader)
    requires Paired(t) && Derived(t, read) && FromFile(w, read)
    ensures Paired(Written(t, w)) && Derived(Written(t, w), read)
  {
    WritesKeepPairs(t, w);
    if w.Upserted? {
      UpsertStaysDerived(t, w.entry, w.body, read);
    } else {
      DepartureStaysDerived(t, w, read);
    }
  }

  /** The index, however it came about through indexing, drift, missing files and purges. */
  lemma {:induction false} HistoriesAreDerived(run: seq<Write>, read: Reader)
    requires forall i | 0 <= i < |run| :: FromFile(run[i], read)
    ensures Paired(After(run)) && Derived(After(run), read)
  {
    if run != [] {
      HistoriesAreDerived(run[..|run| - 1], read);
      WritesStayDerived(After(run[..|run| - 1]), run[|run| - 1], read);
    }
  }

  /** The winner's document is in the index as its file is now. */
  predicate Settled(t: Tables, job: JobId, path: Path, disk: Disk, read: Reader) {
    && Names(disk, read, path, job)
    && UpToDate(t, job, path, Examine(disk, read, path).raw)
  }

  /** Winners are settled, and every other document is as it was before the rescan. */
  predicate Progress(before: Tables, t: Tables, claims: map<JobId, Path>, disk: Disk, read: Reader) {
    && (forall job | job in claims :: Settled(t, job, claims[job], disk, read))
    && t.docs.Keys == before.docs.Keys + claims.Keys
    && (forall job | job in before.docs && job !in claims :: t.docs[job] == before.docs[job])
  }

  ghost predicate ScanInv(before: Tables, s: Scan, disk: Disk, read: Reader) {
    Paired(s.index) && Progress(before, s.index, s.claims, disk, read)
  }

  /** What one file does to the tables and the claims of a scan. */
  predicate Claims(
      t: Tables, claims: map<JobId, Path>, u: Tables, after: map<JobId, Path>, path: Path, disk: Disk, read: Reader)
  {
    var f := Examine(disk, read, path);
    if f.Found? && f.report.doc.analysisId !in claims then
      && after == claims[f.report.doc.analysisId := path]
      && u == if UpToDate(t, f.report.doc.analysisId, path, f.raw) then t
              else Written(t, Upserted(EntryOf(f.report, path, f.raw), BodyOf(f.report)))
    else u == t && after == claims
  }

  lemma StepClaims(s: Scan, path: Path, disk: Disk, read: Reader)
    requires !s.failed && !Step(s, path, Examine(disk, read, path), read).failed
    ensures var after := Step(s, path, Examine(disk, read, path), read);
      Claims(s.index, s.claims, after.index, after.claims, path, disk, read)
  {
  }

  lemma ClaimsKeepInv(
      before: Tables, t: Tables, claims: map<JobId, Path>, u: Tables, after: map<JobId, Path>, path: Path,
      disk: Disk, read: Reader)
    requires Paired(t) && Progress(before, t, claims, disk, read) && Claims(t, claims, u, after, path, disk, read)
    ensures Paired(u) && Progress(before, u, after, disk, read)
  {
    var f := Examine(disk, read, path);
    if f.Found? && f.report.doc.analysisId !in claims {
      var job := f.report.doc.analysisId;
      if UpToDate(t, job, path, f.raw) {
        ChangeKeepsProgress(before, t, t, claims, disk, read, job, path);
      } else {
        IndexingKeepsProgress(before, t, claims, path, disk, read);
      }
    }
  }

  lemma IndexingKeepsProgress(
      before: Tables, t: Tables, claims: map<JobId, Path>, path: Path, disk: Disk, read: Reader)
    requires Paired(t) && Progress(before, t, claims, disk, read)
    requires Examine(disk, read, path).Found? && Examine(disk, read, path).report.doc.analysisId !in claims
    ensures var f := Examine(disk, read, path);
      var u := Written(t, Upserted(EntryOf(f.report, path, f.raw), BodyOf(f.report)));
      Paired(u) && Progress(before, u, claims[f.report.doc.analysisId := path], disk, read)
  {
    var f := Examine(disk, read, path);
    var job, entry, body := f.report.doc.analysisId, EntryOf(f.report, path, f.raw), BodyOf(f.report);
    WritesKeepPairs(t, Upserted(entry, body));
    UpsertSettles(t, entry, body);
    var u := Written(t, Upserted(entry, body));
    assert Settled(u, job, path, disk, read);
    ChangeKeepsProgress(before, t, u, claims, disk, read, job, path);
  }

  /** `u` differs from `t` in the document of `job` alone. */
  predicate OnlyChanges(t: Tables, u: Tables, job: JobId) {
    && u.docs.Keys == t.docs.Keys + {job}
    && forall other | other in t.docs && other != job :: u.docs[other] == t.docs[other]
  }

  lemma ChangeKeepsProgress(
      before: Tables, t: Tables, u: Tables, claims: map<JobId, Path>, disk: Disk, read: Reader, job: JobId, path: Path)
    requires Progress(before, t, claims, disk, read) && job !in claims
    requires OnlyChanges(t, u, job) && Settled(u, job, path, disk, read)
    ensures Progress(before, u, claims[job := path], disk, read)
  {
    var after := claims[job := path];
    assert after.Keys == claims.Keys + {job};
    forall other | other in after ensures Settled(u, other, after[other], disk, read) {
      if other != job {
        assert Settled(t, other, claims[other], disk, read);
        SettledStays(t, u, job, other, claims[other], disk, read);
      }
    }
    UnclaimedStay(before, t, u, claims.Keys, job);
  }

  /** Documents outside the claims are those of before, when only a newly claimed one changes. */
  lemma UnclaimedStay(before: Tables, t: Tables, u: Tables, claimed: set<JobId>, job: JobId)
    requires t.docs.Keys == before.docs.Keys + claimed && OnlyChanges(t, u, job)
    requires forall other | other in before.docs && other !in claimed :: t.docs[other] == before.docs[other]
    ensures u.docs.Keys == before.docs.Keys + (claimed + {job})
    ensures forall other | other in before.docs && other !in claimed + {job} :: u.docs[other] == before.docs[other]
  {
    forall other | other in before.docs && other !in claimed + {job} ensures u.docs[other] == before.docs[other] {
      assert other in t.docs;
    }
  }

  lemma SettledStays(t: Tables, u: Tables, job: JobId, other: JobId, path: Path, disk: Disk, read: Reader)
    requires OnlyChanges(t, u, job) && other != job && Settled(t, other, path, disk, read)
    ensures Settled(u, other, path, disk, read)
  {
  }

  lemma UpsertSettles(t: Tables, entry: Entry, body: Body)
    ensures var u := Written(t, Upserted(entry, body));
      && OnlyChanges(t, u, entry.jobId)
      && u.docs[entry.jobId].entry == entry && u.docs[entry.jobId].status == Active
  {
  }

  lemma {:induction false} ScanKeepsInv(index: Tables, issues: set<Issue>, files: seq<Path>, disk: Disk, read: Reader)
    requires Paired(index)
    requires !ScanFiles(Begun(index, issues), files, disk, read).failed
    ensures ScanInv(index, ScanFiles(Begun(index, issues), files, disk, read), disk, read)
  {
    if files != [] {
      var front := ScanFiles(Begun(index, issues), files[..|files| - 1], disk, read);
      var s := ScanFiles(Begun(index, issues), files, disk, read);
      ScanKeepsInv(index, issues, files[..|files| - 1], disk, read);
      StepClaims(front, files[|files| - 1], disk, read);
      ClaimsKeepInv(index, front.index, front.claims, s.index, s.claims, files[|files| - 1], disk, read);
    }
  }

  // ----- what is indexed was derived from its file

  lemma FoundIsHonest(disk: Disk, read: Reader, path: Path)
    requires Examine(disk, read, path).Found?
    requires Indexable(Examine(disk, read, path).report, path, Examine(disk, read, path).raw, read)
    ensures var f := Examine(disk, read, path);
      var entry := EntryOf(f.report, path, f.raw);
      Honest(entry, FtsRowOf(entry, BodyOf(f.report)), f.report.doc.analysisId, read)
  {
  }

  lemma StepStaysDerived(s: Scan, path: Path, disk: Disk, read: Reader)
    requires !s.failed && Paired(s.index) && Derived(s.index, read)
    requires !Step(s, path, Examine(disk, read, path), read).failed
    ensures Derived(Step(s, path, Examine(disk, read, path), read).index, read)
  {
    var f := Examine(disk, read, path);
    if f.Found? && f.report.doc.analysisId !in s.claims {
      if !UpToDate(s.index, f.report.doc.analysisId, path, f.raw) {
        FoundIsHonest(disk, read, path);
        UpsertStaysDerived(s.index, EntryOf(f.report, path, f.raw), BodyOf(f.report), read);
      }
    }
  }

  lemma {:induction false} ScanStaysDerived(
      index: Tables, issues: set<Issue>, files: seq<Path>, disk: Disk, read: Reader)
    requires Paired(index) && Derived(index, read)
    requires !ScanFiles(Begun(index, issues), files, disk, read).failed
    ensures Derived(ScanFiles(Begun(index, issues), files, disk, read).index, read)
  {
    if files != [] {
      var front := ScanFiles(Begun(index, issues), files[..|files| - 1], disk, read);
      ScanStaysDerived(index, issues, files[..|files| - 1], disk, read);
      ScanKeepsInv(index, issues, files[..|files| - 1], disk, read);
      StepStaysDerived(front, files[|files| - 1], disk, read);
    }
  }
}
