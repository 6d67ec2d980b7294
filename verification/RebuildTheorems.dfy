/** The results of the rescan: convergence, completion, crashes and repetition. */
module RebuildTheorems {
  import opened ReportIndex
  import opened IndexRebuild
  import opened RebuildLaws

  // ----- convergence

  /** Every claimed document is active at the path that claimed it. */
  predicate InPlace(t: Tables, claims: map<JobId, Path>) {
    forall job | job in claims ::
      job in t.docs && t.docs[job].status == Active && t.docs[job].entry.relativePath == claims[job]
  }

  lemma SettledIsInPlace(t: Tables, claims: map<JobId, Path>, disk: Disk, read: Reader)
    requires forall job | job in claims :: Settled(t, job, claims[job], disk, read)
    ensures InPlace(t, claims)
  {
    forall job | job in claims
      ensures job in t.docs && t.docs[job].status == Active && t.docs[job].entry.relativePath == claims[job]
    {
      assert Settled(t, job, claims[job], disk, read);
    }
  }

  /** The absence pass: claimed documents stay as they are, the others are missing or deleted. */
  predicate Departed(t: Tables, u: Tables, claims: map<JobId, Path>, scanned: seq<Path>, purge: bool) {
    && (forall job | job in claims :: job in t.docs && job in u.docs && u.docs[job] == t.docs[job])
    && (forall job | job in u.docs && job !in claims :: job in t.docs && u.docs[job] == t.docs[job].(status := Missing))
    && (forall job | job in t.docs && job !in claims ::
          job in u.docs <==> !(purge && t.docs[job].entry.relativePath !in scanned))
    && u.fts == t.fts - (set j | j in t.docs && j !in claims :: t.docs[j].id)
    && u.nextId == t.nextId
  }

  lemma SweepDeparts(t: Tables, claims: map<JobId, Path>, scanned: seq<Path>, purge: bool)
    requires InPlace(t, claims)
    ensures Departed(t, MarkAbsent(t, claims, scanned, purge), claims, scanned, purge)
  {
    assert forall j | j in t.docs :: Claimed(t, claims, j) <==> j in claims;
    assert (set j | j in t.docs.Keys && j in t.docs && !Claimed(t, claims, j)) == (set j | j in t.docs && j !in claims);
  }

  lemma DepartureKeepsPairs(t: Tables, u: Tables, claims: map<JobId, Path>, scanned: seq<Path>, purge: bool)
    requires Paired(t) && InPlace(t, claims) && Departed(t, u, claims, scanned, purge)
    ensures Paired(u)
  {
    forall id | id in u.fts ensures RowMatches(u, id) {
      assert RowMatches(t, id);
      var j :| j in t.docs && t.docs[j].id == id && Live(t.docs[j]);
      assert j in claims && j in u.docs;
    }
    forall j | j in u.docs ensures j in t.docs && u.docs[j].id == t.docs[j].id {
      assert j in claims || j !in claims;
    }
  }

  /** What a winning file puts into the index. */
  predicate Shows(t: Tables, job: JobId, path: Path, disk: Disk, read: Reader) {
    && Names(disk, read, path, job)
    && job in t.docs && t.docs[job].status == Active && t.docs[job].id in t.fts
    && var f := Examine(disk, read, path);
      && t.docs[job].entry == EntryOf(f.report, path, f.raw).(source := t.docs[job].entry.source)
      && t.fts[t.docs[job].id] == FtsRowOf(EntryOf(f.report, path, f.raw), BodyOf(f.report))
  }

  lemma SettledShows(t: Tables, job: JobId, path: Path, disk: Disk, read: Reader)
    requires Settled(t, job, path, disk, read) && Faithful(t, job, read)
    ensures Shows(t, job, path, disk, read)
  {
    var f := Examine(disk, read, path);
    SourceIsNotIndexed(EntryOf(f.report, path, f.raw), t.docs[job].entry.source, BodyOf(f.report));
  }

  lemma SourceIsNotIndexed(entry: Entry, source: DocSource, body: Body)
    ensures FtsRowOf(entry.(source := source), body) == FtsRowOf(entry, body)
  {
  }

  /** The tables a completed rescan leaves behind, in terms of the scan it made. */
  lemma CompletedScan(
      index: Tables, issues: set<Issue>, disk: Disk, files: seq<Path>, read: Reader, purge: bool, s: Scan)
    requires Paired(index)
    requires s == ScanFiles(Begun(index, issues), files, disk, read) && !s.failed
    ensures ScanInv(index, s, disk, read) && s.claims == Winners(files, disk, read) && s.scanned == files
    ensures Rescanned(index, issues, disk, files, read, purge) ==
      Completed(MarkAbsent(s.index, s.claims, files, purge), ResolveAbsent(s.issues, files), s.counts)
  {
    ScanKeepsInv(index, issues, files, disk, read);
    ScanClaimsWinners(index, issues, files, disk, read);
  }

  /**
   From any paired index whatever, a completed rescan leaves a paired index. Its searchable documents are
   exactly the winners, each active at the winning path with the hash of the file; every other document is
   missing, and with `purge` only if its file is still there.
   */
  lemma RescanPlaces(
      index: Tables, issues: set<Issue>, disk: Disk, files: seq<Path>, read: Reader, purge: bool)
    requires Paired(index) && Rescanned(index, issues, disk, files, read, purge).Completed?
    ensures var u, winners := Rescanned(index, issues, disk, files, read, purge).index, Winners(files, disk, read);
      && Paired(u) && Verify(u).consistent
      && (forall job :: job in winners <==> job in u.docs && Live(u.docs[job]))
      && (forall job | job in winners :: Settled(u, job, winners[job], disk, read))
      && (forall job | job in u.docs && job !in winners :: purge ==> u.docs[job].entry.relativePath in files)
      && (forall job | job in index.docs && job !in winners ::
            job in u.docs <==> !(purge && index.docs[job].entry.relativePath !in files))
      && u.docs.Keys <= index.docs.Keys + winners.Keys
  {
    var s := ScanFiles(Begun(index, issues), files, disk, read);
    CompletedScan(index, issues, disk, files, read, purge, s);
    var u := MarkAbsent(s.index, s.claims, files, purge);
    SettledIsInPlace(s.index, s.claims, disk, read);
    SweepDeparts(s.index, s.claims, files, purge);
    DepartureKeepsPairs(s.index, u, s.claims, files, purge);
    VerifyMeansPaired(u);
    forall job | job in s.claims ensures Settled(u, job, s.claims[job], disk, read) {
      assert Settled(s.index, job, s.claims[job], disk, read);
    }
  }

  /**
   When the index was derived from files, as every history of it leaves it, each winner's document also
   carries the metadata and the text of its file. Nothing of this depends on what the index held before.
   */
  lemma RescanConverges(
      index: Tables, issues: set<Issue>, disk: Disk, files: seq<Path>, read: Reader, purge: bool)
    requires Paired(index) && Derived(index, read)
    requires Rescanned(index, issues, disk, files, read, purge).Completed?
    ensures var u, winners := Rescanned(index, issues, disk, files, read, purge).index, Winners(files, disk, read);
      && Paired(u) && Derived(u, read)
      && (forall job :: job in winners <==> job in u.docs && Live(u.docs[job]))
      && (forall job | job in winners :: Shows(u, job, winners[job], disk, read))
  {
    var s := ScanFiles(Begun(index, issues), files, disk, read);
    CompletedScan(index, issues, disk, files, read, purge, s);
    ScanStaysDerived(index, issues, files, disk, read);
    RescanPlaces(index, issues, disk, files, read, purge);
    var u := MarkAbsent(s.index, s.claims, files, purge);
    SettledIsInPlace(s.index, s.claims, disk, read);
    SweepDeparts(s.index, s.claims, files, purge);
    forall job ensures Faithful(u, job, read) {
      WinnerStaysFaithful(s.index, u, s.claims, files, purge, job, read);
    }
    forall job | job in s.claims ensures Shows(u, job, s.claims[job], disk, read) {
      assert Settled(u, job, s.claims[job], disk, read) && Faithful(u, job, read);
      SettledShows(u, job, s.claims[job], disk, read);
    }
  }

  lemma WinnerStaysFaithful(
      t: Tables, u: Tables, claims: map<JobId, Path>, scanned: seq<Path>, purge: bool, job: JobId, read: Reader)
    requires Paired(t) && Faithful(t, job, read) && InPlace(t, claims) && Departed(t, u, claims, scanned, purge)
    ensures Faithful(u, job, read)
  {
    if job in claims {
      assert t.docs[job].id !in set j | j in t.docs && j !in claims :: t.docs[j].id;
    }
  }

  /** What a reader of the index sees: per job the entry, wherever it was indexed from, and its row. */
  function View(t: Tables): map<JobId, (Entry, FtsRow)> {
    map j | j in t.docs && Live(t.docs[j]) && t.docs[j].id in t.fts ::
      (t.docs[j].entry.(source := Rescan), t.fts[t.docs[j].id])
  }

  /** Two indexes rescanned over the same files show the same documents. */
  lemma HistoryDoesNotMatter(
      a: Tables, aIssues: set<Issue>, aPurge: bool, b: Tables, bIssues: set<Issue>, bPurge: bool,
      disk: Disk, files: seq<Path>, read: Reader)
    requires Paired(a) && Derived(a, read) && Paired(b) && Derived(b, read)
    requires Rescanned(a, aIssues, disk, files, read, aPurge).Completed?
    requires Rescanned(b, bIssues, disk, files, read, bPurge).Completed?
    ensures View(Rescanned(a, aIssues, disk, files, read, aPurge).index)
      == View(Rescanned(b, bIssues, disk, files, read, bPurge).index)
  {
    RescanConverges(a, aIssues, disk, files, read, aPurge);
    RescanConverges(b, bIssues, disk, files, read, bPurge);
    ShownView(Rescanned(a, aIssues, disk, files, read, aPurge).index, Winners(files, disk, read), disk, read);
    ShownView(Rescanned(b, bIssues, disk, files, read, bPurge).index, Winners(files, disk, read), disk, read);
  }

  function Expected(winners: map<JobId, Path>, disk: Disk, read: Reader): map<JobId, (Entry, FtsRow)> {
    map j | j in winners && Examine(disk, read, winners[j]).Found? ::
      var f := Examine(disk, read, winners[j]);
      (EntryOf(f.report, winners[j], f.raw), FtsRowOf(EntryOf(f.report, winners[j], f.raw), BodyOf(f.report)))
  }

  lemma SameMaps<K, V>(a: map<K, V>, b: map<K, V>)
    requires forall k :: k in a <==> k in b
    requires forall k | k in a :: a[k] == b[k]
    ensures a == b
  {
  }

  lemma ShownView(t: Tables, winners: map<JobId, Path>, disk: Disk, read: Reader)
    requires forall job :: job in winners <==> job in t.docs && Live(t.docs[job])
    requires forall job | job in winners :: Shows(t, job, winners[job], disk, read)
    ensures View(t) == Expected(winners, disk, read)
  {
    var view, expected := View(t), Expected(winners, disk, read);
    forall job
      ensures job in view <==> job in winners
      ensures job in expected <==> job in winners
      ensures job in winners ==> view[job] == expected[job]
    {
      ShownJob(t, winners, disk, read, job);
    }
    SameMaps(view, expected);
  }

  lemma ShownJob(t: Tables, winners: map<JobId, Path>, disk: Disk, read: Reader, job: JobId)
    requires job in winners <==> job in t.docs && Live(t.docs[job])
    requires job in winners ==> Shows(t, job, winners[job], disk, read)
    ensures job in View(t) <==> job in winners
    ensures job in Expected(winners, disk, read) <==> job in winners
    ensures job in winners ==> View(t)[job] == Expected(winners, disk, read)[job]
  {
  }

  // ----- completion

  ghost predicate WinnersAcceptable(files: seq<Path>, disk: Disk, read: Reader) {
    var winners := Winners(files, disk, read);
    forall job | job in winners :: AcceptableFile(disk, read, winners[job])
  }

  predicate AcceptableFile(disk: Disk, read: Reader, path: Path) {
    var f := Examine(disk, read, path);
    f.Found? ==> Indexable(f.report, path, f.raw, read)
  }

  /** The winner's metadata is acceptable, or the index already holds the file and never looks at it. */
  predicate Passes(index: Tables, job: JobId, path: Path, disk: Disk, read: Reader) {
    var f := Examine(disk, read, path);
    f.Found? ==> Indexable(f.report, path, f.raw, read) || UpToDate(index, job, path, f.raw)
  }

  ghost predicate WinnersPass(index: Tables, files: seq<Path>, disk: Disk, read: Reader) {
    var winners := Winners(files, disk, read);
    forall job | job in winners :: Passes(index, job, winners[job], disk, read)
  }

  /**
   A rescan completes exactly when no listed file makes the reader raise, whether or not it wins an id, and every
   winner is acceptable or already indexed as it is.
   */
  lemma {:induction false} CompletesIff(index: Tables, issues: set<Issue>, disk: Disk, files: seq<Path>, read: Reader)
    requires Paired(index)
    ensures !ScanFiles(Begun(index, issues), files, disk, read).failed <==>
      NoneRaises(files, disk, read) && WinnersPass(index, files, disk, read)
  {
    if files != [] {
      var front, path := files[..|files| - 1], files[|files| - 1];
      assert files == front + [path];
      CompletesIff(index, issues, disk, front, read);
      var s := ScanFiles(Begun(index, issues), front, disk, read);
      WinnersGrow(index, files, disk, read);
      if !s.failed {
        ScanKeepsInv(index, issues, front, disk, read);
        ScanClaimsWinners(index, issues, front, disk, read);
        NewWinnerDecides(index, s, path, disk, read);
      }
    }
  }

  /**
   For an index derived from files being indexed already is no way out: a file on which the reader raises, or
   one report that cannot be indexed, aborts every rescan of the folder, whatever the index holds.
   */
  lemma OneReportAbortsEveryRescan(
      index: Tables, issues: set<Issue>, disk: Disk, files: seq<Path>, read: Reader)
    requires Paired(index) && Derived(index, read)
    ensures ScanFiles(Begun(index, issues), files, disk, read).failed <==>
      !NoneRaises(files, disk, read) || !WinnersAcceptable(files, disk, read)
  {
    CompletesIff(index, issues, disk, files, read);
    var winners := Winners(files, disk, read);
    forall job | job in winners
      ensures Passes(index, job, winners[job], disk, read) <==> AcceptableFile(disk, read, winners[job])
    {
      WinnersComeFirst(files, disk, read, job);
      PassingIsAcceptable(index, job, winners[job], disk, read);
    }
  }

  lemma PassingIsAcceptable(t: Tables, job: JobId, path: Path, disk: Disk, read: Reader)
    requires Names(disk, read, path, job) && Faithful(t, job, read)
    ensures Passes(t, job, path, disk, read) <==> AcceptableFile(disk, read, path)
  {
  }

  lemma WinnersGrow(index: Tables, files: seq<Path>, disk: Disk, read: Reader)
    requires files != []
    ensures var front, path := files[..|files| - 1], files[|files| - 1];
      var f, before := Examine(disk, read, path), Winners(front, disk, read);
      WinnersPass(index, files, disk, read) <==>
        WinnersPass(index, front, disk, read)
        && (f.Found? && f.report.doc.analysisId !in before ==> Passes(index, f.report.doc.analysisId, path, disk, read))
  {
    var front, path := files[..|files| - 1], files[|files| - 1];
    var f, before, winners := Examine(disk, read, path), Winners(front, disk, read), Winners(files, disk, read);
    if f.Found? && f.report.doc.analysisId !in before {
      var job := f.report.doc.analysisId;
      assert winners == before[job := path];
      assert job in winners && winners[job] == path;
      forall other | other in before ensures other in winners && winners[other] == before[other] {
        assert other != job;
      }
    } else {
      assert winners == before;
    }
  }

  lemma NewWinnerDecides(before: Tables, s: Scan, path: Path, disk: Disk, read: Reader)
    requires !s.failed && ScanInv(before, s, disk, read)
    ensures var f := Examine(disk, read, path);
      Step(s, path, f, read).failed <==>
        || f.Raising?
        || (f.Found? && f.report.doc.analysisId !in s.claims
            && !Passes(before, f.report.doc.analysisId, path, disk, read))
  {
    var f := Examine(disk, read, path);
    if f.Found? && f.report.doc.analysisId !in s.claims {
      UntouchedIsAsBefore(before, s, f.report.doc.analysisId, path, f.raw, disk, read);
    }
  }

  lemma UntouchedIsAsBefore(before: Tables, s: Scan, job: JobId, path: Path, raw: string, disk: Disk, read: Reader)
    requires ScanInv(before, s, disk, read) && job !in s.claims
    ensures UpToDate(s.index, job, path, raw) <==> UpToDate(before, job, path, raw)
  {
    assert job in s.index.docs <==> job in before.docs;
  }
}
