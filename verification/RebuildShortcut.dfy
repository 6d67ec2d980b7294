/**
 What a rescan makes of an index that is paired but otherwise arbitrary. A document whose path and hash
 match its file is taken to be current, and its text is not looked at.
 */
module RebuildShortcut {
  import opened ReportIndex
  import opened IndexRebuild
  import opened RebuildLaws
  import opened RebuildTheorems

  /** The shortcut would apply, and the document is what the file says all the same. */
  predicate ShortcutIsTrue(t: Tables, job: JobId, path: Path, disk: Disk, read: Reader) {
    Names(disk, read, path, job) && UpToDate(t, job, path, Examine(disk, read, path).raw) ==>
      Shows(t, job, path, disk, read)
  }

  /** One claimed document during the scan: in place, and right unless the shortcut kept something wrong. */
  ghost predicate Decided(before: Tables, t: Tables, job: JobId, path: Path, disk: Disk, read: Reader) {
    && Settled(t, job, path, disk, read)
    && (Shows(t, job, path, disk, read) <==> ShortcutIsTrue(before, job, path, disk, read))
  }

  predicate SameRow(t: Tables, u: Tables, job: JobId) {
    && (job in t.docs <==> job in u.docs)
    && (job in t.docs ==>
          && t.docs[job] == u.docs[job]
          && (t.docs[job].id in t.fts <==> t.docs[job].id in u.fts)
          && (t.docs[job].id in t.fts ==> t.fts[t.docs[job].id] == u.fts[t.docs[job].id]))
  }

  ghost predicate ShortcutInv(before: Tables, t: Tables, claims: map<JobId, Path>, disk: Disk, read: Reader) {
    && Paired(t)
    && (forall job | job in claims :: Decided(before, t, job, claims[job], disk, read))
    && (forall job | job !in claims :: SameRow(before, t, job))
  }

  lemma SameRowShows(t: Tables, u: Tables, job: JobId, path: Path, disk: Disk, read: Reader)
    requires SameRow(t, u, job)
    ensures Shows(t, job, path, disk, read) <==> Shows(u, job, path, disk, read)
    ensures Settled(t, job, path, disk, read) <==> Settled(u, job, path, disk, read)
  {
  }

  lemma UpsertLeavesOthers(t: Tables, entry: Entry, body: Body, job: JobId)
    requires Paired(t) && job != entry.jobId
    ensures SameRow(t, Written(t, Upserted(entry, body)), job)
  {
  }

  lemma UpsertShows(t: Tables, path: Path, disk: Disk, read: Reader)
    requires Examine(disk, read, path).Found?
    ensures var f := Examine(disk, read, path);
      var job, u := f.report.doc.analysisId, Written(t, Upserted(EntryOf(f.report, path, f.raw), BodyOf(f.report)));
      Shows(u, job, path, disk, read) && Settled(u, job, path, disk, read)
  {
  }

  lemma ClaimDecides(before: Tables, t: Tables, claims: map<JobId, Path>, u: Tables, job: JobId, path: Path,
                     disk: Disk, read: Reader)
    requires ShortcutInv(before, t, claims, disk, read) && job !in claims
    requires Paired(u) && Decided(before, u, job, path, disk, read)
    requires forall other | other != job :: SameRow(t, u, other)
    ensures ShortcutInv(before, u, claims[job := path], disk, read)
  {
    var after := claims[job := path];
    forall other | other in after ensures Decided(before, u, other, after[other], disk, read) {
      if other != job {
        DecidedStays(before, t, u, other, claims[other], disk, read);
      }
    }
    forall other | other !in after ensures SameRow(before, u, other) {
      SameRowTwice(before, t, u, other);
    }
  }

  lemma DecidedStays(before: Tables, t: Tables, u: Tables, job: JobId, path: Path, disk: Disk, read: Reader)
    requires Decided(before, t, job, path, disk, read) && SameRow(t, u, job)
    ensures Decided(before, u, job, path, disk, read)
  {
    SameRowShows(t, u, job, path, disk, read);
  }

  lemma SameRowTwice(t: Tables, u: Tables, v: Tables, job: JobId)
    requires SameRow(t, u, job) && SameRow(u, v, job)
    ensures SameRow(t, v, job)
  {
  }

  /** Indexing a winner the shortcut does not apply to. */
  lemma IndexingDecides(before: Tables, t: Tables, claims: map<JobId, Path>, path: Path, disk: Disk, read: Reader)
    requires ShortcutInv(before, t, claims, disk, read) && Examine(disk, read, path).Found?
    requires var f := Examine(disk, read, path); var job := f.report.doc.analysisId;
      job !in claims && !UpToDate(before, job, path, f.raw)
    ensures var f := Examine(disk, read, path);
      var u := Written(t, Upserted(EntryOf(f.report, path, f.raw), BodyOf(f.report)));
      ShortcutInv(before, u, claims[f.report.doc.analysisId := path], disk, read)
  {
    var f := Examine(disk, read, path);
    var entry, body := EntryOf(f.report, path, f.raw), BodyOf(f.report);
    var u := Written(t, Upserted(entry, body));
    WritesKeepPairs(t, Upserted(entry, body));
    UpsertShows(t, path, disk, read);
    forall other | other != entry.jobId ensures SameRow(t, u, other) {
      UpsertLeavesOthers(t, entry, body, other);
    }
    ClaimDecides(before, t, claims, u, entry.jobId, path, disk, read);
  }

  /** Claiming a winner the shortcut applies to. */
  lemma TrustingDecides(before: Tables, t: Tables, claims: map<JobId, Path>, path: Path, disk: Disk, read: Reader)
    requires ShortcutInv(before, t, claims, disk, read) && Examine(disk, read, path).Found?
    requires var f := Examine(disk, read, path); var job := f.report.doc.analysisId;
      job !in claims && UpToDate(t, job, path, f.raw)
    ensures ShortcutInv(before, t, claims[Examine(disk, read, path).report.doc.analysisId := path], disk, read)
  {
    var job := Examine(disk, read, path).report.doc.analysisId;
    SameRowShows(before, t, job, path, disk, read);
    ClaimDecides(before, t, claims, t, job, path, disk, read);
  }

  lemma ClaimsKeepShortcut(
      before: Tables, t: Tables, claims: map<JobId, Path>, u: Tables, after: map<JobId, Path>, path: Path,
      disk: Disk, read: Reader)
    requires ShortcutInv(before, t, claims, disk, read) && Claims(t, claims, u, after, path, disk, read)
    ensures ShortcutInv(before, u, after, disk, read)
  {
    var f := Examine(disk, read, path);
    if f.Found? && f.report.doc.analysisId !in claims {
      assert SameRow(before, t, f.report.doc.analysisId);
      if UpToDate(t, f.report.doc.analysisId, path, f.raw) {
        TrustingDecides(before, t, claims, path, disk, read);
      } else {
        IndexingDecides(before, t, claims, path, disk, read);
      }
    }
  }

  lemma {:induction false} ScanKeepsShortcut(
      index: Tables, issues: set<Issue>, files: seq<Path>, disk: Disk, read: Reader)
    requires Paired(index) && !ScanFiles(Begun(index, issues), files, disk, read).failed
    ensures var s := ScanFiles(Begun(index, issues), files, disk, read);
      ShortcutInv(index, s.index, s.claims, disk, read)
  {
    if files != [] {
      var front := ScanFiles(Begun(index, issues), files[..|files| - 1], disk, read);
      ScanKeepsShortcut(index, issues, files[..|files| - 1], disk, read);
      var s := ScanFiles(Begun(index, issues), files, disk, read);
      StepClaims(front, files[|files| - 1], disk, read);
      ClaimsKeepShortcut(
        index, front.index, front.claims, s.index, s.claims, files[|files| - 1], disk, read);
    }
  }

  lemma SweepLeavesClaimed(
      t: Tables, u: Tables, claims: map<JobId, Path>, scanned: seq<Path>, purge: bool, job: JobId)
    requires Paired(t) && Departed(t, u, claims, scanned, purge) && job in claims
    ensures SameRow(t, u, job)
  {
    assert t.docs[job].id !in set j | j in t.docs && j !in claims :: t.docs[j].id;
  }

  /**
   From any paired index whatever, the winners' documents all say what their files say after a completed
   rescan exactly when none of them had, before it, the path and hash of its file over another text.
   */
  lemma ContentConvergesIff(index: Tables, issues: set<Issue>, disk: Disk, files: seq<Path>, read: Reader, purge: bool)
    requires Paired(index) && Rescanned(index, issues, disk, files, read, purge).Completed?
    ensures var u, winners := Rescanned(index, issues, disk, files, read, purge).index, Winners(files, disk, read);
      (forall job | job in winners :: Shows(u, job, winners[job], disk, read)) <==>
      (forall job | job in winners :: ShortcutIsTrue(index, job, winners[job], disk, read))
  {
    var s := ScanFiles(Begun(index, issues), files, disk, read);
    ScanKeepsShortcut(index, issues, files, disk, read);
    CompletedScan(index, issues, disk, files, read, purge, s);
    var u := MarkAbsent(s.index, s.claims, files, purge);
    SettledIsInPlace(s.index, s.claims, disk, read);
    SweepDeparts(s.index, s.claims, files, purge);
    forall job | job in s.claims
      ensures Shows(u, job, s.claims[job], disk, read) <==> ShortcutIsTrue(index, job, s.claims[job], disk, read)
    {
      assert Decided(index, s.index, job, s.claims[job], disk, read);
      SweepLeavesClaimed(s.index, u, s.claims, files, purge, job);
      SameRowShows(s.index, u, job, s.claims[job], disk, read);
    }
  }

  /** The index of one document whose text is arbitrary. */
  function OneDocument(entry: Entry, text: FtsRow): Tables {
    Tables(map[entry.jobId := Doc(0, entry, Active)], map[0 := text], 1)
  }

  lemma OneDocumentIsPaired(entry: Entry, text: FtsRow)
    ensures Paired(OneDocument(entry, text))
  {
    var t := OneDocument(entry, text);
    assert entry.jobId in t.docs && RowMatches(t, 0);
  }

  lemma ScanOfOne(s: Scan, path: Path, disk: Disk, read: Reader)
    ensures ScanFiles(s, [path], disk, read) == Step(s, path, Examine(disk, read, path), read)
  {
    assert [path][..0] == [];
    assert ScanFiles(s, [], disk, read) == s;
  }

  /** An index with the right hash over the wrong text is taken for current: no rescan repairs it. */
  lemma WrongTextIsKept(disk: Disk, path: Path, read: Reader, wrong: FtsRow, purge: bool)
    requires Examine(disk, read, path).Found?
    ensures var f := Examine(disk, read, path);
      var index := OneDocument(EntryOf(f.report, path, f.raw), wrong);
      var r := Rescanned(index, {}, disk, [path], read, purge);
      Paired(index) && r.Completed? && r.index == index
  {
    var f := Examine(disk, read, path);
    var entry := EntryOf(f.report, path, f.raw);
    var index := OneDocument(entry, wrong);
    OneDocumentIsPaired(entry, wrong);
    ScanOfOne(Begun(index, {}), path, disk, read);
    assert UpToDate(index, entry.jobId, path, f.raw);
    SweepOfClaimed(index, map[entry.jobId := path], [path], purge);
  }

  /** Where every document is claimed, the absence pass has nothing to do. */
  lemma SweepOfClaimed(t: Tables, claims: map<JobId, Path>, scanned: seq<Path>, purge: bool)
    requires forall job | job in t.docs :: Claimed(t, claims, job)
    ensures MarkAbsent(t, claims, scanned, purge) == t
  {
    var u := MarkAbsent(t, claims, scanned, purge);
    assert u.docs == t.docs;
    assert (set j | j in t.docs.Keys && j in t.docs && !Claimed(t, claims, j)) == {};
    assert u.fts == t.fts;
  }
}
