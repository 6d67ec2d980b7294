/** The rescan as it runs: listing, batches, the absence pass, and the persisted state around them. */
module RebuildService {
  import opened Wrappers
  import opened ReportIndex
  import opened IndexRebuild
  import opened RebuildLaws
  import opened RebuildTheorems
  import opened RebuildRuns
  import Text

  // ----- the listing

  /** String order by code point. */
  predicate Less(a: string, b: string) {
    b != "" && (a == "" || a[0] < b[0] || (a[0] == b[0] && Less(a[1..], b[1..])))
  }

  lemma {:induction false} LessIsTotal(a: string, b: string)
    ensures Less(a, b) || Less(b, a) || a == b
    ensures !(Less(a, b) && Less(b, a)) && !Less(a, a)
  {
    if a != "" {
      LessIsTotal(a[1..], a[1..]);
      if b != "" {
        LessIsTotal(a[1..], b[1..]);
        assert a == [a[0]] + a[1..] && b == [b[0]] + b[1..];
      }
    }
  }

  lemma {:induction false} LessIsTransitive(a: string, b: string, c: string)
    requires Less(a, b) && Less(b, c)
    ensures Less(a, c)
  {
    if a != "" && a[0] == b[0] == c[0] {
      LessIsTransitive(a[1..], b[1..], c[1..]);
    }
  }

  ghost predicate Ascending(files: seq<Path>) { forall i, j | 0 <= i < j < |files| :: Less(files[i], files[j]) }

  /** A Markdown file with no hidden part in its path. */
  predicate Eligible(path: Path) {
    && path != "" && path[0] != '.'
    && (forall i :: 0 <= i < |path| - 1 ==> !(path[i] == '/' && path[i + 1] == '.'))
    && |path| >= 3 && Text.Lower(path)[|path| - 3..] == ".md"
  }

  lemma InsertKeepsOrder(files: seq<Path>, k: nat, path: Path)
    requires Ascending(files) && k <= |files|
    requires k > 0 ==> Less(files[k - 1], path)
    requires k < |files| ==> Less(path, files[k])
    ensures Ascending(files[..k] + [path] + files[k..])
  {
    var r := files[..k] + [path] + files[k..];
    forall i, j | 0 <= i < j < |r| ensures Less(r[i], r[j]) {
      if j == k && i < k - 1 {
        LessIsTransitive(files[i], files[k - 1], path);
      }
      if i == k && j > k + 1 {
        LessIsTransitive(path, files[k], files[j - 1]);
      }
    }
  }

  /** The eligible files of a directory walk, in order. A walk names no path twice. */
  method Collect(walk: seq<Path>) returns (files: seq<Path>)
    requires Distinct(walk)
    ensures Ascending(files) && Distinct(files)
    ensures forall p :: p in files <==> p in walk && Eligible(p)
  {
    files := [];
    for n := 0 to |walk|
      invariant Ascending(files)
      invariant forall p :: p in files <==> p in walk[..n] && Eligible(p)
    {
      var path := walk[n];
      assert walk[..n + 1] == walk[..n] + [path];
      if Eligible(path) {
        assert path !in files;
        var k := 0;
        while k < |files| && Less(files[k], path)
          invariant k <= |files|
          invariant k > 0 ==> Less(files[k - 1], path)
        {
          k := k + 1;
        }
        if k < |files| {
          LessIsTotal(files[k], path);
        }
        InsertKeepsOrder(files, k, path);
        files := files[..k] + [path] + files[k..];
      }
    }
    assert walk[..|walk|] == walk;
    forall i, j | 0 <= i < j < |files| ensures files[i] != files[j] {
      LessIsTotal(files[i], files[j]);
    }
  }

  /** The listing is determined by the set of paths: the order of the walk does not matter. */
  lemma {:induction false} ListingIsUnique(a: seq<Path>, b: seq<Path>)
    requires Ascending(a) && Ascending(b) && forall p :: p in a <==> p in b
    ensures a == b
    decreases |a|
  {
    assert b != [] ==> b[0] in b;
    if a != [] {
      assert a[|a| - 1] in b;
      var m, n := |a| - 1, |b| - 1;
      assert b[n] in a;
      LastIsLargest(a, b[n]);
      LastIsLargest(b, a[m]);
      LessIsTotal(a[m], b[n]);
      assert a[m] == b[n];
      NotBeforeItself(a);
      NotBeforeItself(b);
      forall p ensures p in a[..m] <==> p in b[..n] {
        assert p in a <==> p in b;
      }
      ListingIsUnique(a[..m], b[..n]);
    }
  }

  lemma LastIsLargest(files: seq<Path>, p: Path)
    requires Ascending(files) && p in files
    ensures p == files[|files| - 1] || Less(p, files[|files| - 1])
  {
    var i :| 0 <= i < |files| && files[i] == p;
  }

  lemma NotBeforeItself(files: seq<Path>)
    requires Ascending(files) && files != []
    ensures files[|files| - 1] !in files[..|files| - 1]
    ensures forall p :: p in files <==> p in files[..|files| - 1] || p == files[|files| - 1]
  {
    var n := |files| - 1;
    forall i | 0 <= i < n ensures files[i] != files[n] {
      LessIsTotal(files[i], files[n]);
    }
    assert files == files[..n] + [files[n]];
  }

  /** The winner of an id is the least path among the readable, parseable files that name it. */
  lemma WinnersAreLeast(files: seq<Path>, disk: Disk, read: Reader, job: JobId)
    requires Ascending(files)
    ensures job in Winners(files, disk, read) <==> exists p :: p in files && Names(disk, read, p, job)
    ensures job in Winners(files, disk, read) ==>
      var w := Winners(files, disk, read)[job];
      && w in files && Names(disk, read, w, job)
      && forall p | p in files && Names(disk, read, p, job) :: p == w || Less(w, p)
  {
    WinnersComeFirst(files, disk, read, job);
    if job in Winners(files, disk, read) {
      var i: nat :| FirstNamed(files, disk, read, job, i) && Winners(files, disk, read)[job] == files[i];
      forall p | p in files && Names(disk, read, p, job) ensures p == files[i] || Less(files[i], p) {
        var j :| 0 <= j < |files| && files[j] == p;
        assert j >= i;
      }
    }
  }

  // ----- counting over batches

  lemma {:induction false} CountsAdd(s: Scan, files: seq<Path>, disk: Disk, read: Reader)
    ensures ScanFiles(s, files, disk, read) ==
      var r := ScanFiles(s.(counts := ZERO), files, disk, read);
      r.(counts := Sum(s.counts, r.counts))
  {
    if files != [] {
      var n := |files| - 1;
      CountsAdd(s, files[..n], disk, read);
      CountsAddStep(s.counts, ScanFiles(s.(counts := ZERO), files[..n], disk, read), files[n],
        Examine(disk, read, files[n]), read);
    }
  }

  lemma CountsAddStep(before: Counts, r: Scan, path: Path, finding: Finding, read: Reader)
    ensures Step(r.(counts := Sum(before, r.counts)), path, finding, read) ==
      Step(r, path, finding, read).(counts := Sum(before, Step(r, path, finding, read).counts))
  {
    SumAssociates(before, r.counts, Counts(1, 0, 0, 1, 0));
    SumAssociates(before, r.counts, Counts(1, 0, 0, 0, 1));
    SumAssociates(before, r.counts, Counts(1, 0, 1, 0, 0));
    SumAssociates(before, r.counts, Counts(1, 1, 0, 0, 0));
  }

  lemma SumAssociates(a: Counts, b: Counts, c: Counts)
    ensures Sum(Sum(a, b), c) == Sum(a, Sum(b, c))
  {
  }

  lemma RaisingFileFails(s: Scan, files: seq<Path>, n: nat, disk: Disk, read: Reader)
    requires n < |files| && Examine(disk, read, files[n]).Raising?
    ensures ScanFiles(s, files, disk, read).failed
  {
    if !ScanFiles(s, files, disk, read).failed {
      CompletedScanRead(s, files, disk, read);
    }
  }

  // ----- the absence pass, one document at a time

  lemma SweepStep(
      t: Tables, claims: map<JobId, Path>, scanned: set<Path>, purge: bool, done: set<JobId>, job: JobId)
    requires Paired(t) && job in t.docs && job !in done
    ensures var u := Swept(t, claims, scanned, purge, done);
      Swept(t, claims, scanned, purge, done + {job}) ==
        if Claimed(t, claims, job) then u
        else Written(u, if Deleted(t, claims, scanned, purge, job) then Purged(job) else MarkedMissing(job))
  {
    var u := Swept(t, claims, scanned, purge, done);
    if Claimed(t, claims, job) {
      assert (set j | j in done + {job} && j in t.docs && !Claimed(t, claims, j))
        == (set j | j in done && j in t.docs && !Claimed(t, claims, j));
    } else {
      SweptDocs(t, claims, scanned, purge, done, job);
      SweptRows(t, claims, scanned, purge, done, job);
      if !Live(t.docs[job]) {
        assert t.docs[job].id !in u.fts;
        assert u.fts - {t.docs[job].id} == u.fts;
        assert u.docs[job := t.docs[job].(status := Missing)] == u.docs;
      }
    }
  }

  lemma LeavingIds(t: Tables, leaving: set<JobId>, job: JobId)
    requires leaving <= t.docs.Keys && job in t.docs
    ensures (set j | j in leaving + {job} :: t.docs[j].id) == (set j | j in leaving :: t.docs[j].id) + {t.docs[job].id}
  {
  }

  lemma SweptRows(
      t: Tables, claims: map<JobId, Path>, scanned: set<Path>, purge: bool, done: set<JobId>, job: JobId)
    requires job in t.docs && job !in done && !Claimed(t, claims, job)
    ensures Swept(t, claims, scanned, purge, done + {job}).fts ==
      Swept(t, claims, scanned, purge, done).fts - {t.docs[job].id}
  {
    var leaving := set j | j in done && j in t.docs && !Claimed(t, claims, j);
    assert (set j | j in done + {job} && j in t.docs && !Claimed(t, claims, j)) == leaving + {job};
    LeavingIds(t, leaving, job);
  }

  lemma SweptDocs(
      t: Tables, claims: map<JobId, Path>, scanned: set<Path>, purge: bool, done: set<JobId>, job: JobId)
    requires job in t.docs && job !in done && !Claimed(t, claims, job)
    ensures var u, v := Swept(t, claims, scanned, purge, done), Swept(t, claims, scanned, purge, done + {job});
      && job in u.docs && u.docs[job] == t.docs[job]
      && v.docs == if Deleted(t, claims, scanned, purge, job) then u.docs - {job}
                   else u.docs[job := t.docs[job].(status := Missing)]
  {
  }

  predicate OnRecord(t: Tables, pair: (JobId, Path)) {
    pair.0 in t.docs && pair.1 == t.docs[pair.0].entry.relativePath
  }

  predicate Listing(t: Tables, listed: seq<(JobId, Path)>) {
    && (forall i | 0 <= i < |listed| :: OnRecord(t, listed[i]))
    && (forall i, j | 0 <= i < j < |listed| :: listed[i].0 != listed[j].0)
    && (forall j | j in t.docs :: (j, t.docs[j].entry.relativePath) in listed)
  }

  /** The absence pass over a list of documents, one after the other. */
  function SweptInOrder(
      t: Tables, claims: map<JobId, Path>, present: set<Path>, purge: bool, listed: seq<(JobId, Path)>): Tables
  {
    if listed == [] then t
    else
      var u := SweptInOrder(t, claims, present, purge, listed[..|listed| - 1]);
      var (job, path) := listed[|listed| - 1];
      if job in claims && claims[job] == path then u
      else Written(u, if purge && path !in present then Purged(job) else MarkedMissing(job))
  }

  function JobsOf(listed: seq<(JobId, Path)>): set<JobId> { set pair | pair in listed :: pair.0 }

  lemma {:induction false} SweptOneByOne(
      t: Tables, claims: map<JobId, Path>, present: set<Path>, purge: bool, listed: seq<(JobId, Path)>)
    requires Paired(t) && forall i | 0 <= i < |listed| :: OnRecord(t, listed[i])
    requires forall i, j | 0 <= i < j < |listed| :: listed[i].0 != listed[j].0
    ensures SweptInOrder(t, claims, present, purge, listed) == Swept(t, claims, present, purge, JobsOf(listed))
  {
    if listed == [] {
      SweptNone(t, claims, present, purge);
      assert JobsOf(listed) == {};
    } else {
      var n := |listed| - 1;
      var front, pair := listed[..n], listed[n];
      SweptOneByOne(t, claims, present, purge, front);
      OneMoreJob(listed);
      assert OnRecord(t, pair);
      SweepStep(t, claims, present, purge, JobsOf(front), pair.0);
    }
  }

  lemma SweptNone(t: Tables, claims: map<JobId, Path>, present: set<Path>, purge: bool)
    ensures Swept(t, claims, present, purge, {}) == t
  {
    assert t.fts - {} == t.fts;
  }

  lemma OneMoreJob(listed: seq<(JobId, Path)>)
    requires listed != [] && forall i, j | 0 <= i < j < |listed| :: listed[i].0 != listed[j].0
    ensures listed[|listed| - 1].0 !in JobsOf(listed[..|listed| - 1])
    ensures JobsOf(listed) == JobsOf(listed[..|listed| - 1]) + {listed[|listed| - 1].0}
  {
    assert listed == listed[..|listed| - 1] + [listed[|listed| - 1]];
  }

  lemma OrderDoesNotMatter(
      t: Tables, claims: map<JobId, Path>, present: set<Path>, purge: bool, listed: seq<(JobId, Path)>)
    requires Paired(t) && Listing(t, listed)
    ensures SweptInOrder(t, claims, present, purge, listed) == Swept(t, claims, present, purge, t.docs.Keys)
  {
    SweptOneByOne(t, claims, present, purge, listed);
    forall j | j in t.docs ensures j in JobsOf(listed) {
      assert (j, t.docs[j].entry.relativePath) in listed;
    }
    assert JobsOf(listed) == t.docs.Keys;
  }

  // ----- the service

  datatype IndexState = Idle | Running | NeedsRebuild

  /**
   How far a run gets: to its end, until the folder or the process is lost before some batch or before the
   absence pass, or until the process is lost between the absence pass and the final state.
   */
  datatype Fate = Finishes | RootLost(batches: nat) | Crashes(batches: nat) | CrashesAtEnd

  /** Where a run stopped: after some files were committed, or with the absence pass committed too. */
  datatype Stop = AfterFiles(k: nat) | AfterSweep(purge: bool)

  class Service {
    var index: Tables
    var issues: set<Issue>
    var state: IndexState

    constructor (t: Tables, open: set<Issue>, saved: IndexState)
      ensures index == t && issues == open && state == saved
    {
      index, issues, state := t, open, saved;
    }

    method RecordIssue(code: IssueCode, path: Path)
      modifies this`issues
      ensures issues == old(issues) + {Issue(code, path)}
    {
      issues := issues + {Issue(code, path)};
    }

    method ResolveIssues(codes: set<IssueCode>, path: Path)
      modifies this`issues
      ensures issues == set i | i in old(issues) && !(i.path == path && i.code in codes)
    {
      issues := set i | i in issues && !(i.path == path && i.code in codes);
    }

    /** The issue statements for one examined file. */
    method ReconcileIssues(path: Path, finding: Finding, duplicate: bool)
      requires !finding.Raising? && (duplicate ==> finding.Found?)
      modifies this`issues
      ensures issues == IssuesAfter(old(issues), path, finding, duplicate)
    {
      match finding {
        case NotRead => RecordIssue(FrontmatterInvalid, path);
        case Broken(code) =>
          RecordIssue(code, path);
          ResolveIssues(DIAGNOSTICS - {code}, path);
        case Found(_, report) =>
          if !report.hasAnalysis {
            RecordIssue(EmptyBody, path);
          } else {
            ResolveIssues({EmptyBody}, path);
          }
          ResolveIssues(DIAGNOSTICS - {EmptyBody}, path);
          ResolveIssues({DuplicateAnalysisId}, path);
          if duplicate {
            RecordIssue(DuplicateAnalysisId, path);
          }
      }
      assert forall i :: i in issues <==> i in IssuesAfter(old(issues), path, finding, duplicate);
    }

    /** One examined file within a transaction. */
    method ReconcileFile(
        path: Path, finding: Finding, read: Reader, claims: map<JobId, Path>, scanned: seq<Path>, counts: Counts)
      returns (ok: bool, claims': map<JobId, Path>, scanned': seq<Path>, counts': Counts)
      requires !finding.Raising?
      modifies this`index, this`issues
      ensures var s := Step(Scan(old(index), old(issues), claims, scanned, counts, false), path, finding, read);
        ok == !s.failed && (ok ==> s == Scan(index, issues, claims', scanned', counts', false))
    {
      ok, claims', scanned' := true, claims, scanned + [path];
      var duplicate := finding.Found? && finding.report.doc.analysisId in claims;
      ReconcileIssues(path, finding, duplicate);
      if !finding.Found? {
        counts' := Sum(counts, Counts(1, 0, 0, 1, 0));
      } else if duplicate {
        counts' := Sum(counts, Counts(1, 0, 0, 0, 1));
      } else {
        var job := finding.report.doc.analysisId;
        claims' := claims[job := path];
        if UpToDate(index, job, path, finding.raw) {
          counts' := Sum(counts, Counts(1, 0, 1, 0, 0));
        } else {
          ok := Indexable(finding.report, path, finding.raw, read);
          counts' := Sum(counts, Counts(1, 1, 0, 0, 0));
          if ok {
            index := Written(index, Upserted(EntryOf(finding.report, path, finding.raw), BodyOf(finding.report)));
          }
        }
      }
    }

    /**
     One batch: the files are examined first, then one transaction reconciles them. The reader may raise
     before the transaction begins; a refused entry raises out of it, and it rolls back.
     */
    method ProcessBatch(
        paths: seq<Path>, disk: Disk, read: Reader, claims: map<JobId, Path>, scanned: seq<Path>)
      returns (ok: bool, claims': map<JobId, Path>, scanned': seq<Path>, counts: Counts)
      modifies this`index, this`issues
      ensures var s := ScanFiles(Scan(old(index), old(issues), claims, scanned, ZERO, false), paths, disk, read);
        && ok == !s.failed
        && (ok ==> s == Scan(index, issues, claims', scanned', counts, false))
        && (!ok ==> index == old(index) && issues == old(issues))
    {
      ghost var start := Scan(index, issues, claims, scanned, ZERO, false);
      var findings: seq<Finding> := [];
      for n := 0 to |paths|
        invariant |findings| == n
        invariant forall i | 0 <= i < n :: findings[i] == Examine(disk, read, paths[i]) && !findings[i].Raising?
      {
        var finding := Examine(disk, read, paths[n]);
        if finding.Raising? {
          RaisingFileFails(start, paths, n, disk, read);
          return false, claims, scanned, ZERO;
        }
        findings := findings + [finding];
      }
      var savepoint := (index, issues);
      claims', scanned', counts := claims, scanned, ZERO;
      for n := 0 to |paths|
        invariant Scan(index, issues, claims', scanned', counts, false) == ScanFiles(start, paths[..n], disk, read)
      {
        ghost var before := Scan(index, issues, claims', scanned', counts, false);
        assert paths[..n + 1][..n] == paths[..n];
        assert ScanFiles(start, paths[..n + 1], disk, read) == Step(before, paths[n], findings[n], read);
        ok, claims', scanned', counts := ReconcileFile(paths[n], findings[n], read, claims', scanned', counts);
        if !ok {
          BatchFailureIsFinal(start, paths, n + 1, disk, read);
          index, issues := savepoint.0, savepoint.1;
          return;
        }
      }
      assert paths[..|paths|] == paths;
      ok := true;
    }

    /** The documents on record with their paths, each once. */
    method ListDocuments() returns (listed: seq<(JobId, Path)>)
      ensures Listing(index, listed)
    {
      listed := [];
      var remaining := index.docs.Keys;
      while remaining != {}
        invariant remaining <= index.docs.Keys
        invariant forall i | 0 <= i < |listed| :: OnRecord(index, listed[i]) && listed[i].0 !in remaining
        invariant forall i, j | 0 <= i < j < |listed| :: listed[i].0 != listed[j].0
        invariant forall j | j in index.docs && j !in remaining :: (j, index.docs[j].entry.relativePath) in listed
        decreases |remaining|
      {
        var job :| job in remaining;
        listed := listed + [(job, index.docs[job].entry.relativePath)];
        remaining := remaining - {job};
      }
    }

    /** The absence pass. */
    method SweepAbsent(claims: map<JobId, Path>, scanned: seq<Path>, purge: bool)
      requires Paired(index)
      modifies this`index, this`issues
      ensures index == MarkAbsent(old(index), claims, scanned, purge)
      ensures issues == ResolveAbsent(old(issues), scanned)
    {
      ghost var before := index;
      var listed := ListDocuments();
      var present := Elements(scanned);
      for n := 0 to |listed|
        invariant index == SweptInOrder(before, claims, present, purge, listed[..n]) && issues == old(issues)
      {
        assert listed[..n + 1][..n] == listed[..n];
        var (job, path) := listed[n];
        if !(job in claims && claims[job] == path) {
          index := Written(index, if purge && path !in present then Purged(job) else MarkedMissing(job));
        }
      }
      assert listed[..|listed|] == listed;
      OrderDoesNotMatter(before, claims, present, purge, listed);
      issues := set i | i in issues && i.path in scanned;
    }

    /**
     A rescan. It commits whole batches only, so wherever it stops the database holds what the first
     batches left, and the persisted state says that a rescan is due.
     */
    method Run(files: seq<Path>, disk: Disk, read: Reader, purge: bool, size: nat, fate: Fate)
      returns (outcome: Option<Counts>, ghost stop: Stop)
      requires size > 0 && Distinct(files) && Paired(index)
      modifies this
      ensures outcome.Some? ==>
        && state == Idle
        && Rescanned(old(index), old(issues), disk, files, read, purge) == Completed(index, issues, outcome.value)
      ensures outcome.None? ==> state in {Running, NeedsRebuild}
      ensures outcome.None? ==> StoppedAfter(old(index), old(issues), index, issues, files, disk, read, stop)
      ensures outcome.None? && fate.Finishes? ==>
        Rescanned(old(index), old(issues), disk, files, read, purge).Aborted?
    {
      ghost var begun := Begun(index, issues);
      var claims: map<JobId, Path> := map[];
      var scanned: seq<Path> := [];
      var counts := ZERO;
      var at, batch := 0, 0;
      assert files[..0] == [];
      stop := AfterFiles(0);
      if fate == RootLost(0) {
        state := NeedsRebuild;
        return None, stop;
      }
      state := Running;
      while at < |files|
        invariant at <= |files| && state == Running
        invariant Scan(index, issues, claims, scanned, counts, false) == ScanFiles(begun, files[..at], disk, read)
      {
        stop := AfterFiles(at);
        if fate == Crashes(batch) {
          return None, stop;
        }
        if fate == RootLost(batch) {
          state := NeedsRebuild;
          return None, stop;
        }
        var next := if at + size <= |files| then at + size else |files|;
        var ok, more, seen, counted := ProcessBatch(files[at..next], disk, read, claims, scanned);
        BatchIsPrefix(begun, files, at, next, disk, read);
        if !ok {
          BatchFailureIsFinal(begun, files, next, disk, read);
          state := NeedsRebuild;
          return None, stop;
        }
        claims, scanned, counts := more, seen, Sum(counts, counted);
        at, batch := next, batch + 1;
      }
      assert files[..at] == files;
      stop := AfterFiles(at);
      if fate == Crashes(batch) {
        return None, stop;
      }
      if fate == RootLost(batch) {
        state := NeedsRebuild;
        return None, stop;
      }
      CompletedScan(begun.index, begun.issues, disk, files, read, purge, ScanFiles(begun, files, disk, read));
      RescanPlaces(begun.index, begun.issues, disk, files, read, purge);
      SweepAbsent(claims, scanned, purge);
      stop := AfterSweep(purge);
      if fate == CrashesAtEnd {
        return None, stop;
      }
      state := if Verify(index).consistent then Idle else NeedsRebuild;
      return Some(counts), stop;
    }

    /**
     Whether startup must rescan: an interrupted rescan always, an empty index when the folder has
     reports. An unusable folder is recorded instead of passing for an empty one.
     */
    method StartupNeedsRebuild(usable: bool, files: seq<Path>) returns (due: bool)
      modifies this`state
      ensures old(state) != Idle ==> due && state == NeedsRebuild
      ensures old(state) == Idle ==>
        && due == (index.docs == map[] && usable && files != [])
        && state == if index.docs == map[] && !usable then NeedsRebuild else Idle
    {
      if state == Running {
        state := NeedsRebuild;
      }
      if state == NeedsRebuild {
        return true;
      }
      if index.docs == map[] {
        if usable {
          return files != [];
        }
        state := NeedsRebuild;
      }
      return false;
    }

    /**
     Startup after any interrupted rescan finishes it as if nothing had happened. The rescan at startup never
     purges; what an interrupted one had purged stays purged.
     */
    method ReconcileOnStartup(
        files: seq<Path>, disk: Disk, read: Reader, size: nat,
        ghost before: Tables, ghost open: set<Issue>, ghost stop: Stop)
      requires size > 0 && Distinct(files) && state != Idle
      requires Paired(before)
      requires StoppedAfter(before, open, index, issues, files, disk, read, stop)
      modifies this
      ensures var once := Rescanned(before, open, disk, files, read, stop.AfterSweep? && stop.purge);
        if once.Completed? then index == once.index && issues == once.issues && state == Idle
        else state in {Running, NeedsRebuild}
    {
      match stop {
        case AfterFiles(k) => InterruptionLeavesNoTrace(before, open, disk, files, read, false, k);
        case AfterSweep(purge) =>
          RescanPlaces(before, open, disk, files, read, purge);
          RepetitionIsQuiet(before, open, disk, files, read, purge, false);
      }
      var due := StartupNeedsRebuild(true, files);
      if due {
        var outcome, _ := Run(files, disk, read, false, size, Finishes);
      }
    }
  }

  /** The tables where a rescan stopped: after its first `k` files, none of which failed, or all but done. */
  ghost predicate StoppedAfter(
      before: Tables, open: set<Issue>, index: Tables, issues: set<Issue>,
      files: seq<Path>, disk: Disk, read: Reader, stop: Stop)
  {
    match stop
    case AfterFiles(k) =>
      && k <= |files|
      && var s := ScanFiles(Begun(before, open), files[..k], disk, read);
        !s.failed && s.index == index && s.issues == issues
    case AfterSweep(purge) =>
      var r := Rescanned(before, open, disk, files, read, purge);
      r.Completed? && r.index == index && r.issues == issues
  }

  lemma BatchIsPrefix(begun: Scan, files: seq<Path>, at: nat, next: nat, disk: Disk, read: Reader)
    requires at <= next <= |files|
    ensures var s := ScanFiles(begun, files[..at], disk, read);
      var r := ScanFiles(s.(counts := ZERO), files[at..next], disk, read);
      ScanFiles(begun, files[..next], disk, read) == r.(counts := Sum(s.counts, r.counts))
  {
    assert files[..next] == files[..at] + files[at..next];
    ScanAppends(begun, files[..at], files[at..next], disk, read);
    CountsAdd(ScanFiles(begun, files[..at], disk, read), files[at..next], disk, read);
  }

  lemma BatchFailureIsFinal(begun: Scan, files: seq<Path>, next: nat, disk: Disk, read: Reader)
    requires next <= |files| && ScanFiles(begun, files[..next], disk, read).failed
    ensures ScanFiles(begun, files, disk, read).failed
  {
    assert files == files[..next] + files[next..];
    ScanAppends(begun, files[..next], files[next..], disk, read);
    FailureStays(ScanFiles(begun, files[..next], disk, read), files[next..], disk, read);
  }
}
