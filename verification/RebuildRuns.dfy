/** Interrupted and repeated rescans, and the issues they leave open. */
module RebuildRuns {
  import opened ReportIndex
  import opened IndexRebuild
  import opened RebuildLaws
  import opened RebuildTheorems

  predicate Distinct(files: seq<Path>) { forall i, j | 0 <= i < j < |files| :: files[i] != files[j] }

  // ----- issues

  /** Whether the `i`th file loses its analysis id to an earlier file. */
  predicate Duplicates(files: seq<Path>, disk: Disk, read: Reader, i: nat)
    requires i < |files|
  {
    var f := Examine(disk, read, files[i]);
    f.Found? && f.report.doc.analysisId in Winners(files[..i], disk, read)
  }

  /** Examining the file again would change none of its issues. */
  predicate IssuesFixed(issues: set<Issue>, path: Path, finding: Finding, duplicate: bool) {
    && (forall c | c in RecordedCodes(finding, duplicate) :: Issue(c, path) in issues)
    && (forall c | c in ResolvedCodes(finding, duplicate) :: Issue(c, path) !in issues)
  }

  lemma CodesAreDisjoint(finding: Finding, duplicate: bool)
    ensures RecordedCodes(finding, duplicate) !! ResolvedCodes(finding, duplicate)
  {
  }

  lemma IssuesBecomeFixed(issues: set<Issue>, path: Path, finding: Finding, duplicate: bool)
    ensures IssuesFixed(IssuesAfter(issues, path, finding, duplicate), path, finding, duplicate)
  {
    CodesAreDisjoint(finding, duplicate);
  }

  lemma FixedIssuesStay(issues: set<Issue>, path: Path, finding: Finding, duplicate: bool)
    requires IssuesFixed(issues, path, finding, duplicate)
    ensures IssuesAfter(issues, path, finding, duplicate) == issues
  {
    assert forall i | i in issues :: !(i.path == path && i.code in ResolvedCodes(finding, duplicate)) by {
      forall i | i in issues ensures !(i.path == path && i.code in ResolvedCodes(finding, duplicate)) {
        assert i == Issue(i.code, i.path);
      }
    }
  }

  lemma OtherIssuesStay(issues: set<Issue>, path: Path, finding: Finding, duplicate: bool, other: Issue)
    requires other.path != path
    ensures other in IssuesAfter(issues, path, finding, duplicate) <==> other in issues
  {
  }

  predicate FixedAt(issues: set<Issue>, files: seq<Path>, disk: Disk, read: Reader, i: nat)
    requires i < |files|
  {
    IssuesFixed(issues, files[i], Examine(disk, read, files[i]), Duplicates(files, disk, read, i))
  }

  lemma ScannedIssues(s: Scan, files: seq<Path>, disk: Disk, read: Reader)
    requires files != [] && !s.failed && s.claims == Winners(files[..|files| - 1], disk, read)
    requires !Step(s, files[|files| - 1], Examine(disk, read, files[|files| - 1]), read).failed
    ensures Step(s, files[|files| - 1], Examine(disk, read, files[|files| - 1]), read).issues ==
      LastExamined(s.issues, files, disk, read)
  {
  }

  /** What a scan that completed has made of its last file. */
  lemma LastStep(index: Tables, issues: set<Issue>, files: seq<Path>, disk: Disk, read: Reader)
    requires files != [] && !ScanFiles(Begun(index, issues), files, disk, read).failed
    ensures var front := ScanFiles(Begun(index, issues), files[..|files| - 1], disk, read);
      && !front.failed
      && ScanFiles(Begun(index, issues), files, disk, read).issues == LastExamined(front.issues, files, disk, read)
  {
    var s := ScanFiles(Begun(index, issues), files[..|files| - 1], disk, read);
    ScanClaimsWinners(index, issues, files[..|files| - 1], disk, read);
    ScannedIssues(s, files, disk, read);
  }

  lemma LastIsFixed(issues: set<Issue>, files: seq<Path>, disk: Disk, read: Reader)
    requires files != []
    ensures FixedAt(LastExamined(issues, files, disk, read), files, disk, read, |files| - 1)
  {
    var n := |files| - 1;
    IssuesBecomeFixed(issues, files[n], Examine(disk, read, files[n]), Duplicates(files, disk, read, n));
  }

  lemma EarlierStaysFixed(issues: set<Issue>, files: seq<Path>, disk: Disk, read: Reader, i: nat)
    requires Distinct(files) && i < |files| - 1 && FixedAt(issues, files[..|files| - 1], disk, read, i)
    ensures FixedAt(LastExamined(issues, files, disk, read), files, disk, read, i)
  {
    var n := |files| - 1;
    assert files[..n][..i] == files[..i];
    forall c ensures Issue(c, files[i]) in LastExamined(issues, files, disk, read) <==> Issue(c, files[i]) in issues {
      OtherIssuesStay(
        issues, files[n], Examine(disk, read, files[n]), Duplicates(files, disk, read, n), Issue(c, files[i]));
    }
  }

  /** After a scan the issues of every file it saw are as examining the file leaves them. */
  lemma {:induction false} ScanFixesIssues(
      index: Tables, issues: set<Issue>, files: seq<Path>, disk: Disk, read: Reader, i: nat)
    requires Distinct(files) && i < |files|
    requires !ScanFiles(Begun(index, issues), files, disk, read).failed
    ensures FixedAt(ScanFiles(Begun(index, issues), files, disk, read).issues, files, disk, read, i)
  {
    var front := files[..|files| - 1];
    var s := ScanFiles(Begun(index, issues), front, disk, read);
    LastStep(index, issues, files, disk, read);
    if i == |files| - 1 {
      LastIsFixed(s.issues, files, disk, read);
    } else {
      ScanFixesIssues(index, issues, front, disk, read, i);
      EarlierStaysFixed(s.issues, files, disk, read, i);
    }
  }

  /** How an open issue of one file comes to be open after a scan. */
  predicate IssueLaw(
      before: set<Issue>, after: set<Issue>, files: seq<Path>, disk: Disk, read: Reader, i: nat, code: IssueCode)
    requires i < |files|
  {
    var finding, duplicate := Examine(disk, read, files[i]), Duplicates(files, disk, read, i);
    Issue(code, files[i]) in after <==>
      || code in RecordedCodes(finding, duplicate)
      || (code !in ResolvedCodes(finding, duplicate) && Issue(code, files[i]) in before)
  }

  lemma {:induction false} ScanDecidesIssues(
      index: Tables, issues: set<Issue>, files: seq<Path>, disk: Disk, read: Reader, i: nat, code: IssueCode)
    requires Distinct(files) && i < |files|
    requires !ScanFiles(Begun(index, issues), files, disk, read).failed
    ensures IssueLaw(
      issues, ScanFiles(Begun(index, issues), files, disk, read).issues, files, disk, read, i, code)
  {
    var n := |files| - 1;
    var front := files[..n];
    var s := ScanFiles(Begun(index, issues), front, disk, read);
    LastStep(index, issues, files, disk, read);
    if i == n {
      UnseenIssuesStay(index, issues, front, disk, read, Issue(code, files[n]));
      LastFileDecides(issues, s.issues, files, disk, read, code);
    } else {
      ScanDecidesIssues(index, issues, front, disk, read, i, code);
      EarlierFileDecided(issues, s.issues, files, disk, read, i, code);
    }
  }

  function LastExamined(issues: set<Issue>, files: seq<Path>, disk: Disk, read: Reader): set<Issue>
    requires files != []
  {
    IssuesAfter(
      issues, files[|files| - 1], Examine(disk, read, files[|files| - 1]), Duplicates(files, disk, read, |files| - 1))
  }

  lemma LastFileDecides(
      before: set<Issue>, issues: set<Issue>, files: seq<Path>, disk: Disk, read: Reader, code: IssueCode)
    requires files != []
    requires Issue(code, files[|files| - 1]) in issues <==> Issue(code, files[|files| - 1]) in before
    ensures IssueLaw(before, LastExamined(issues, files, disk, read), files, disk, read, |files| - 1, code)
  {
  }

  lemma EarlierFileDecided(
      before: set<Issue>, issues: set<Issue>, files: seq<Path>, disk: Disk, read: Reader, i: nat, code: IssueCode)
    requires Distinct(files) && i < |files| - 1
    requires IssueLaw(before, issues, files[..|files| - 1], disk, read, i, code)
    ensures IssueLaw(before, LastExamined(issues, files, disk, read), files, disk, read, i, code)
  {
    var n := |files| - 1;
    assert files[..n][..i] == files[..i];
    OtherIssuesStay(
      issues, files[n], Examine(disk, read, files[n]), Duplicates(files, disk, read, n), Issue(code, files[i]));
  }

  lemma {:induction false} UnseenIssuesStay(
      index: Tables, issues: set<Issue>, files: seq<Path>, disk: Disk, read: Reader, issue: Issue)
    requires issue.path !in files
    requires !ScanFiles(Begun(index, issues), files, disk, read).failed
    ensures issue in ScanFiles(Begun(index, issues), files, disk, read).issues <==> issue in issues
  {
    if files != [] {
      var n := |files| - 1;
      var front := files[..n];
      LastStep(index, issues, files, disk, read);
      UnseenIssuesStay(index, issues, front, disk, read, issue);
      var s := ScanFiles(Begun(index, issues), front, disk, read);
      OtherIssuesStay(s.issues, files[n], Examine(disk, read, files[n]), Duplicates(files, disk, read, n), issue);
    }
  }

  /**
   The issues open after a completed rescan: per file the ones its examination records, with those it
   does not resolve left over from before; none for files that are gone.
   */
  lemma RescanDecidesIssues(
      index: Tables, issues: set<Issue>, disk: Disk, files: seq<Path>, read: Reader, purge: bool)
    requires Distinct(files) && Rescanned(index, issues, disk, files, read, purge).Completed?
    ensures forall i, code | 0 <= i < |files| ::
      IssueLaw(issues, Rescanned(index, issues, disk, files, read, purge).issues, files, disk, read, i, code)
    ensures forall issue | issue in Rescanned(index, issues, disk, files, read, purge).issues :: issue.path in files
  {
    ScanClaimsWinners(index, issues, files, disk, read);
    forall i, code | 0 <= i < |files|
      ensures IssueLaw(issues, Rescanned(index, issues, disk, files, read, purge).issues, files, disk, read, i, code)
    {
      ScanDecidesIssues(index, issues, files, disk, read, i, code);
    }
  }

  /**
   Unlike the documents, the issues do depend on history: a file that lost its id to another one and is
   then damaged keeps the duplicate issue, although nothing contests its id any more.
   */
  lemma DuplicateIssueLingers(path: Path, raw: string, lower: string -> string)
    ensures var disk, read := map[path := Bytes(raw)], Reader(_ => Malformed(FrontmatterInvalid), lower);
      var left := Issue(DuplicateAnalysisId, path);
      var after, clean := Rescanned(EMPTY, {left}, disk, [path], read, false),
        Rescanned(EMPTY, {}, disk, [path], read, false);
      after.Completed? && clean.Completed? && left in after.issues && left !in clean.issues
  {
    var disk, read := map[path := Bytes(raw)], Reader(_ => Malformed(FrontmatterInvalid), lower);
    var left := Issue(DuplicateAnalysisId, path);
    assert [path][..0] == [];
    forall issues: set<Issue>
      ensures ScanFiles(Begun(EMPTY, issues), [path], disk, read)
        == Step(Begun(EMPTY, issues), path, Broken(FrontmatterInvalid), read)
    {
      assert Examine(disk, read, path) == Broken(FrontmatterInvalid);
      assert ScanFiles(Begun(EMPTY, issues), [], disk, read) == Begun(EMPTY, issues);
    }
  }

  // ----- scanning settled files

  lemma {:induction false} WinnersMonotone(files: seq<Path>, disk: Disk, read: Reader, k: nat, job: JobId)
    requires k <= |files| && job in Winners(files[..k], disk, read)
    ensures job in Winners(files, disk, read) && Winners(files, disk, read)[job] == Winners(files[..k], disk, read)[job]
    decreases |files|
  {
    if k < |files| {
      assert files[..|files| - 1][..k] == files[..k];
      WinnersMonotone(files[..|files| - 1], disk, read, k, job);
    } else {
      assert files[..k] == files;
    }
  }

  ghost predicate AllSettled(t: Tables, issues: set<Issue>, files: seq<Path>, disk: Disk, read: Reader) {
    var winners := Winners(files, disk, read);
    && NoneRaises(files, disk, read)
    && (forall job | job in winners :: Settled(t, job, winners[job], disk, read))
    && (forall i | 0 <= i < |files| :: FixedAt(issues, files, disk, read, i))
  }

  lemma AllSettledBefore(t: Tables, issues: set<Issue>, files: seq<Path>, disk: Disk, read: Reader, k: nat)
    requires k <= |files| && AllSettled(t, issues, files, disk, read)
    ensures AllSettled(t, issues, files[..k], disk, read)
  {
    var front := files[..k];
    var winners := Winners(front, disk, read);
    forall job | job in winners ensures Settled(t, job, winners[job], disk, read) {
      WinnersMonotone(files, disk, read, k, job);
    }
    forall i | 0 <= i < |front| ensures FixedAt(issues, front, disk, read, i) {
      assert front[..i] == files[..i] && FixedAt(issues, files, disk, read, i);
    }
  }

  /** A scan over settled files writes nothing: no document, no row, no issue. */
  lemma {:induction false} SettledScan(t: Tables, issues: set<Issue>, files: seq<Path>, disk: Disk, read: Reader)
    requires AllSettled(t, issues, files, disk, read)
    ensures var s := ScanFiles(Begun(t, issues), files, disk, read);
      && !s.failed && s.index == t && s.issues == issues && s.counts.indexed == 0
  {
    if files != [] {
      var n := |files| - 1;
      var path := files[n];
      AllSettledBefore(t, issues, files, disk, read, n);
      SettledScan(t, issues, files[..n], disk, read);
      ScanClaimsWinners(t, issues, files[..n], disk, read);
      var s := ScanFiles(Begun(t, issues), files[..n], disk, read);
      SettledStep(t, issues, s, files, disk, read);
    }
  }

  lemma SettledStep(t: Tables, issues: set<Issue>, s: Scan, files: seq<Path>, disk: Disk, read: Reader)
    requires files != [] && AllSettled(t, issues, files, disk, read)
    requires !s.failed && s.index == t && s.issues == issues && s.counts.indexed == 0
    requires s.claims == Winners(files[..|files| - 1], disk, read)
    ensures var after := Step(s, files[|files| - 1], Examine(disk, read, files[|files| - 1]), read);
      && !after.failed && after.index == t && after.issues == issues && after.counts.indexed == 0
  {
    var n := |files| - 1;
    var path, finding := files[n], Examine(disk, read, files[n]);
    var winners := Winners(files, disk, read);
    assert FixedAt(issues, files, disk, read, n);
    FixedIssuesStay(issues, path, finding, Duplicates(files, disk, read, n));
    if finding.Found? && finding.report.doc.analysisId !in s.claims {
      var job := finding.report.doc.analysisId;
      assert job in winners && winners[job] == path;
      assert Settled(t, job, winners[job], disk, read);
      assert UpToDate(t, job, path, finding.raw);
    }
    ScannedIssues(s, files, disk, read);
  }

  // ----- crashes

  /** What matters of a scan apart from its counters. */
  predicate Agree(a: Scan, b: Scan) { a.(counts := ZERO) == b.(counts := ZERO) }

  lemma {:induction false} AgreementContinues(a: Scan, b: Scan, files: seq<Path>, disk: Disk, read: Reader)
    requires Agree(a, b)
    ensures Agree(ScanFiles(a, files, disk, read), ScanFiles(b, files, disk, read))
  {
    if files != [] {
      var n := |files| - 1;
      AgreementContinues(a, b, files[..n], disk, read);
      AgreementSteps(ScanFiles(a, files[..n], disk, read), ScanFiles(b, files[..n], disk, read),
        files[n], Examine(disk, read, files[n]), read);
    }
  }

  lemma AgreementSteps(a: Scan, b: Scan, path: Path, finding: Finding, read: Reader)
    requires Agree(a, b)
    ensures Agree(Step(a, path, finding, read), Step(b, path, finding, read))
  {
  }

  /** The tables a scan has committed once its first `k` files are reconciled settle those files. */
  lemma PrefixIsSettled(
      index: Tables, issues: set<Issue>, disk: Disk, files: seq<Path>, read: Reader, k: nat)
    requires Paired(index) && Distinct(files) && k <= |files|
    requires !ScanFiles(Begun(index, issues), files[..k], disk, read).failed
    ensures var s := ScanFiles(Begun(index, issues), files[..k], disk, read);
      && Paired(s.index) && AllSettled(s.index, s.issues, files[..k], disk, read)
  {
    var done := files[..k];
    CompletedScanRead(Begun(index, issues), done, disk, read);
    ScanKeepsInv(index, issues, done, disk, read);
    ScanClaimsWinners(index, issues, done, disk, read);
    forall i | 0 <= i < |done|
      ensures FixedAt(ScanFiles(Begun(index, issues), done, disk, read).issues, done, disk, read, i)
    {
      ScanFixesIssues(index, issues, done, disk, read, i);
    }
  }

  /**
   A rescan that stopped after any number of files were committed and is run again ends exactly as an
   uninterrupted one: the same documents under the same ids, the same rows and the same open issues.
   */
  lemma InterruptionLeavesNoTrace(
      index: Tables, issues: set<Issue>, disk: Disk, files: seq<Path>, read: Reader, purge: bool, k: nat)
    requires Paired(index) && Distinct(files) && k <= |files|
    requires !ScanFiles(Begun(index, issues), files[..k], disk, read).failed
    ensures var s := ScanFiles(Begun(index, issues), files[..k], disk, read);
      var again, once := Rescanned(s.index, s.issues, disk, files, read, purge),
        Rescanned(index, issues, disk, files, read, purge);
      && Paired(s.index)
      && (again.Aborted? <==> once.Aborted?)
      && (once.Completed? ==> again.index == once.index && again.issues == once.issues)
  {
    var s := ScanFiles(Begun(index, issues), files[..k], disk, read);
    PrefixIsSettled(index, issues, disk, files, read, k);
    PrefixAgrees(index, issues, disk, files[..k], read);
    ScansAgree(index, issues, s, disk, files, read, k);
  }

  lemma PrefixAgrees(index: Tables, issues: set<Issue>, disk: Disk, done: seq<Path>, read: Reader)
    requires var s := ScanFiles(Begun(index, issues), done, disk, read);
      !s.failed && AllSettled(s.index, s.issues, done, disk, read)
    ensures var s := ScanFiles(Begun(index, issues), done, disk, read);
      Agree(ScanFiles(Begun(s.index, s.issues), done, disk, read), s)
  {
    var s := ScanFiles(Begun(index, issues), done, disk, read);
    SettledScan(s.index, s.issues, done, disk, read);
    ScanClaimsWinners(index, issues, done, disk, read);
    ScanClaimsWinners(s.index, s.issues, done, disk, read);
  }

  lemma ScansAgree(index: Tables, issues: set<Issue>, s: Scan, disk: Disk, files: seq<Path>, read: Reader, k: nat)
    requires k <= |files| && s == ScanFiles(Begun(index, issues), files[..k], disk, read)
    requires Agree(ScanFiles(Begun(s.index, s.issues), files[..k], disk, read), s)
    ensures Agree(
      ScanFiles(Begun(s.index, s.issues), files, disk, read), ScanFiles(Begun(index, issues), files, disk, read))
  {
    assert files == files[..k] + files[k..];
    ScanAppends(Begun(index, issues), files[..k], files[k..], disk, read);
    ScanAppends(Begun(s.index, s.issues), files[..k], files[k..], disk, read);
    AgreementContinues(ScanFiles(Begun(s.index, s.issues), files[..k], disk, read), s, files[k..], disk, read);
  }

  // ----- repetition

  /** A further rescan of the same files changes no document, row or issue and indexes nothing. */
  lemma RepetitionIsQuiet(
      index: Tables, issues: set<Issue>, disk: Disk, files: seq<Path>, read: Reader, purge: bool, purgeAgain: bool)
    requires Paired(index) && Distinct(files) && (purgeAgain ==> purge)
    requires Rescanned(index, issues, disk, files, read, purge).Completed?
    ensures var once := Rescanned(index, issues, disk, files, read, purge);
      var again := Rescanned(once.index, once.issues, disk, files, read, purgeAgain);
      && again.Completed? && again.index == once.index && again.issues == once.issues && again.counts.indexed == 0
  {
    var once := Rescanned(index, issues, disk, files, read, purge);
    RescanPlaces(index, issues, disk, files, read, purge);
    ScanClaimsWinners(index, issues, files, disk, read);
    CompletedIsSettled(index, issues, disk, files, read, purge);
    RescanOfSettled(once.index, once.issues, disk, files, read, purgeAgain);
  }

  lemma RescanOfSettled(
      t: Tables, issues: set<Issue>, disk: Disk, files: seq<Path>, read: Reader, purge: bool)
    requires Paired(t) && AllSettled(t, issues, files, disk, read)
    requires InPlace(t, Winners(files, disk, read)) && forall issue | issue in issues :: issue.path in files
    requires forall job | job in t.docs && job !in Winners(files, disk, read) ::
      t.docs[job].status == Missing && (purge ==> t.docs[job].entry.relativePath in files)
    ensures var again := Rescanned(t, issues, disk, files, read, purge);
      again.Completed? && again.index == t && again.issues == issues && again.counts.indexed == 0
  {
    SettledScan(t, issues, files, disk, read);
    CompletedScan(t, issues, disk, files, read, purge, ScanFiles(Begun(t, issues), files, disk, read));
    SweepOfSettled(t, Winners(files, disk, read), files, purge);
  }

  lemma CompletedIsSettled(
      index: Tables, issues: set<Issue>, disk: Disk, files: seq<Path>, read: Reader, purge: bool)
    requires Paired(index) && Distinct(files)
    requires Rescanned(index, issues, disk, files, read, purge).Completed?
    ensures var once := Rescanned(index, issues, disk, files, read, purge);
      && AllSettled(once.index, once.issues, files, disk, read)
      && InPlace(once.index, Winners(files, disk, read))
  {
    var s := ScanFiles(Begun(index, issues), files, disk, read);
    var once := Rescanned(index, issues, disk, files, read, purge);
    var winners := Winners(files, disk, read);
    CompletedScan(index, issues, disk, files, read, purge, s);
    SettledIsInPlace(s.index, s.claims, disk, read);
    SweepDeparts(s.index, s.claims, files, purge);
    forall job | job in winners ensures Settled(once.index, job, winners[job], disk, read) {
      assert Settled(s.index, job, s.claims[job], disk, read);
    }
    SettledIsInPlace(once.index, winners, disk, read);
    assert files[..|files|] == files;
    PrefixIsSettled(index, issues, disk, files, read, |files|);
    forall i | 0 <= i < |files| ensures FixedAt(once.issues, files, disk, read, i) {
      assert FixedAt(s.issues, files, disk, read, i);
      assert forall c :: Issue(c, files[i]) in once.issues <==> Issue(c, files[i]) in s.issues;
    }
  }

  lemma SweepOfSettled(t: Tables, winners: map<JobId, Path>, files: seq<Path>, purge: bool)
    requires Paired(t) && InPlace(t, winners)
    requires forall job | job in t.docs && job !in winners :: t.docs[job].status == Missing
    requires forall job | job in t.docs && job !in winners :: purge ==> t.docs[job].entry.relativePath in files
    ensures MarkAbsent(t, winners, files, purge) == t
  {
    var u := MarkAbsent(t, winners, files, purge);
    SweepDeparts(t, winners, files, purge);
    DepartedNothing(t, u, winners, files, purge);
  }

  lemma DepartedNothing(t: Tables, u: Tables, winners: map<JobId, Path>, files: seq<Path>, purge: bool)
    requires Paired(t) && Departed(t, u, winners, files, purge)
    requires forall job | job in t.docs && job !in winners :: t.docs[job].status == Missing
    requires forall job | job in t.docs && job !in winners :: purge ==> t.docs[job].entry.relativePath in files
    ensures u == t
  {
    assert forall job :: job in u.docs <==> job in t.docs;
    SameMaps(u.docs, t.docs);
    assert forall job | job in t.docs && job !in winners :: t.docs[job].id !in t.fts;
    assert u.fts == t.fts;
  }
}
