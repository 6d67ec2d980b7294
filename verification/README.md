# A verified model of the EvoBlue video pipeline

EvoBlue analyses videos on the user's own machine. A submitted URL becomes a job that workers drive through a
chain of stages under expiring leases; the finished report is a Markdown file that is indexed for full-text
search; models are downloaded resumably; settings are saved across a database row, a recovery file and a
credential vault. This project models those parts and proves what they promise.

`dafny verify dfyconfig.toml` checks everything.

## How the model is laid out

| part | files | form |
|---|---|---|
| leased job pipeline | `Jobs`, `JobTransitions`, `JobRepository`, `JobRuns`, `JobTheorems`, `WorkerLoop` | a row and its guarded moves; the repository as a class over the two tables; a state machine whose events are every write any actor can make, in any interleaving and with any non-decreasing clock; the worker loop, proved to be a run of that machine |
| report index and rescan | `ReportIndex`, `IndexRebuild`, `RebuildLaws`, `RebuildTheorems`, `RebuildReader`, `RebuildShortcut`, `RebuildRuns`, `RebuildService` | the paired tables as a class; a scan as a fold over the listing; the batch loop, absence pass and startup as methods proved against it |
| resumable install | `ModelDownloads`, `ModelInstall` | the operation row and its guarded writes; the installer as a class whose ghost log holds every state a crash could leave |
| settings save | `ImmediateWrites`, `Origins`, `Settings`, `SettingsLaws` | the shielded commit under every order of its end and of cancels; one save as a function of nondeterministic failures, timeouts and cancellations; the service, which runs the commit, proved against it; runs of saves and late vault operations |
| report format | `Text`, `Json`, `Urls`, `ReportFormat`, `ReportRoundTrip`, `HeadingLoss`, `ReportLaws`, `ReportRecovery`, `ReportFaults` | printer and reader as functions, with every exception the reader lets through; their loops as methods; the round trip, and the files on which reading raises |
| search text | `FtsText`, `SearchLaws` | normalisation, display, and the match expression |
| configuration splice | `TomlScan`, `TomlSplice`, `TomlCuts`, `TomlEntry`, `TomlAppend`, `TomlExamples` | the header scanner, the cut-and-join of a document, the entry that is written, replaced or appended, and inputs that fail |
| unified list | `UnifiedList`, `ListBridge`, `ListOfRuns` | two-segment paging, the validator on the other side of the wire, and both over the tables that runs can reach |
| resumable stages | `ResumableStages` | transcription checkpoints and chunk summaries over interrupted attempts |
| edit distance | `EditDistance` | the two-row program against edit scripts |

Where the source updates something step by step there is a class or a loop, and its contract ties the new state
to a function that the laws are then proved about. `Wrappers` holds `Option` and the ideal digest: a SHA-256
value is represented by what was hashed.

## What the proofs found

Some promises hold only under a condition. For each of them the code is modelled as it is and the condition is
proved exact, or a counterexample is given beside the condition.

- **Round trip of reports** (`ReportRecovery.RoundTrip`, if and only if). A report is not recovered when its
  last takeaway is empty, its transcript is an empty text rather than absent, its platform is not its own lower case,
  or a line of a section equals a heading (`HeadingLoss.HeadingIsLost`).
- **Rescan from an arbitrary paired database** (`RebuildShortcut.ContentConvergesIff`, if and only if). A
  document with the right path and hash is never looked at again, so a wrong text under it survives
  (`WrongTextIsKept`). Databases that only ever saw the index's own writes are not affected
  (`RebuildLaws.HistoriesAreDerived`, `RebuildTheorems.RescanConverges`).
- **Completion of a rescan** (`RebuildTheorems.CompletesIff`, if and only if). The rescan catches only the
  reader's own error, and the entry checks run inside the batch. One file aborts every rescan of its folder
  (`OneReportAbortsEveryRescan`) when
  - reading it raises anything else, even if it wins no id (`RebuildReader.RaisingFileAborts`): an unpaired bracket
    in its address, as in `http://[x` (`LoneBracketRaises`), an integer of more than 4300 digits or brackets nested
    too deep in a field (`RaisingValueRaises`);
  - its id holds a lone surrogate, or it wins its id and another field holds one (`LoneSurrogateIsRefused`): no
    database statement takes such a text;
  - it wins its id and is dated at or before the epoch (`AcceptedReportsAreIndexable`).
- **Open issues depend on history**, unlike documents (`RebuildRuns.DuplicateIssueLingers`). Nothing is
  resolved for an unreadable file, and a malformed one keeps an earlier duplicate issue
  (`RescanDecidesIssues` says exactly which issues stay).
- **Resumed transcripts** (`ResumableStages.InterruptionsAreInvisible`, if and only if): segments in start order
  and distinct segment keys are needed. Segments out of order fail an attempt that transcribes them and pass once
  they are in the checkpoint (`DisorderIsHidden`).
- **Startup recovery** (`Jobs.RecoveryLeavesNoZombie`, if and only if): it does not repair a pause without a
  retry time or a queued row without attempts. No run produces either.
- **Unified pages** (`ListBridge.BridgeAcceptsPages`, if and only if): the validator bounds the progress of a
  job row, which the engine's table does not. No run leaves the bounds, so every page a run can produce is
  accepted (`ListOfRuns.EveryPageIsAccepted`).
- **Entry removal** (`TomlCuts.RemovingAnEntry`, if and only if): the other headers are kept when nothing follows
  the entry or the line that follows reads the same at both cuts. Behind escaped quotes the scanner can take the
  middle of a string for the document, and then a removal loses a header
  (`TomlExamples.CutInsideAStringLosesAHeader`); the comparison of the two parses, which is not modelled, then
  refuses the result.
- **Entry replacement** (`TomlEntry.ReplacingAnEntry`, if and only if): a value with a Unicode line separator
  must be excluded, because the scanner splits its line (`TomlExamples.SeparatorAddsAHeader`).
- **Entry appending** (`TomlAppend.AppendingAnEntry`, if and only if): the document must end with no bracket and no
  string open, as the scanner sees it.
- **Installs** (`ModelInstall.Installer.Install`, if and only if): which sources complete an uncancelled install.
  A 206 that answers a request without a Range, when no partial file exists, ends it with an internal error
  instead of the next source (`UnsolicitedPartialEndsIt`).
- **Credential binding**: a key is meant to stay within one scheme, host and port, and between hosts that are no
  IPv6 addresses it does (`SettingsLaws.KeyFollowsEndpoint`, if and only if). URLs without scheme or host count as
  one origin, so the key follows from one to the other (`KeyFollowsBetweenBareHosts`); and since the origin drops
  the brackets of a host, it follows between `http://[::1]:1234` and `http://[::1:1234]`
  (`Origins.Ipv6OriginsCollide`, `KeyFollowsBetweenIpv6Hosts`).
- **Claims**: the row check would accept a parked row, the claim query never does
  (`Jobs.FilterImpliesCheck`).

## Model

| member | source | states |
|---|---|---|
| `EditDistance.Levenshtein` | src/evoblue_video_mcp/asr/benchmark/metrics.py:40-50 | the two-row program returns the cost of the cheapest script of insertions, deletions and substitutions that turns `a` into `b`: some script costs that much and none costs less |
| `EditDistance.NextRow` | src/evoblue_video_mcp/asr/benchmark/metrics.py:40-50 | one pass of the outer loop turns the row of distances of a prefix of `a` into the row of the next prefix |
| `EditDistance.CellIsDistance` | src/evoblue_video_mcp/asr/benchmark/metrics.py:40-50 | every cell of the table is the distance of the two prefixes it stands for |
| `EditDistance.DistanceIsLeast` | src/evoblue_video_mcp/asr/benchmark/metrics.py:40-50 | the recurrence is attained by an edit script and no edit script beats it |
| `EditDistance.EqualMeansZero` | src/evoblue_video_mcp/asr/benchmark/metrics.py:40-50 | the distance is zero exactly for equal inputs |
| `EditDistance.Symmetric` | src/evoblue_video_mcp/asr/benchmark/metrics.py:40-50 | the distance is symmetric |
| `EditDistance.TriangleInequality` | src/evoblue_video_mcp/asr/benchmark/metrics.py:40-50 | going through a third sequence never costs less |
| `EditDistance.WithinLengths` | src/evoblue_video_mcp/asr/benchmark/metrics.py:40-50 | the distance lies between the difference of the lengths and the longer length |
| `JobTransitions.BuildAllowed` | src/evoblue_video_mcp/jobs/transitions.py:34-59 | filling the table edge by edge yields, for every pair of the fifteen statuses, exactly the edges the rest of the model consults |
| `JobTransitions.ChainEntry` | src/evoblue_video_mcp/jobs/transitions.py:17-31 | the pairs of the linear chain are exactly the forward moves, with the subtitle shortcut and the model detour |
| `JobTransitions.TerminalMeansStuck` | src/evoblue_video_mcp/jobs/transitions.py:10-59 | a status has no way out exactly when it is terminal; only running stages can pause, and every unfinished status can fail |
| `Jobs.FilterImpliesCheck` | src/evoblue_video_mcp/storage/repository.py:75-114 | the query filter is strictly stronger than the row check: they differ exactly on parked rows with a free lease and attempts left |
| `Jobs.MovePreservesRowOk` | src/evoblue_video_mcp/storage/repository.py:245-444 | every repository write keeps a row well formed: only running rows are leased, the stage column names the stage, parked rows carry no cancel flag, progress is a percentage |
| `Jobs.MoveIsLegal` | src/evoblue_video_mcp/jobs/transitions.py:34-71 | a write changes the status along the table or cancels a running stage, and never changes a finished row |
| `Jobs.ChangeFalls` | src/evoblue_video_mcp/storage/repository.py:75-114 | every change of status or owner lowers (attempts left, rank), with owned stages above parked, parked above unowned, unowned above finished; nothing ever raises it |
| `Jobs.BudgetFalls` | src/evoblue_video_mcp/storage/repository.py:582-615 | the pair as one number: what a row can still spend pays for each change, through the transcribing/waiting cycle and retries |
| `Jobs.RecoveryLeavesNoZombie` | src/evoblue_video_mcp/runtime/engine.py:23-39 | for any row whatever: the three sweeps leave it finished, claimable at some later time or parked without a cancel flag if and only if it was not stranded before (a pause without retry time, or queued without attempts) |
| `Jobs.ReachableRowsAreNotStranded` | src/evoblue_video_mcp/storage/repository.py:330-393 | no row the pipeline can reach is stranded |
| `JobRepository.Repository.Candidates` | src/evoblue_video_mcp/storage/repository.py:99-114 | the claim query returns claimable rows, the oldest first, and nothing only when nothing is claimable |
| `JobRepository.Repository.ClaimJob` | src/evoblue_video_mcp/storage/repository.py:156-193 | a claim succeeds exactly when the row check passes, and then writes owner, lease, stage and one more attempt on that row alone |
| `JobRepository.Repository.ClaimNextJob` | src/evoblue_video_mcp/storage/repository.py:196-222 | claims the oldest claimable row, and nothing exactly when there is none |
| `JobRepository.Repository.AdvanceJob` | src/evoblue_video_mcp/storage/repository.py:245-327 | the compare-and-swap advance: unknown row, then illegal transition, then lost lease are reported and write nothing; a park consumes a cancel that landed first |
| `JobRepository.Repository.CommitArtifactAndAdvance` | src/evoblue_video_mcp/storage/repository.py:669-763 | artifact and advance are written together or not at all, under the same guard |
| `JobRepository.Repository.MarkFailure` | src/evoblue_video_mcp/storage/repository.py:396-444 | pause or failure by the lease holder only; the lease is given up |
| `JobRepository.Repository.MarkCancelled` | src/evoblue_video_mcp/storage/repository.py:881-919 | cancellation by the lease holder only |
| `JobRepository.Repository.RequestCancellation` | src/evoblue_video_mcp/storage/repository.py:922-953 | an idle job is cancelled at once, a running one is flagged, a finished one is left alone |
| `JobRepository.Repository.RenewLease` | src/evoblue_video_mcp/storage/repository.py:785-810 | renewal only while the lease is alive and the owner the same |
| `JobRepository.Repository.PinJobAsrRoute` | src/evoblue_video_mcp/storage/repository.py:528-566 | the recommendation is pinned only while transcribing under a live lease |
| `JobRepository.Repository.SaveArtifactInline` | src/evoblue_video_mcp/storage/repository.py:819-878 | a checkpoint is inserted or refreshed only under a live lease |
| `JobRepository.Repository.ResumeWaitingJobs` | src/evoblue_video_mcp/storage/repository.py:582-615 | exactly the parked rows that wait for this model and carry no cancel flag are resumed |
| `JobRepository.Repository.RecoverStaleJobs` | src/evoblue_video_mcp/storage/repository.py:225-242 | exactly the unfinished rows with an expired lease are released |
| `JobRepository.Repository.FailExhaustedRetries` | src/evoblue_video_mcp/storage/repository.py:330-360 | exactly the paused and running rows without attempts left fail |
| `JobRepository.Repository.LandDanglingCancellations` | src/evoblue_video_mcp/storage/repository.py:363-393 | exactly the parked rows with a cancel flag are cancelled |
| `JobRepository.Repository.RecoverOnStartup` | src/evoblue_video_mcp/runtime/engine.py:23-39 | the sweeps one after the other settle every row that was not stranded, and only those |
| `JobRepository.Repository.FindReusable` | src/evoblue_video_mcp/application/submit.py:47-78 | finds a reusable job exactly when there is one, unfinished before completed, newest first |
| `JobRepository.Repository.SubmitVideo` | src/evoblue_video_mcp/application/submit.py:81-141 | either an existing job of the request is followed and nothing changes, or none was reusable and one queued row is added |
| `StageHandlers.HandlersCover` | src/evoblue_video_mcp/runtime/handlers.py:159-787 | what a stage registers, with what was there before, covers all the next stage loads |
| `StageHandlers.PreparedStagesLoad` | src/evoblue_video_mcp/runtime/handlers.py:353-354 | a prepared stage never reports a missing artifact, for all handlers |
| `JobRuns.EventKeepsInv` | src/evoblue_video_mcp/storage/repository.py:156-444 | any event of any worker, user, model install or recovery sweep keeps the invariant of the whole system: row shape, one unfinished job per request, artifacts, owners, worker beliefs, exclusive leases |
| `JobRuns.FinishEnabled` | src/evoblue_video_mcp/runtime/worker.py:264-325 | with its lease held, whatever the stage of a worker returns is a write the tables accept |
| `JobTheorems.NoTwoLiveLeases` | src/evoblue_video_mcp/storage/repository.py:156-222 | in every run no two owners believe in an unexpired lease on one job |
| `JobTheorems.WritesComeFromTheLatestClaimer` | src/evoblue_video_mcp/storage/repository.py:245-327 | in every run a worker write that changes anything is made by the owner of the latest claim of that job |
| `JobTheorems.StatusLaw` | src/evoblue_video_mcp/jobs/transitions.py:34-71 | in every run each status change is an edge or a running stage cancelled; a finished row is frozen and holds no lease |
| `JobTheorems.OneUnfinishedJobPerRequest` | src/evoblue_video_mcp/application/submit.py:47-141 | in every run at most one unfinished job per request fingerprint |
| `JobTheorems.BoundedChanges` | src/evoblue_video_mcp/storage/repository.py:75-114 | in every run a job changes status or owner at most 37 times |
| `JobTheorems.ArtifactsAreNeverMissing` | src/evoblue_video_mcp/runtime/handlers.py:353-354 | in every run no worker, even with a dead lease, meets a missing artifact, whatever stage it runs |
| `JobTheorems.CompletedJobsHaveEverything` | src/evoblue_video_mcp/storage/repository.py:669-763 | a completed job has left a usable artifact of every kind behind |
| `JobTheorems.RetryReentersTheStageThatPaused` | src/evoblue_video_mcp/storage/repository.py:89-96 | in every run a claimed retry enters exactly the stage the job last ran in |
| `JobTheorems.ParkedJobsAreNotCancelled` | src/evoblue_video_mcp/storage/repository.py:264-303 | in every run a parked row carries no cancel flag, so a resume never revives a cancelled job and the third sweep finds nothing |
| `JobTheorems.RecoverySettlesEveryJob` | src/evoblue_video_mcp/runtime/engine.py:23-39 | after any run and crash, startup recovery leaves every job finished, claimable later or parked without a cancel flag |
| `WorkerLoop.WriteOutcome` | src/evoblue_video_mcp/runtime/worker.py:254-325 | every outcome of a stage maps to the one write that belongs to it, and it is written when lease and table allow |
| `WorkerLoop.FinishStage` | src/evoblue_video_mcp/runtime/worker.py:222-331 | one round of the loop is one finishing event of the run model, and it goes on exactly when that worker is still busy |
| `WorkerLoop.RunWorkerOnce` | src/evoblue_video_mcp/runtime/worker.py:153-343 | the loop ends, what it did is a run of the model that keeps its invariant, and afterwards the worker holds no belief; it is idle only when nothing was claimable |
| `WorkerLoop.NextStageIsLower` | src/evoblue_video_mcp/runtime/worker.py:204-331 | a worker that goes on does so in a later stage |
| `Json.LoadsDumpedString` | src/evoblue_video_mcp/reports/renderer.py:35-36 | a JSON string reads back as itself, for every string |
| `Json.LoadsDumpedStrings` | src/evoblue_video_mcp/reports/parser.py:293-307 | a JSON array of strings reads back as itself, wherever one bracket may be opened at all |
| `Json.TooMuchRaises` | src/evoblue_video_mcp/reports/parser.py:276-307 | reading a value raises something other than the error the reader catches when it is an integer of more than 4300 digits or opens more brackets than the interpreter nests, whatever follows them |
| `Json.ShortNumberReads` | src/evoblue_video_mcp/reports/parser.py:310-331 | a text that begins with a digit and is no longer than that never raises and is no string: a bare moment is read as it stands |
| `Urls.HttpSplits` | src/evoblue_video_mcp/reports/parser.py:161-166 | an address of plain characters behind `http://` splits into scheme and host part, or raises, by the host part alone |
| `Urls.LoneBracketRaises` | src/evoblue_video_mcp/reports/parser.py:161-166 | an address with one kind of bracket alone in its host part raises, where other bad addresses are rejected |
| `ReportFormat.RenderSections` | src/evoblue_video_mcp/reports/renderer.py:39-56 | the branch-by-branch printer yields the frozen headings in order, each over its field |
| `ReportFormat.ParseFrontmatter` | src/evoblue_video_mcp/reports/parser.py:231-247 | the loop reads the fields line by line, the last of a repeated key winning, and rejects a line without a separator |
| `ReportFormat.MatchHeading` | src/evoblue_video_mcp/reports/parser.py:250-273 | a line is a heading exactly when it equals one of the frozen ones |
| `ReportFormat.ParseSections` | src/evoblue_video_mcp/reports/parser.py:250-273 | each section gathers the lines under its headings, stripped, and the headings that occur are reported |
| `ReportRecovery.RoundTrip` | src/evoblue_video_mcp/reports/parser.py:120-273 | for every valid document whose address holds no heading line, whatever the calendar and the lower-casing of the library: printing and parsing gives the document back if and only if title and takeaways are single lines, texts are stripped, the platform is its own lower case, the transcript is not an empty text, the last takeaway is not empty, and no line of a section equals a heading |
| `HeadingLoss.HeadingIsLost` | src/evoblue_video_mcp/reports/parser.py:250-273 | if lines of sections equal headings, the last such section reads back as something shorter |
| `ReportLaws.EmptyLastBullet` | src/evoblue_video_mcp/reports/renderer.py:39-56 | the one family of single-line takeaways that is lost: stripping the section cuts an empty last bullet down to a bare dash |
| `ReportLaws.AcceptedReportsAreSound` | src/evoblue_video_mcp/reports/parser.py:120-228 | whatever text is read, an accepted report has the shape the printer preserves, passes the checks of the document class, and has a title without lone surrogates |
| `ReportLaws.LineEndsDoNotMatter` | src/evoblue_video_mcp/reports/parser.py:103-117 | a report saved with CR LF line ends reads as the same report |
| `ReportFaults.RefusedAddressRaises` | src/evoblue_video_mcp/reports/parser.py:157-166 | printing and reading any report whose address is refused by the address parser raises, whatever else it holds |
| `ReportFaults.AmendedReportRaises` | src/evoblue_video_mcp/reports/parser.py:276-338 | a report that is read as printed raises once any field but the version is replaced by a value on which reading JSON raises |
| `ReportFaults.LoneSurrogateIsRead` | src/evoblue_video_mcp/reports/parser.py:276-290 | a report with a lone surrogate in a field that is not checked further is accepted, and exactly that field is marked |
| `FtsText.NormalizeJoinsTokens` | src/evoblue_video_mcp/storage/fts.py:22-30 | normalising yields the tokens of the text, CJK characters alone and other runs together, joined by single spaces |
| `SearchLaws.NormalizeIsIdempotent` | src/evoblue_video_mcp/storage/fts.py:22-30 | normalising twice is normalising once |
| `SearchLaws.DisplayRestores` | src/evoblue_video_mcp/storage/fts.py:22-45 | showing a normalised text gives the text back if and only if it is single-spaced without spaces next to CJK characters |
| `SearchLaws.DisplayedText` | src/evoblue_video_mcp/storage/fts.py:33-45 | what is shown of any normalised text: its tokens, with a space exactly between two neighbours that are not CJK |
| `SearchLaws.DenormalizeKeepsTokens` | src/evoblue_video_mcp/storage/fts.py:33-45 | denormalising keeps the tokens and leaves no space next to a CJK character |
| `SearchLaws.CjkPhraseSearch` | src/evoblue_video_mcp/storage/fts.py:22-64 | for a non-empty pure CJK word: its phrase tokens occur contiguously in the indexed tokens exactly when the word is a substring of the text without spaces next to CJK characters |
| `SearchLaws.BuildMatchQuery` | src/evoblue_video_mcp/storage/fts.py:48-64 | the loop builds the conjunction of one quoted phrase per word that has a searchable token, and refuses a query without any |
| `SearchLaws.MatchReadsBack` | src/evoblue_video_mcp/storage/fts.py:48-64 | the expression reads back as exactly those phrases whatever the user typed, quotes included |
| `ReportIndex.Index.Upsert` | src/evoblue_video_mcp/storage/report_repository.py:239-337 | document and full-text row are written as a pair; a fault in any statement leaves both tables as they were |
| `ReportIndex.Index.MarkStale` | src/evoblue_video_mcp/storage/report_repository.py:385-410 | an active document becomes stale and stays searchable |
| `ReportIndex.Index.MarkMissing` | src/evoblue_video_mcp/storage/report_repository.py:413-441 | a live document becomes missing and loses its row; the answer says whether that happened |
| `ReportIndex.Index.Purge` | src/evoblue_video_mcp/storage/report_repository.py:920-941 | a document leaves with its row; the answer says whether there was one |
| `ReportIndex.WritesKeepPairs` | src/evoblue_video_mcp/storage/report_repository.py:239-441 | each of the four writes keeps the full-text rows exactly those of the active and stale documents |
| `ReportIndex.IndexMirrorsWrites` | src/evoblue_video_mcp/storage/report_repository.py:227-337 | after any sequence of writes each live document carries the last indexed entry and its row the last indexed text, and no other row exists |
| `ReportIndex.AntiJoinsImplyCounts` | src/evoblue_video_mcp/storage/report_repository.py:685-737 | two empty anti-joins already imply the equality of the counts |
| `ReportIndex.VerifyMeansPaired` | src/evoblue_video_mcp/storage/report_repository.py:685-737 | the consistency check passes exactly when the two tables are paired |
| `RebuildLaws.WinnersComeFirst` | src/evoblue_video_mcp/storage/rebuild.py:565-720 | the claims map holds, per analysis id, the first readable and parseable file of the listing, and nothing else |
| `RebuildLaws.ScanClaimsWinners` | src/evoblue_video_mcp/storage/rebuild.py:565-720 | a scan claims the winners and counts every file once: scanned = indexed + unchanged + quarantined + duplicates |
| `RebuildLaws.ClaimsKeepInv` | src/evoblue_video_mcp/storage/rebuild.py:676-718 | each file keeps the index paired, settles its winner and leaves unclaimed documents as they were |
| `RebuildLaws.HistoriesAreDerived` | src/evoblue_video_mcp/runtime/handlers.py:718-787 | any history of indexing, drift, missing files and purges leaves an index whose live documents say what their hashed files say |
| `RebuildTheorems.RescanPlaces` | src/evoblue_video_mcp/storage/rebuild.py:426-500 | from any paired index whatever, a completed rescan makes exactly the winners searchable, at the winning path with the hash of the file; all else is missing, or purged if asked and gone from the folder |
| `RebuildTheorems.RescanConverges` | src/evoblue_video_mcp/storage/rebuild.py:565-753 | with an index derived from files, the documents and full-text rows are those of the winning files |
| `RebuildTheorems.HistoryDoesNotMatter` | src/evoblue_video_mcp/storage/rebuild.py:565-753 | two databases rescanned over the same files show the same documents and texts |
| `RebuildTheorems.CompletesIff` | src/evoblue_video_mcp/storage/rebuild.py:518-720 | from any paired index, a rescan completes exactly when no listed file makes the reader raise, winner or not, and every winner can be indexed or is already indexed with this path and hash |
| `RebuildTheorems.OneReportAbortsEveryRescan` | src/evoblue_video_mcp/storage/rebuild.py:518-720 | with an index derived from files only the files decide: a rescan fails exactly when the reader raises on a listed file or a winner cannot be indexed, however often it is repeated |
| `RebuildReader.AcceptedReportsAreIndexable` | src/evoblue_video_mcp/storage/report_repository.py:82-130 | of the reports the reader accepts, exactly those with a lone surrogate in a field, or analysed or published at or before the epoch, cannot be indexed |
| `RebuildReader.RaisingFileAborts` | src/evoblue_video_mcp/storage/rebuild.py:518-563 | a listed file on which the reader raises aborts the rescan from any index whatever |
| `RebuildReader.LoneBracketRaises` | src/evoblue_video_mcp/reports/parser.py:161-166 | the reader raises on every printed report with an unpaired bracket in its address, as in `http://[x` |
| `RebuildReader.RaisingValueRaises` | src/evoblue_video_mcp/reports/parser.py:276-338 | the reader raises on an integer of too many digits and on brackets nested too deep in any field but the version |
| `RebuildReader.LoneSurrogateIsRefused` | src/evoblue_video_mcp/storage/rebuild.py:674-718 | a lone surrogate in the id counts as a reader that raises; in another free field the report is read but cannot be indexed |
| `RebuildShortcut.ContentConvergesIff` | src/evoblue_video_mcp/storage/rebuild.py:676-718 | from any paired index, the winners all end with the text of their files if and only if none had path and hash of its file over another text before |
| `RebuildShortcut.WrongTextIsKept` | src/evoblue_video_mcp/storage/rebuild.py:677-684 | the failing family: right path and hash over any wrong text survive the rescan |
| `RebuildRuns.RescanDecidesIssues` | src/evoblue_video_mcp/storage/rebuild.py:565-720 | which issues are open after a rescan, file by file and code by code; none for files that are gone |
| `RebuildRuns.DuplicateIssueLingers` | src/evoblue_video_mcp/storage/rebuild.py:565-720 | issues do depend on history: a duplicate that is then damaged keeps its duplicate issue |
| `RebuildRuns.InterruptionLeavesNoTrace` | src/evoblue_video_mcp/storage/rebuild.py:454-468 | stopped after any committed files and run again, a rescan ends with the same documents, ids, rows and issues as an uninterrupted one, from any paired index |
| `RebuildRuns.RepetitionIsQuiet` | src/evoblue_video_mcp/storage/rebuild.py:676-718 | a further rescan of the same files changes no document, row or issue and indexes nothing |
| `RebuildService.Collect` | src/evoblue_video_mcp/storage/rebuild.py:502-516 | the listing is the eligible files of the walk in ascending order, each once |
| `RebuildService.ListingIsUnique` | src/evoblue_video_mcp/storage/rebuild.py:502-516 | the listing depends only on the set of files, not on the order of the walk |
| `RebuildService.WinnersAreLeast` | src/evoblue_video_mcp/storage/rebuild.py:565-720 | in a sorted listing the winner is the least path among the files that name the id |
| `RebuildService.Service.ReconcileIssues` | src/evoblue_video_mcp/storage/rebuild.py:565-720 | the issue statements for one examined file |
| `RebuildService.Service.ReconcileFile` | src/evoblue_video_mcp/storage/rebuild.py:586-718 | one examined file within the transaction is one step of the scan |
| `RebuildService.Service.ProcessBatch` | src/evoblue_video_mcp/storage/rebuild.py:565-720 | a batch is that stretch of the scan, committed whole or not at all: nothing of it is written when the reader raises on one of its files or an entry is refused |
| `RebuildService.Service.SweepAbsent` | src/evoblue_video_mcp/storage/rebuild.py:722-753 | the absence pass marks or purges exactly the unclaimed documents and drops the issues of absent files |
| `RebuildService.OrderDoesNotMatter` | src/evoblue_video_mcp/storage/rebuild.py:722-753 | the order in which the database lists the documents does not matter to the absence pass |
| `RebuildService.Service.Run` | src/evoblue_video_mcp/storage/rebuild.py:426-500 | for every batch size and fate: a finished run equals the one-pass rescan; a stopped one, also one stopped by a reader that raises, leaves a committed prefix, or all of it but the final state, and a persisted state that asks for a rescan |
| `RebuildService.Service.StartupNeedsRebuild` | src/evoblue_video_mcp/storage/rebuild.py:379-418 | when startup must rescan; an unusable folder does not pass for an empty one |
| `RebuildService.Service.ReconcileOnStartup` | src/evoblue_video_mcp/storage/rebuild.py:259-278 | startup after any interruption, also one after the absence pass, ends as if there had been none |
| `UnifiedList.LikeMeansWithin` | src/evoblue_video_mcp/storage/repository.py:518-520 | an escaped pattern matches exactly the texts the user text occurs in, wildcards included |
| `UnifiedList.Select` | src/evoblue_video_mcp/storage/repository.py:489-515 | counting, ordering and windowing row by row gives the window of the ordered rows that pass the filter, and their exact number |
| `UnifiedList.JobsUnifiedList` | src/evoblue_video_mcp/web/app.py:656-750 | two queries with shifted offsets make up the slice of jobs followed by history |
| `ListBridge.SegmentsAreSorted` | src/evoblue_video_mcp/storage/repository.py:447-515 | each segment holds exactly the rows its filter lets through, in strict order |
| `ListBridge.NoJobTwice` | src/evoblue_video_mcp/storage/report_repository.py:745-813 | no job id occurs twice, within a segment or across both |
| `ListBridge.PagesShowTheWholeList` | src/evoblue_video_mcp/web/app.py:656-750 | successive pages of any size show the whole list, each row once |
| `ListBridge.UnifiedPage` | src/evoblue_video_mcp/mcp/listing.py:253-313 | the validator accepts a page exactly when window, totals and every row are as they should be, and then changes nothing |
| `ListBridge.StatusReadsBack` | src/evoblue_video_mcp/mcp/listing.py:55-117 | every status the engine prints is one the bridge reads |
| `ListBridge.BridgeAcceptsPages` | src/evoblue_video_mcp/mcp/listing.py:165-313 | for arbitrary tables with their primary keys, every page passes window and totals; its rows pass exactly when their progress is within 0 and 100, and then they are shown as they are |
| `ListOfRuns.ReachableTables` | src/evoblue_video_mcp/storage/repository.py:245-327 | after any run of the pipeline and any history of the index, the tables behind the list have distinct keys and a progress within 0 and 100 |
| `ListOfRuns.EveryPageIsAccepted` | src/evoblue_video_mcp/mcp/listing.py:165-313 | after any run and history, for every filter, limit and offset, the validator accepts the page and changes nothing |
| `ListOfRuns.NoJobTwiceInRuns` | src/evoblue_video_mcp/web/app.py:656-750 | after any run and history no job id occurs twice in the whole list |
| `ResumableStages.Checkpoint.Execute` | src/evoblue_video_mcp/runtime/handlers.py:359-421 | one attempt appends a prefix of the pending segments to the checkpoint, and a success returns checkpoint and pending segments together |
| `ResumableStages.ResumedTranscript` | src/evoblue_video_mcp/asr/fake.py:58-88 | with distinct segment keys, any number of interrupted attempts followed by a success gives the transcript of one attempt |
| `ResumableStages.InterruptionsAreInvisible` | src/evoblue_video_mcp/asr/base.py:55-76 | interruptions never show, neither in the transcript nor in whether there is one, if and only if the segments are in start order and their keys are distinct |
| `ResumableStages.DisorderIsHidden` | src/evoblue_video_mcp/asr/base.py:70-76 | segments out of order, which fail the attempt that transcribes them, pass once all of them are in the checkpoint |
| `ResumableStages.RepeatedKeyIsLost` | src/evoblue_video_mcp/asr/base.py:55-57 | two segments with one key: stopping between them loses the second |
| `ResumableStages.Summaries.Execute` | src/evoblue_video_mcp/runtime/handlers.py:562-617 | one attempt stores only missing summaries, and a success returns one summary per chunk in order |
| `ResumableStages.StoredSummariesStay` | src/evoblue_video_mcp/storage/repository.py:819-878 | over any attempts a stored summary is never replaced |
| `ResumableStages.SummariesSurviveAttempts` | src/evoblue_video_mcp/runtime/handlers.py:562-617 | over any attempts: one summary per chunk, in order, equal chunks share one, and what an interrupted attempt stored is what the final one returns |
| `TomlScan.WalkLine` | src/evoblue_video_mcp/application/client_config/merge_toml.py:257-312 | the character loop of one line computes depth, open string and header as the recursive walk does |
| `TomlScan.ScanHeaders` | src/evoblue_video_mcp/application/client_config/merge_toml.py:237-254 | the line loop finds the headers of the document in order |
| `TomlScan.Headers` | src/evoblue_video_mcp/application/client_config/merge_toml.py:237-254 | headers stand one after the other within the text |
| `TomlScan.FindSpan` | src/evoblue_video_mcp/application/client_config/merge_toml.py:209-228 | the span is the first header of the entry with its contiguous subtree, and is missing exactly when no header names the entry |
| `TomlSplice.ScannerIsSound` | src/evoblue_video_mcp/application/client_config/merge_toml.py:257-312 | a header never stands on an empty line, and outside a multi-line string a header line begins with a clean scanner |
| `TomlSplice.HeaderLineIsClean` | src/evoblue_video_mcp/application/client_config/merge_toml.py:257-312 | outside a multi-line string no bracket is open where a header line begins |
| `TomlSplice.FirstLineDecides` | src/evoblue_video_mcp/application/client_config/merge_toml.py:237-254 | lines that begin with a header read the same in two scanner states exactly when their first line does |
| `TomlSplice.RemovalKeepsIff` | src/evoblue_video_mcp/application/client_config/merge_toml.py:120-126 | removing a span keeps all other headers, in order and moved by the length removed, if and only if nothing follows it or the line that follows reads the same at both cuts; no byte outside changes |
| `TomlSplice.ReplacementKeepsIff` | src/evoblue_video_mcp/application/client_config/merge_toml.py:197-200 | replacing a span by an entry keeps all other headers with the entry's between them, if and only if its first line reads as a header where the span began and what follows reads as before |
| `TomlCuts.RemovingAnEntry` | src/evoblue_video_mcp/application/client_config/merge_toml.py:120-126 | the same for the scanner of the merge and the span of an entry; when the line that follows bears no string delimiter, exactly when the scanner states at both cuts are equal |
| `TomlEntry.EntryIsBlock` | src/evoblue_video_mcp/application/client_config/render.py:15-30 | a written entry whose values hold no Unicode line separator is whole lines, holds its own headers and no other, and leaves the scanner clean, with either line end |
| `TomlEntry.ReplacingAnEntry` | src/evoblue_video_mcp/application/client_config/merge_toml.py:197-228 | replacing an entry by a written one keeps the other headers if and only if the old one does not begin inside an open string and the line that follows reads as if behind an ended entry |
| `TomlAppend.AppendingAnEntry` | src/evoblue_video_mcp/application/client_config/merge_toml.py:188-194 | appending a written entry, behind an ended last line and a blank one, leaves every header where it was and adds the entry's own, if and only if the document ends with no bracket and no string open |
| `TomlAppend.EndingScans` | src/evoblue_video_mcp/application/client_config/merge_toml.py:188-194 | ending the last line of a document, joined to a final CR or not, moves no header and leaves the scanner as it was |
| `TomlExamples.CutInsideAStringLosesAHeader` | src/evoblue_video_mcp/application/client_config/merge_toml.py:209-254 | a well-formed document that fails the condition loses a foreign header |
| `TomlExamples.SeparatorAddsAHeader` | src/evoblue_video_mcp/application/client_config/render.py:15-30 | a value with a Unicode line separator makes the scanner read a foreign header inside the entry |
| `TomlCuts.PlainHeader` | src/evoblue_video_mcp/application/client_config/merge_toml.py:257-312 | a bracketed plain name on its own line is a header of that path |
| `ModelDownloads.BuildAllowed` | src/evoblue_video_mcp/storage/model_download.py:36-67 | the download table, filled edge by edge, holds exactly the chain and the two ways out of every active status |
| `ModelDownloads.TerminalMeansStuck` | src/evoblue_video_mcp/storage/model_download.py:36-72 | a status has no way out exactly when it is terminal, and can fail and be cancelled exactly when it is active |
| `ModelInstall.ReconciliationIsExact` | src/evoblue_video_mcp/asr/installer.py:377-395 | from any crash state the count afterwards equals the size of the file, and a file is kept exactly when it can be trusted |
| `ModelInstall.CrashResumesOrRestarts` | src/evoblue_video_mcp/asr/installer.py:377-395 | a crash that loses any tail of the file resumes from what is left exactly when the persisted count was not lost |
| `ModelInstall.SafeProgressIsAccepted` | src/evoblue_video_mcp/storage/repository.py:1301-1358 | a count of bytes is accepted exactly between the persisted count and the expected size, so during a transfer never refused |
| `ModelInstall.Installer.UpdateProgress` | src/evoblue_video_mcp/storage/repository.py:1301-1358 | progress is refused when not downloading, falling or out of range, and otherwise written with the newer validators |
| `ModelInstall.Installer.Restart` | src/evoblue_video_mcp/storage/repository.py:1189-1231 | count and validators are cleared, only while pending or downloading |
| `ModelInstall.Installer.SwitchSource` | src/evoblue_video_mcp/storage/repository.py:1361-1411 | the next source starts from zero, only while pending or downloading |
| `ModelInstall.Installer.Advance` | src/evoblue_video_mcp/storage/repository.py:1234-1298 | only table edges are taken, and verifying is entered only with the full count |
| `ModelInstall.Installer.Reconcile` | src/evoblue_video_mcp/asr/installer.py:370-395 | afterwards count, file size and last persisted count agree |
| `ModelInstall.Installer.PersistProgress` | src/evoblue_video_mcp/asr/installer.py:333-340 | the count lags the file by less than the interval and is exact at the end; a cancel is noticed first |
| `ModelInstall.Installer.ReceiveBody` | src/evoblue_video_mcp/asr/model_manager.py:115-221 | chunk by chunk the file grows by exactly what was received; every state written on the way is safe for a crash, and success means the expected size and digest |
| `ModelInstall.DeliveryCompletes` | src/evoblue_video_mcp/asr/model_manager.py:95-221 | a server that delivers the rest of the resource completes a partial file, one that sends all of it also completes a missing one |
| `ModelInstall.AnyFullSourceSuffices` | src/evoblue_video_mcp/asr/installer.py:397-444 | after failed sources one that serves the whole archive with a 200 is enough, with a partial file or none |
| `ModelInstall.UnsolicitedPartialEndsIt` | src/evoblue_video_mcp/asr/installer.py:397-444 | a first install whose first source answers with a 206 never gets to its other sources |
| `ModelInstall.Installer.DownloadResumable` | src/evoblue_video_mcp/asr/model_manager.py:95-221 | unless cancelled a transfer succeeds if and only if the response completes the file, partial or missing; it fails over a missing file exactly for an empty archive or an unsolicited 206; a prefix of the served resource stays a prefix and every state written is safe |
| `ModelInstall.Installer.TransferFromSources` | src/evoblue_video_mcp/asr/installer.py:397-444 | unless cancelled the sources succeed if and only if some source completes what it finds, the first the partial file and the later ones nothing, and those before it fail over; in between a state is safe or has lost its file |
| `ModelInstall.Installer.Download` | src/evoblue_video_mcp/asr/installer.py:370-459 | verifying is entered only over the whole file, and uncancelled exactly when the sources succeed from what reconciliation left; else the operation fails or is cancelled with count and size equal |
| `ModelInstall.Installer.Install` | src/evoblue_video_mcp/asr/installer.py:291-563 | from any active status the install ends in a terminal one and completes only over a verified archive; uncancelled, and without faults of disk or database, it completes if and only if the archive unpacks and, as far as still due, the sources succeed or the file is whole |
| `ImmediateWrites.Session.AwaitShield` | src/evoblue_video_mcp/storage/db.py:150-153 | an await of the shielded commit: resumed by its end, or by a cancel that comes first; the task goes on either way |
| `ImmediateWrites.Session.AwaitVerdict` | src/evoblue_video_mcp/storage/db.py:154-166 | however often the request is cancelled, the wait ends only with the commit task and knows how it ended |
| `ImmediateWrites.Session.ImmediateWrite` | src/evoblue_video_mcp/storage/db.py:114-185 | for every order of commit end, wake-ups and cancels: the transaction leaves only after the commit has ended, the flag is set once and exactly when the write is durable, whatever then propagates, and without it the database is unchanged |
| `Settings.SettingsService.Drain` | src/evoblue_video_mcp/web/app.py:173-235 | the credential worker performs the queue in order, each operation once, however late |
| `Settings.SettingsService.SetSecretAndWait` | src/evoblue_video_mcp/web/app.py:184-210 | the write goes behind the queue into its own slot, and is confirmed exactly when it was performed in time and succeeded |
| `Settings.SettingsService.Put` | src/evoblue_video_mcp/web/app.py:811-958 | the refusals, the binding and the fresh slot, before the transaction; the outcome is durable exactly when the statements return and the commit succeeds |
| `Settings.SettingsService.StoreRow` | src/evoblue_video_mcp/web/app.py:959-1147 | pointer first, then the transaction; what is undone follows the exception that arrives and the flag, and this amounts to compensating exactly when the row was not stored |
| `SettingsLaws.SaveKeepsInv` | src/evoblue_video_mcp/web/app.py:811-1147 | one save with any timeouts, late writes, failures and cancellations keeps the invariant of row, vault, queue and pointer |
| `SettingsLaws.RunsKeepInv` | src/evoblue_video_mcp/web/app.py:811-1147 | every run of saves and late vault operations keeps it |
| `SettingsLaws.TheKeyFitsItsOrigin` | src/evoblue_video_mcp/web/app.py:830-856 | in every run the slot of the row holds the key supplied for the recorded origin, no queued operation targets that slot, and the origin equals that of the Base URL |
| `SettingsLaws.CompletedSetupsRun` | src/evoblue_video_mcp/web/app.py:858-914 | in every run a completed setup has provider, Base URL, model and a stored key |
| `SettingsLaws.PointerFollowsRow` | src/evoblue_video_mcp/web/app.py:987-1147 | in every run pointer and row name the same directory, unless a compensating write itself failed |
| `SettingsLaws.SplitsAreFailedCompensations` | src/evoblue_video_mcp/web/app.py:987-1004 | in every run pointer and row can be apart exactly when some save that moved the pointer was not durable and could not put it back, and no later adopted save wrote the pointer |
| `SettingsLaws.AnswersAreTrue` | src/evoblue_video_mcp/web/app.py:1102-1147 | in every run the row is what the last adopted save asked for; success is answered only by adopted saves, refusal and failure only by others |
| `Origins.OriginsAreEndpoints` | src/evoblue_video_mcp/web/app.py:147-170 | between URLs without IPv6 hosts, equal origins mean the same scheme, host and effective port, or that neither URL has them |
| `Origins.BracketedOriginsCollide` | src/evoblue_video_mcp/web/app.py:147-170 | the origin drops the brackets of a host, so two different endpoints with IPv6 hosts have one origin |
| `Origins.Ipv6OriginsCollide` | src/evoblue_video_mcp/web/app.py:147-170 | such endpoints exist: any `http://[::g]:p` and `http://[::g:p]` |
| `SettingsLaws.KeyFollowsEndpoint` | src/evoblue_video_mcp/web/app.py:830-856 | without a new key or provider, and between hosts that are no IPv6 addresses, the key stays exactly when the base URL is left alone or leads to the recorded scheme, host and port |
| `SettingsLaws.KeyFollowsBetweenIpv6Hosts` | src/evoblue_video_mcp/web/app.py:830-856 | between two IPv6 endpoints the key follows when the port of one is the last group of the other |
| `SettingsLaws.KeyFollowsBetweenBareHosts` | src/evoblue_video_mcp/web/app.py:147-170 | base URLs without a scheme have no origin and therefore agree, so between two of them the key does follow |
| `SettingsLaws.FailedSavesLeaveNoTrace` | src/evoblue_video_mcp/web/app.py:1129-1143 | a refused or failed save leaves the row, and what the pointer reads as, unchanged |
| `SettingsLaws.PointerReadsBack` | src/evoblue_video_mcp/storage/rebuild.py:115-159 | the pointer file reads back as the directory written, trimmed, and as none after a clear |

## Assumptions

- Each repository function is one atomic step, a commit is durable or not, and closing a session never raises.
- The clock does not go back, and no two live workers share an owner name.
- Digests are injective; job ids and vault slots are fresh when they are made.
- No other index writer is active during a rescan.
- All sources of a model manifest carry one size and one digest.
- During an install the disk takes every chunk that is written and lets go of every file; in the source a fault there
  ends the install with an internal error.
- A report folder holds fewer files than one SQLite statement takes parameters (32 766 by default): the absence pass
  binds every path at once. File names are Unicode text.

## Left out

- JobRuns.EventKeepsInv: handlers park without an artifact, as the source's handlers do; the row a park through `commit_artifact_and_advance` would leave (lease and cancel flag kept) is excluded by `PipelineMove`.
- WorkerLoop.RunWorkerOnce: other actors do not interfere inside the method; arbitrary interleavings are what the runs of `JobRuns` cover. Heartbeat scheduling is the event of a renewal at any time. Outcomes without a target and stages without a handler do not occur with the shipped handlers and appear as a fatal failure.
- JobRepository.Repository.AdvanceJob: display columns, error details and the provider route are not modelled. A job parked without a recommendation waits until it is cancelled.
- JobRepository.Repository.SubmitVideo: URL canonicalisation and the two fingerprint functions are parameters.
- Json.LoadsDumpedString: characters are Unicode scalar values. A lone surrogate, which only an escape can bring in, is replaced in the value and recorded beside it.
- Json.TooMuchRaises: how deep the interpreter nests is a parameter, and one number stands for reading a value and for showing it in an error message.
- Urls.HttpSplits: the characters whose compatibility form holds a delimiter are listed as of Unicode 14; hosts in brackets are checked as Python does from 3.11.4 on.
- ReportRecovery.RoundTrip: calendar and lower-casing are parameters with the laws the proof needs (a moment reads back as shown, on a single line that begins with a digit). An address with a heading line in it is excluded: it is printed in a section that is never read, and whether it harms another one depends on both. `int()` reads ASCII digits. UTF-8 decoding and the byte order mark are part of the reader's outcome for a file.
- SearchLaws.CjkPhraseSearch: FTS5 ranking, snippets and the unicode61 tokenizer are not modelled; tokens are the whitespace-separated pieces of the normalised text.
- SearchLaws.BuildMatchQuery: which characters `\w` matches is a parameter.
- ReportIndex.Index.Upsert: row timestamps, byte sizes, and the detail and timestamps of issues are not modelled. Row ids come from a counter.
- RebuildTheorems.HistoryDoesNotMatter: row ids and whether an entry came from the pipeline or a rescan do depend on history and are left out of the comparison.
- RebuildService.Service.Run: the `removed` counter is not kept, because the source also counts rows that were missing before; the background task, its lock and its shutdown are not modelled.
- UnifiedList.LikeMeansWithin: text and pattern are of one letter case; the folding that LIKE does itself is ASCII lower-casing of both where the lists use it.
- ListOfRuns.EveryPageIsAccepted: title and platform of a job row are display columns with any content.
- ListBridge.UnifiedPage: fields of the wrong JSON type are not modelled; a response has every field with its type. The two older single-source pages are not modelled.
- ResumableStages.Checkpoint.Execute: the engine is the repository's reference provider; times are real numbers, so the binary rounding inside the key's three decimals is not modelled.
- TomlScan.WalkLine: bare keys are ASCII. The TOML parser and the proof steps that compare two parses are not modelled.
- TomlEntry.EntryIsBlock: the entry's key and the names of its environment are bare words without dots, as those the application writes are.
- ModelInstall.Installer.Install: file-set manifests, the checks inside archive extraction and failures of disk or database during an install are not modelled; extraction is one of four outcomes. As in the source, an install resumed in INSTALLING does not verify the archive again.
- ModelInstall.Installer.ReceiveBody: the file holds what was written to it; a tail that was still buffered when the process died is the subject of `CrashResumesOrRestarts`.
- ModelInstall.Installer.TransferFromSources: between two sources the file is gone before the row says so, as in the source; the contract says that this is the only unsafe state, and `ReconciliationIsExact` covers it.
- Origins.OriginsAreEndpoints: host names are lower-cased over ASCII.
- SettingsLaws.TheKeyFitsItsOrigin: binding is proved, not cleanup; a request cancelled while it waits for the vault can leave an unreferenced slot. Slots of older releases are not modelled. The recorded origin and that of the base URL may both be none.
- ImmediateWrites.Session.ImmediateWrite: the event loop is fair: the commit ends at some time and a waiting request is woken again and again. The rollback after a failed body and the final reset may be cancelled, but not fail.
- Settings.SettingsService.Put: speech-recognition columns and path normalisation are not modelled; the response body is reduced to its status.
- Network clients, video adapters, LLM and speech engines, ffmpeg, the web and MCP plumbing, packaging, diagnostics, routing tables, manifests, release gates and error translation: input and output with little to prove, or finite tables.
