/**
 Whole runs of the job pipeline: any number of workers, users, model installs and recovery
 sweeps interleaved in any order over one set of tables (runtime/worker.py,
 runtime/handlers.py, runtime/engine.py). A worker that crashes leaves its row as it was.
 */
module StageHandlers {
  import opened Wrappers
  import opened Jobs
  import opened JobTables

  /** What the outside world does during a stage: adapters, engines, LLM, disk, the user. */
  datatype World =
    | Works(content: string, file: string)
    | NoSubtitles
    | NoModel
    | SeesCancel
    | Breaks(code: string, transient: bool, retryAt: Option<Time>)

  datatype StageOutcome =
    | Success(target: JobStatus, artifact: Option<(ArtifactKind, Artifact)>)
    | Failure(code: string, transient: bool, retryAt: Option<Time>)
    | CancelledByUser
    | MissingArtifact

  function Inline(content: string): Artifact { Artifact(Some(content), None, None) }

  function Stored(content: string, file: string): Artifact { Artifact(None, Some(file), Some(Sha256(content))) }

  function Key(id: JobId, job: Job, kind: ArtifactKind): ArtifactKey { ArtifactKey(id, kind, Sha256(job.url)) }

  /** `_load_json_artifact` finds content: an inline payload, or a file reference with its hash. */
  predicate Loadable(a: Artifact) { a.payload.Some? || (a.relativePath.Some? && a.contentHash.Some?) }

  /** The handler that loads an artifact of this kind can use the row: audio and report must be files. */
  predicate Usable(kind: ArtifactKind, a: Artifact) {
    if kind in {Audio, Report} then a.relativePath.Some? && a.contentHash.Some? else Loadable(a)
  }

  predicate Has(t: Tables, id: JobId, job: Job, kind: ArtifactKind) {
    Key(id, job, kind) in t.artifacts && Usable(kind, t.artifacts[Key(id, job, kind)])
  }

  function Broken(w: World): StageOutcome {
    if w.Breaks? then Failure(w.code, w.transient, w.retryAt)
    else Failure("INTERNAL_ERROR", false, None)
  }

  function Makes(to: JobStatus, kind: ArtifactKind, a: Artifact): StageOutcome { Success(to, Some((kind, a))) }

  /** What the handler of a stage returns, given the tables it reads and the world it meets. */
  function Handle(t: Tables, id: JobId, job: Job, stage: JobStatus, w: World): StageOutcome {
    match stage
    case FetchingMetadata =>
      if w.Works? then Makes(FetchingSubtitles, VideoMetadata, Inline(w.content)) else Broken(w)
    case FetchingSubtitles =>
      if w.Works? then Makes(CleaningTranscript, PlatformTranscript, Stored(w.content, w.file))
      else if w.NoSubtitles? then
        if job.asrDisabled then Failure("ASR_DISABLED", false, None) else Success(DownloadingAudio, None)
      else Broken(w)
    case DownloadingAudio =>
      if w.Works? then Makes(Transcribing, Audio, Stored(w.content, w.file)) else Broken(w)
    case Transcribing =>
      if w.NoModel? then Success(WaitingForModel, None)
      else if !Has(t, id, job, Audio) then MissingArtifact
      else if w.SeesCancel? then CancelledByUser
      else if w.Works? then Makes(CleaningTranscript, PlatformTranscript, Inline(w.content))
      else Broken(w)
    case CleaningTranscript =>
      if !Has(t, id, job, PlatformTranscript) then MissingArtifact
      else if w.Works? then Makes(Chunking, CleanedTranscript, Inline(w.content)) else Broken(w)
    case Chunking =>
      if !Has(t, id, job, CleanedTranscript) then MissingArtifact
      else if w.Works? then Makes(SummarizingChunks, ChunkList, Inline(w.content)) else Broken(w)
    case SummarizingChunks =>
      if !Has(t, id, job, ChunkList) then MissingArtifact
      else if w.SeesCancel? then CancelledByUser
      else if w.Works? then Makes(GeneratingReport, ChunkSummaries, Inline(w.content)) else Broken(w)
    case GeneratingReport =>
      if !Has(t, id, job, VideoMetadata) || !Has(t, id, job, ChunkSummaries) then MissingArtifact
      else if w.Works? then Makes(Indexing, Report, Stored(w.content, w.file)) else Broken(w)
    case Indexing =>
      if !Has(t, id, job, Report) then MissingArtifact
      else if w.Works? then Success(Completed, None) else Broken(w)
    case _ => Failure("INTERNAL_ERROR", false, None)
  }

  const RETRY_DELAY: Time := 60.0

  /** The table change the worker makes of an outcome. */
  function AsChange(id: JobId, job: Job, owner: Owner, lease: Time, o: StageOutcome, now: Time): Change {
    match o
    case Success(to, None) => One(id, Advance(owner, to, lease, None))
    case Success(to, Some(made)) =>
      CommitArtifact(id, Commit(owner, to, lease, None), made.0, Sha256(job.url), made.1)
    case Failure(code, transient, at) =>
      if code == "CANCELLED_BY_USER" then One(id, LandCancel(owner))
      else One(id, Fail(owner, code, transient, if at.None? && transient then Some(now + RETRY_DELAY) else at))
    case CancelledByUser => One(id, LandCancel(owner))
    case MissingArtifact => One(id, Fail(owner, "INTERNAL_ERROR", false, None))
  }

  // ----- which artifacts a job has produced by the time it enters a stage

  function Produced(stage: JobStatus): set<ArtifactKind> {
    match stage
    case FetchingSubtitles => {VideoMetadata}
    case DownloadingAudio => {VideoMetadata}
    case Transcribing => {VideoMetadata, Audio}
    case CleaningTranscript => {VideoMetadata, PlatformTranscript}
    case Chunking => {VideoMetadata, PlatformTranscript, CleanedTranscript}
    case SummarizingChunks => {VideoMetadata, PlatformTranscript, CleanedTranscript, ChunkList}
    case GeneratingReport => {VideoMetadata, PlatformTranscript, CleanedTranscript, ChunkList, ChunkSummaries}
    case Indexing => {VideoMetadata, PlatformTranscript, CleanedTranscript, ChunkList, ChunkSummaries, Report}
    case Completed => {VideoMetadata, PlatformTranscript, CleanedTranscript, ChunkList, ChunkSummaries, Report}
    case _ => {}
  }

  ghost predicate Prepared(t: Tables, id: JobId, job: Job, stage: JobStatus) {
    forall kind :: kind in Produced(stage) ==> Has(t, id, job, kind)
  }

  ghost predicate Covers(from: JobStatus, made: Option<(ArtifactKind, Artifact)>, to: JobStatus) {
    && Produced(to) <= Produced(from) + (if made.Some? then {made.value.0} else {})
    && (made.Some? ==> Usable(made.value.0, made.value.1))
  }

  /** What a handler registers and what was there before is all the next stage loads. */
  lemma HandlersCover(t: Tables, id: JobId, job: Job, stage: JobStatus, w: World)
    ensures var o := Handle(t, id, job, stage, w);
            o.Success? ==> Covers(stage, o.artifact, if o.target == WaitingForModel then Transcribing else o.target)
  {
  }

  /** A handler reports a missing artifact only when its stage is not prepared. */
  lemma PreparedStagesLoad(t: Tables, id: JobId, job: Job, stage: JobStatus, w: World)
    requires Prepared(t, id, job, stage)
    ensures Handle(t, id, job, stage, w) != MissingArtifact
  {
  }

  /** The stage a job is in, or will re-enter once it is claimed again. */
  function EffectiveStage(job: Job): JobStatus {
    match job.status
    case RetryWait => if job.stage.Some? then job.stage.value else FetchingMetadata
    case WaitingForModel => Transcribing
    case Failed => Queued
    case Cancelled => Queued
    case s => s
  }
}

module JobRuns {
  import opened Wrappers
  import opened Jobs
  import opened JobTables
  import opened StageHandlers

  /** A worker executes one stage of one job and believes its lease runs until `until`. */
  datatype Worker = Idle | Busy(job: JobId, stage: JobStatus, until: Time)

  datatype System = System(
    tables: Tables,
    clock: Time,
    workers: map<Owner, Worker>,
    lastClaim: map<JobId, Owner>)

  datatype Event =
    | Submits(id: JobId, fingerprint: Digest, url: string, config: Digest, asrDisabled: bool, cutoff: Time)
    | UserCancels(id: JobId)
    | ModelInstalled(model: string)
    | SweepStale
    | SweepExhausted
    | SweepDangling
    | WorkerClaims(owner: Owner, id: JobId, lease: Time)
    | WorkerRenews(owner: Owner, lease: Time)
    | WorkerPins(owner: Owner, recommended: Option<string>)
    | WorkerCheckpoints(owner: Owner, kind: ArtifactKind, input: Digest, payload: string)
    | WorkerFinishes(owner: Owner, lease: Time, world: World)
    | WorkerDies(owner: Owner)

  function WorkerOf(s: System, owner: Owner): Worker {
    if owner in s.workers then s.workers[owner] else Idle
  }

  /** The event can happen: workers act only in the state that calls for it, identifiers are fresh. */
  ghost predicate CanHappen(s: System, e: Event, now: Time) {
    && s.clock <= now
    && match e
       case Submits(id, fingerprint, _, _, _, cutoff) =>
         id !in s.tables.jobs &&
         forall k :: k in s.tables.jobs ==> !Reusable(s.tables.jobs[k], fingerprint, cutoff)
       case WorkerClaims(owner, id, _) => WorkerOf(s, owner).Idle? && IsNextClaim(s.tables, id, now)
       case WorkerRenews(owner, _) => WorkerOf(s, owner).Busy?
       case WorkerPins(owner, _) => WorkerOf(s, owner).Busy? && WorkerOf(s, owner).stage == Transcribing
       case WorkerCheckpoints(owner, kind, _, _) =>
         WorkerOf(s, owner).Busy? && kind in {AsrSegment, ChunkSummary}
       case WorkerFinishes(owner, _, _) =>
         WorkerOf(s, owner).Busy? && WorkerOf(s, owner).job in s.tables.jobs
       case _ => true
  }

  ghost function FinishChange(s: System, owner: Owner, lease: Time, w: World, now: Time): Change
    requires WorkerOf(s, owner).Busy? && WorkerOf(s, owner).job in s.tables.jobs
  {
    var b := WorkerOf(s, owner);
    var job := s.tables.jobs[b.job];
    AsChange(b.job, job, owner, lease, Handle(s.tables, b.job, job, b.stage, w), now)
  }

  /** The change an event makes to the tables. */
  ghost function ChangeOf(s: System, e: Event, now: Time): Change
    requires CanHappen(s, e, now)
  {
    match e
    case Submits(id, fingerprint, url, config, asrDisabled, _) =>
      Insert(id, NewJob(s.tables.nextRowId, fingerprint, url, config, asrDisabled, now))
    case UserCancels(id) => One(id, RequestCancel)
    case ModelInstalled(model) => Every(Resume(model))
    case SweepStale => Every(Release)
    case SweepExhausted => Every(Exhaust)
    case SweepDangling => Every(LandDangling)
    case WorkerClaims(owner, id, lease) => ClaimNext(id, owner, lease)
    case WorkerRenews(owner, lease) => One(WorkerOf(s, owner).job, Renew(owner, lease))
    case WorkerPins(owner, recommended) => One(WorkerOf(s, owner).job, Pin(owner, recommended))
    case WorkerCheckpoints(owner, kind, input, payload) =>
      SaveCheckpoint(WorkerOf(s, owner).job, owner, kind, input, payload)
    case WorkerFinishes(owner, lease, w) => FinishChange(s, owner, lease, w, now)
    case WorkerDies(_) => Every(Checkpoint(""))
  }

  /** What the acting worker does next, having seen whether its write went through. */
  ghost function NextWorker(s: System, e: Event, now: Time, t: Tables): map<Owner, Worker>
    requires CanHappen(s, e, now)
  {
    match e
    case WorkerClaims(owner, id, lease) => s.workers[owner := Busy(id, ClaimStatus(s.tables.jobs[id]), now + lease)]
    case WorkerRenews(owner, lease) =>
      var b := WorkerOf(s, owner);
      if Owned(s.tables, b.job, owner, now) then s.workers[owner := b.(until := now + lease)] else s.workers
    case WorkerFinishes(owner, lease, w) =>
      var b := WorkerOf(s, owner);
      if Owned(s.tables, b.job, owner, now) && b.job in t.jobs && Running(t.jobs[b.job].status)
         && t.jobs[b.job].leaseOwner == Some(owner)
      then s.workers[owner := Busy(b.job, t.jobs[b.job].status, now + lease)]
      else s.workers[owner := Idle]
    case WorkerDies(owner) => s.workers[owner := Idle]
    case _ => s.workers
  }

  predicate Owned(t: Tables, id: JobId, owner: Owner, now: Time) {
    id in t.jobs && HoldsLease(t.jobs[id], owner, now)
  }

  ghost function Next(s: System, e: Event, now: Time): System
    requires CanHappen(s, e, now)
  {
    var t := Apply(s.tables, ChangeOf(s, e, now), now);
    System(t, now, NextWorker(s, e, now, t),
           if e.WorkerClaims? then s.lastClaim[e.id := e.owner] else s.lastClaim)
  }

  /** A run is a list of events with the times they happen at. */
  ghost predicate IsRun(s: System, run: seq<(Event, Time)>)
    decreases |run|
  {
    run == [] || (CanHappen(s, run[0].0, run[0].1) && IsRun(Next(s, run[0].0, run[0].1), run[1..]))
  }

  ghost function After(s: System, run: seq<(Event, Time)>): System
    requires IsRun(s, run)
    decreases |run|
  {
    if run == [] then s else After(Next(s, run[0].0, run[0].1), run[1..])
  }

  const START: System := System(Tables(map[], map[], 0), 0.0, map[], map[])

  // ----- the invariant of every run

  ghost predicate RowsOk(t: Tables) {
    && (forall id :: id in t.jobs ==> RowOk(t.jobs[id]) && t.jobs[id].rowId < t.nextRowId)
    && (forall j, k :: j in t.jobs && k in t.jobs && j != k ==> t.jobs[j].rowId != t.jobs[k].rowId)
  }

  ghost predicate BothActive(j: Job, k: Job) {
    !Terminal(j.status) && !Terminal(k.status) && j.requestFingerprint == k.requestFingerprint
  }

  /** Submission keeps at most one unfinished job per request. */
  ghost predicate OneActivePerRequest(t: Tables) {
    forall j, k :: j in t.jobs && k in t.jobs && BothActive(t.jobs[j], t.jobs[k]) ==> j == k
  }

  /** Every job has the artifacts of the stage it is in or will re-enter. */
  ghost predicate AllPrepared(t: Tables) {
    forall id :: id in t.jobs ==> Prepared(t, id, t.jobs[id], EffectiveStage(t.jobs[id]))
  }

  ghost predicate ArtifactsUsable(t: Tables) {
    forall key :: key in t.artifacts ==> Usable(key.kind, t.artifacts[key])
  }

  /** The owner a row names is the one that claimed the job last. */
  ghost predicate OwnersClaimedLast(s: System) {
    forall id :: id in s.tables.jobs && s.tables.jobs[id].leaseOwner.Some? ==>
      id in s.lastClaim && Some(s.lastClaim[id]) == s.tables.jobs[id].leaseOwner
  }

  /** What a busy worker may rely on, whether or not its lease is still alive. */
  ghost predicate WorkerOk(s: System, o: Owner) {
    var w := WorkerOf(s, o);
    w.Busy? ==>
      && w.job in s.tables.jobs && Running(w.stage)
      && Prepared(s.tables, w.job, s.tables.jobs[w.job], w.stage)
      && (s.tables.jobs[w.job].leaseOwner == Some(o) ==>
            s.tables.jobs[w.job].status == w.stage && s.tables.jobs[w.job].leaseExpiresAt == Some(w.until))
      && (w.until > s.clock ==>
            s.tables.jobs[w.job].leaseOwner == Some(o) || Terminal(s.tables.jobs[w.job].status))
  }

  ghost predicate Believes(s: System, o: Owner, id: JobId) {
    WorkerOf(s, o).Busy? && WorkerOf(s, o).job == id && WorkerOf(s, o).until > s.clock
  }

  /** No two owners ever both believe in an unexpired lease on one job. */
  ghost predicate LeasesExclusive(s: System) {
    forall o, p, id :: Believes(s, o, id) && Believes(s, p, id) ==> o == p
  }

  ghost predicate Inv(s: System) {
    && RowsOk(s.tables)
    && OneActivePerRequest(s.tables)
    && ArtifactsUsable(s.tables)
    && AllPrepared(s.tables)
    && OwnersClaimedLast(s)
    && (forall o :: WorkerOk(s, o))
    && LeasesExclusive(s)
  }

  // ----- one change, seen from one row

  /** The move a change makes on a row; a checkpoint by nobody stands for no move. */
  function RowMove(c: Change, id: JobId): Move {
    match c
    case One(k, m) => if k == id then m else Checkpoint("")
    case ClaimNext(k, owner, lease) => if k == id then Claim(owner, lease) else Checkpoint("")
    case Every(m) => m
    case CommitArtifact(k, m, _, _, _) => if k == id then m else Checkpoint("")
    case SaveCheckpoint(_, _, _, _, _) => Checkpoint("")
    case Insert(_, _) => Checkpoint("")
  }

  ghost predicate Moves(t: Tables, c: Change, now: Time) {
    match c
    case ClaimNext(id, _, _) => IsNextClaim(t, id, now)
    case Insert(id, row) =>
      && id !in t.jobs && RowOk(row) && row.rowId == t.nextRowId && row.status == Queued
      && forall k :: k in t.jobs && t.jobs[k].requestFingerprint == row.requestFingerprint ==>
           Terminal(t.jobs[k].status)
    case _ => forall id :: PipelineMove(RowMove(c, id))
  }

  lemma RowAfter(t: Tables, c: Change, now: Time, id: JobId)
    requires Moves(t, c, now) && id in t.jobs
    ensures id in Apply(t, c, now).jobs
    ensures Apply(t, c, now).jobs[id] == Step(t.jobs[id], RowMove(c, id), now)
    ensures PipelineMove(RowMove(c, id))
  {
    match c
    case One(_, _) =>
    case ClaimNext(_, _, _) =>
    case Every(_) =>
    case CommitArtifact(_, _, _, _, _) =>
    case SaveCheckpoint(_, _, _, _, _) =>
    case Insert(_, _) =>
  }

  lemma OutcomeMoves(t: Tables, id: JobId, job: Job, stage: JobStatus, w: World, owner: Owner, lease: Time, now: Time)
    ensures Moves(t, AsChange(id, job, owner, lease, Handle(t, id, job, stage, w), now), now)
  {
    var o := Handle(t, id, job, stage, w);
    assert o.Success? ==> (Running(o.target) || o.target in {WaitingForModel, Completed})
                          && (o.artifact.Some? ==> Running(o.target));
  }

  lemma EventMoves(s: System, e: Event, now: Time)
    requires CanHappen(s, e, now)
    ensures Moves(s.tables, ChangeOf(s, e, now), now)
  {
    if e.WorkerFinishes? {
      var b := WorkerOf(s, e.owner);
      OutcomeMoves(s.tables, b.job, s.tables.jobs[b.job], b.stage, e.world, e.owner, e.lease, now);
    }
  }

  lemma FixedColumns(j: Job, m: Move, now: Time)
    ensures var k := Step(j, m, now);
            && k.rowId == j.rowId && k.url == j.url && k.requestFingerprint == j.requestFingerprint
            && k.asrDisabled == j.asrDisabled && k.maxAttempts == j.maxAttempts
  {
  }

  lemma RowsOkKept(t: Tables, c: Change, now: Time)
    requires RowsOk(t) && Moves(t, c, now)
    ensures RowsOk(Apply(t, c, now))
  {
    var u := Apply(t, c, now);
    forall id | id in t.jobs
      ensures id in u.jobs && RowOk(u.jobs[id]) && u.jobs[id].rowId == t.jobs[id].rowId
    {
      RowAfter(t, c, now, id);
      MovePreservesRowOk(t.jobs[id], RowMove(c, id), now);
      FixedColumns(t.jobs[id], RowMove(c, id), now);
    }
    NewRows(t, c, now);
  }

  /** Rows appear only by insertion. */
  lemma NewRows(t: Tables, c: Change, now: Time)
    requires Moves(t, c, now)
    ensures var u := Apply(t, c, now);
            && (c.Insert? ==> u.jobs.Keys == t.jobs.Keys + {c.id} && u.jobs[c.id] == c.row)
            && (!c.Insert? ==> u.jobs.Keys == t.jobs.Keys && u.nextRowId == t.nextRowId)
  {
  }

  lemma OneActiveKept(t: Tables, c: Change, now: Time)
    requires RowsOk(t) && OneActivePerRequest(t) && Moves(t, c, now)
    ensures OneActivePerRequest(Apply(t, c, now))
  {
    var u := Apply(t, c, now);
    NewRows(t, c, now);
    forall id | id in t.jobs
      ensures u.jobs[id].requestFingerprint == t.jobs[id].requestFingerprint
      ensures Terminal(t.jobs[id].status) ==> Terminal(u.jobs[id].status)
    {
      RowAfter(t, c, now, id);
      MoveIsLegal(t.jobs[id], RowMove(c, id), now);
      FixedColumns(t.jobs[id], RowMove(c, id), now);
    }
    forall j, k | j in u.jobs && k in u.jobs && BothActive(u.jobs[j], u.jobs[k]) ensures j == k {
      assert j in t.jobs && k in t.jobs ==> BothActive(t.jobs[j], t.jobs[k]);
    }
  }

  // ----- artifacts

  ghost predicate StillUsable(a: Artifact, b: Artifact) {
    b.relativePath == a.relativePath && b.contentHash == a.contentHash && (a.payload.Some? ==> b.payload.Some?)
  }

  ghost predicate ArtifactsKept(t: Tables, u: Tables) {
    forall key :: key in t.artifacts ==> key in u.artifacts && StillUsable(t.artifacts[key], u.artifacts[key])
  }

  lemma ArtifactsStay(t: Tables, c: Change, now: Time)
    ensures ArtifactsKept(t, Apply(t, c, now))
  {
  }

  lemma PreparedStays(t: Tables, u: Tables, id: JobId, j: Job, k: Job, stage: JobStatus)
    requires Prepared(t, id, j, stage) && ArtifactsKept(t, u) && k.url == j.url
    ensures Prepared(u, id, k, stage)
  {
    forall kind | kind in Produced(stage) ensures Has(u, id, k, kind) {
      assert Has(t, id, j, kind);
    }
  }

  /** Only an advance changes the stage a job is in or will re-enter, apart from falling back to the start. */
  lemma StageKept(j: Job, m: Move, now: Time)
    requires RowOk(j) && PipelineMove(m) && !m.Advance? && !m.Commit?
    ensures EffectiveStage(Step(j, m, now)) in {EffectiveStage(j), Queued, FetchingMetadata}
  {
  }

  /** An artifact committed with an advance is there afterwards, whichever worker registered it first. */
  lemma CommitRegisters(t: Tables, c: Change, now: Time)
    requires c.CommitArtifact? && c.id in t.jobs && Enabled(t.jobs[c.id], c.commit, now)
    ensures var key := ArtifactKey(c.id, c.kind, c.input);
            && key in Apply(t, c, now).artifacts
            && (key in t.artifacts ==> Apply(t, c, now).artifacts[key] == t.artifacts[key])
            && (key !in t.artifacts ==> Apply(t, c, now).artifacts[key] == c.artifact)
  {
  }

  /** A successful stage leaves behind what its successor loads. */
  lemma SuccessPrepares(t: Tables, id: JobId, w: World, owner: Owner, lease: Time, now: Time)
    requires id in t.jobs && RowOk(t.jobs[id]) && ArtifactsUsable(t) && HoldsLease(t.jobs[id], owner, now)
    requires Prepared(t, id, t.jobs[id], t.jobs[id].status)
    requires Handle(t, id, t.jobs[id], t.jobs[id].status, w).Success?
    ensures var o := Handle(t, id, t.jobs[id], t.jobs[id].status, w);
            var u := Apply(t, AsChange(id, t.jobs[id], owner, lease, o, now), now);
            id in u.jobs && Prepared(u, id, u.jobs[id], EffectiveStage(u.jobs[id]))
  {
    var job := t.jobs[id];
    var o := Handle(t, id, job, job.status, w);
    var c := AsChange(id, job, owner, lease, o, now);
    var u := Apply(t, c, now);
    OutcomeMoves(t, id, job, job.status, w, owner, lease, now);
    RowAfter(t, c, now, id);
    FixedColumns(job, RowMove(c, id), now);
    ArtifactsStay(t, c, now);
    PreparedStays(t, u, id, job, u.jobs[id], job.status);
    HandlersCover(t, id, job, job.status, w);
    SuccessEnabled(t, id, w, owner, lease, now);
    if c.CommitArtifact? {
      CommitRegisters(t, c, now);
    }
    var stage := EffectiveStage(u.jobs[id]);
    forall kind | kind in Produced(stage) ensures Has(u, id, u.jobs[id], kind) {
      if kind !in Produced(job.status) {
        assert o.artifact.Some? && kind == o.artifact.value.0;
      }
    }
  }

  /** With the lease held, the worker's write for a successful stage goes through. */
  lemma SuccessEnabled(t: Tables, id: JobId, w: World, owner: Owner, lease: Time, now: Time)
    requires id in t.jobs && RowOk(t.jobs[id]) && HoldsLease(t.jobs[id], owner, now)
    requires Handle(t, id, t.jobs[id], t.jobs[id].status, w).Success?
    ensures var job := t.jobs[id];
            var o := Handle(t, id, job, job.status, w);
            var m := RowMove(AsChange(id, job, owner, lease, o, now), id);
            && Enabled(job, m, now)
            && EffectiveStage(Moved(job, m, now)) in
                 {if o.target == WaitingForModel then Transcribing else o.target, Queued}
  {
  }

  // ----- every event keeps the invariant

  /** The owner on whose behalf a lease-changing move is made. */
  function Actor(m: Move): Option<Owner> {
    match m
    case Claim(o, _) => Some(o)
    case Advance(o, _, _, _) => Some(o)
    case Commit(o, _, _, _) => Some(o)
    case Fail(o, _, _, _) => Some(o)
    case LandCancel(o) => Some(o)
    case Renew(o, _) => Some(o)
    case _ => None
  }

  /** Nobody else's move touches a live lease, except a sweep that ends the job. */
  lemma OthersKeepLease(j: Job, m: Move, now: Time, o: Owner)
    requires RowOk(j) && Actor(m) != Some(o)
    ensures var k := Step(j, m, now);
            && (k.leaseOwner == Some(o) ==>
                  j.leaseOwner == Some(o) && k.status == j.status && k.leaseExpiresAt == j.leaseExpiresAt)
            && (HoldsLease(j, o, now) ==> k.leaseOwner == Some(o) || Terminal(k.status))
  {
  }

  /** Ownership is gained only by a claim. */
  lemma OwnersClaim(j: Job, m: Move, now: Time)
    ensures Step(j, m, now).leaseOwner in
              {j.leaseOwner, None, if m.Claim? then Some(m.owner) else None}
  {
  }

  lemma OwnersKept(s: System, e: Event, now: Time)
    requires Inv(s) && CanHappen(s, e, now)
    ensures OwnersClaimedLast(Next(s, e, now))
  {
    var n := Next(s, e, now);
    EventMoves(s, e, now);
    var c := ChangeOf(s, e, now);
    NewRows(s.tables, c, now);
    forall id | id in n.tables.jobs && n.tables.jobs[id].leaseOwner.Some?
      ensures id in n.lastClaim && Some(n.lastClaim[id]) == n.tables.jobs[id].leaseOwner
    {
      if id in s.tables.jobs {
        RowAfter(s.tables, c, now, id);
        OwnersClaim(s.tables.jobs[id], RowMove(c, id), now);
        ClaimsAreEvents(s, e, now, id);
      }
    }
  }

  /** A claim move comes only from a worker's claim of that job, which is then certain to happen. */
  lemma ClaimsAreEvents(s: System, e: Event, now: Time, id: JobId)
    requires CanHappen(s, e, now) && id in s.tables.jobs
    ensures RowMove(ChangeOf(s, e, now), id).Claim? <==> e.WorkerClaims? && e.id == id
    ensures e.WorkerClaims? && e.id == id ==> RowMove(ChangeOf(s, e, now), id) == Claim(e.owner, e.lease)
  {
  }

  lemma UsableKept(s: System, e: Event, now: Time)
    requires Inv(s) && CanHappen(s, e, now)
    ensures ArtifactsUsable(Next(s, e, now).tables)
  {
    if e.WorkerFinishes? {
      var b := WorkerOf(s, e.owner);
      HandlersCover(s.tables, b.job, s.tables.jobs[b.job], b.stage, e.world);
    }
  }

  lemma AdvancesAreSuccesses(k: JobId, job: Job, owner: Owner, lease: Time, o: StageOutcome, now: Time, id: JobId)
    ensures var m := RowMove(AsChange(k, job, owner, lease, o, now), id);
            m.Advance? || m.Commit? ==> k == id && o.Success? && Actor(m) == Some(owner)
  {
  }

  /** Only a finishing worker advances a job, and with its lease alive it is the stage it ran. */
  lemma AdvancesAreFinishes(s: System, e: Event, now: Time, id: JobId)
    requires Inv(s) && CanHappen(s, e, now) && id in s.tables.jobs
    requires var m := RowMove(ChangeOf(s, e, now), id);
             (m.Advance? || m.Commit?) && Enabled(s.tables.jobs[id], m, now)
    ensures e.WorkerFinishes? && WorkerOf(s, e.owner).job == id && Owned(s.tables, id, e.owner, now)
    ensures WorkerOf(s, e.owner).stage == s.tables.jobs[id].status
    ensures Handle(s.tables, id, s.tables.jobs[id], s.tables.jobs[id].status, e.world).Success?
  {
    assert e.WorkerFinishes?;
    var b := WorkerOf(s, e.owner);
    AdvancesAreSuccesses(
      b.job, s.tables.jobs[b.job], e.owner, e.lease, Handle(s.tables, b.job, s.tables.jobs[b.job], b.stage, e.world),
        now, id);
    assert WorkerOk(s, e.owner);
  }

  lemma PreparedKept(s: System, e: Event, now: Time)
    requires Inv(s) && CanHappen(s, e, now)
    ensures AllPrepared(Next(s, e, now).tables)
  {
    var t, u := s.tables, Next(s, e, now).tables;
    EventMoves(s, e, now);
    var c := ChangeOf(s, e, now);
    NewRows(t, c, now);
    ArtifactsStay(t, c, now);
    forall id | id in u.jobs ensures Prepared(u, id, u.jobs[id], EffectiveStage(u.jobs[id])) {
      if id in t.jobs {
        var m := RowMove(c, id);
        RowAfter(t, c, now, id);
        FixedColumns(t.jobs[id], m, now);
        PreparedStays(t, u, id, t.jobs[id], u.jobs[id], EffectiveStage(t.jobs[id]));
        if !m.Advance? && !m.Commit? {
          StageKept(t.jobs[id], m, now);
        } else if Enabled(t.jobs[id], m, now) {
          AdvancesAreFinishes(s, e, now, id);
          SuccessPrepares(t, id, e.world, e.owner, e.lease, now);
        }
      }
    }
  }

  /** The worker an event is about, if it changes what that worker believes. */
  function ActingWorker(e: Event): Option<Owner> {
    match e
    case WorkerClaims(o, _, _) => Some(o)
    case WorkerRenews(o, _) => Some(o)
    case WorkerFinishes(o, _, _) => Some(o)
    case WorkerDies(o) => Some(o)
    case _ => None
  }

  lemma OnlyActorsMove(s: System, e: Event, now: Time, o: Owner, id: JobId)
    requires CanHappen(s, e, now) && ActingWorker(e) != Some(o)
    ensures Actor(RowMove(ChangeOf(s, e, now), id)) != Some(o)
    ensures WorkerOf(Next(s, e, now), o) == WorkerOf(s, o)
  {
  }

  lemma BystanderOk(s: System, e: Event, now: Time, o: Owner)
    requires Inv(s) && CanHappen(s, e, now) && ActingWorker(e) != Some(o)
    ensures WorkerOk(Next(s, e, now), o)
    ensures forall id :: Believes(Next(s, e, now), o, id) ==> Believes(s, o, id)
  {
    var n, c, w := Next(s, e, now), ChangeOf(s, e, now), WorkerOf(s, o);
    OnlyActorsMove(s, e, now, o, if w.Busy? then w.job else "");
    if w.Busy? {
      assert WorkerOk(s, o);
      EventMoves(s, e, now);
      var j, m := s.tables.jobs[w.job], RowMove(c, w.job);
      RowAfter(s.tables, c, now, w.job);
      FixedColumns(j, m, now);
      ArtifactsStay(s.tables, c, now);
      PreparedStays(s.tables, n.tables, w.job, j, n.tables.jobs[w.job], w.stage);
      OthersKeepLease(j, m, now, o);
      MoveIsLegal(j, m, now);
    }
  }

  /** While a worker holds its lease, nobody else believes in one on the same job. */
  lemma HolderIsAlone(s: System, e: Event, now: Time, o: Owner, id: JobId)
    requires Inv(s) && CanHappen(s, e, now) && id in s.tables.jobs
    requires Owned(s.tables, id, o, now) || IsNextClaim(s.tables, id, now)
    ensures forall p :: p != o && WorkerOf(s, p).Busy? && WorkerOf(s, p).job == id ==> WorkerOf(s, p).until <= now
  {
    forall p | p != o && WorkerOf(s, p).Busy? && WorkerOf(s, p).job == id
      ensures WorkerOf(s, p).until <= now
    {
      assert WorkerOk(s, p);
      assert RowOk(s.tables.jobs[id]);
    }
  }

  /** A belief that mirrors the row it is about. */
  ghost predicate Mirrors(n: System, o: Owner) {
    var w := WorkerOf(n, o);
    w.Busy? ==> && w.job in n.tables.jobs && n.tables.jobs[w.job].leaseOwner == Some(o)
                && Running(w.stage) && n.tables.jobs[w.job].status == w.stage
                && n.tables.jobs[w.job].leaseExpiresAt == Some(w.until)
  }

  lemma FreshBeliefOk(n: System, o: Owner)
    requires AllPrepared(n.tables) && Mirrors(n, o)
    ensures WorkerOk(n, o)
  {
  }

  /** A claimed row runs the stage the claim chose, under a new lease of the claimer. */
  lemma ClaimedRow(j: Job, owner: Owner, lease: Time, now: Time)
    requires RowOk(j) && ClaimableWhere(j, now)
    ensures var k := Step(j, Claim(owner, lease), now);
            && k.leaseOwner == Some(owner) && k.leaseExpiresAt == Some(now + lease)
            && k.status == ClaimStatus(j) && Running(k.status)
  {
  }

  lemma ClaimerOk(s: System, e: Event, now: Time)
    requires Inv(s) && CanHappen(s, e, now) && e.WorkerClaims?
    ensures WorkerOk(Next(s, e, now), e.owner)
  {
    PreparedKept(s, e, now);
    RowAfter(s.tables, ChangeOf(s, e, now), now, e.id);
    ClaimedRow(s.tables.jobs[e.id], e.owner, e.lease, now);
    FreshBeliefOk(Next(s, e, now), e.owner);
  }

  lemma RenewerOk(s: System, e: Event, now: Time)
    requires Inv(s) && CanHappen(s, e, now) && e.WorkerRenews?
    ensures WorkerOk(Next(s, e, now), e.owner)
  {
    var w := WorkerOf(s, e.owner);
    assert WorkerOk(s, e.owner);
    if Owned(s.tables, w.job, e.owner, now) {
      PreparedKept(s, e, now);
      RowAfter(s.tables, ChangeOf(s, e, now), now, w.job);
      FreshBeliefOk(Next(s, e, now), e.owner);
    }
  }

  /** A finishing worker writes in its own name. */
  lemma FinishIsOwn(t: Tables, id: JobId, job: Job, stage: JobStatus, w: World, o: Owner, lease: Time, now: Time)
    ensures var m := RowMove(AsChange(id, job, o, lease, Handle(t, id, job, stage, w), now), id);
            Actor(m) == Some(o) && !m.Claim? && !m.Renew? && (m.Advance? || m.Commit? ==> m.lease == lease)
  {
  }

  /** A worker that still owns the row after its write advanced it and was given a new lease. */
  lemma FinishedLease(j: Job, m: Move, now: Time, o: Owner, lease: Time)
    requires RowOk(j) && PipelineMove(m) && Enabled(j, m, now)
    requires Actor(m) == Some(o) && !m.Claim? && !m.Renew? && (m.Advance? || m.Commit? ==> m.lease == lease)
    requires Step(j, m, now).leaseOwner == Some(o)
    ensures Step(j, m, now).leaseExpiresAt == Some(now + lease)
  {
  }

  lemma FinishedBelief(s: System, e: Event, now: Time)
    requires Inv(s) && CanHappen(s, e, now) && e.WorkerFinishes?
    requires WorkerOf(Next(s, e, now), e.owner).Busy?
    ensures var b, n := WorkerOf(s, e.owner), Next(s, e, now).tables;
            && b.job in n.jobs && n.jobs[b.job].leaseOwner == Some(e.owner) && Running(n.jobs[b.job].status)
            && n.jobs[b.job].leaseExpiresAt == Some(now + e.lease)
            && WorkerOf(Next(s, e, now), e.owner) == Busy(b.job, n.jobs[b.job].status, now + e.lease)
  {
    var b := WorkerOf(s, e.owner);
    var job, c := s.tables.jobs[b.job], ChangeOf(s, e, now);
    assert WorkerOk(s, e.owner);
    EventMoves(s, e, now);
    RowAfter(s.tables, c, now, b.job);
    FinishIsOwn(s.tables, b.job, job, b.stage, e.world, e.owner, e.lease, now);
    FinishEnabled(s, e, now);
    FinishedLease(job, RowMove(c, b.job), now, e.owner, e.lease);
  }

  /** With the lease held, whatever the stage returned can be written. */
  lemma FinishEnabled(s: System, e: Event, now: Time)
    requires Inv(s) && CanHappen(s, e, now) && e.WorkerFinishes?
    requires Owned(s.tables, WorkerOf(s, e.owner).job, e.owner, now)
    ensures var b := WorkerOf(s, e.owner);
            Enabled(s.tables.jobs[b.job], RowMove(ChangeOf(s, e, now), b.job), now)
  {
    var b := WorkerOf(s, e.owner);
    assert WorkerOk(s, e.owner);
    var job := s.tables.jobs[b.job];
    if Handle(s.tables, b.job, job, b.stage, e.world).Success? {
      SuccessEnabled(s.tables, b.job, e.world, e.owner, e.lease, now);
    }
  }

  lemma FinisherMirrors(s: System, e: Event, now: Time)
    requires Inv(s) && CanHappen(s, e, now) && e.WorkerFinishes?
    ensures Mirrors(Next(s, e, now), e.owner)
  {
    if WorkerOf(Next(s, e, now), e.owner).Busy? {
      FinishedBelief(s, e, now);
    }
  }

  lemma FinisherOk(s: System, e: Event, now: Time)
    requires Inv(s) && CanHappen(s, e, now) && e.WorkerFinishes?
    ensures WorkerOk(Next(s, e, now), e.owner)
  {
    PreparedKept(s, e, now);
    FinisherMirrors(s, e, now);
    FreshBeliefOk(Next(s, e, now), e.owner);
  }

  lemma ActorOk(s: System, e: Event, now: Time, o: Owner)
    requires Inv(s) && CanHappen(s, e, now) && ActingWorker(e) == Some(o)
    ensures WorkerOk(Next(s, e, now), o)
  {
    match e
    case WorkerClaims(_, _, _) => ClaimerOk(s, e, now);
    case WorkerRenews(_, _) => RenewerOk(s, e, now);
    case WorkerFinishes(_, _, _) => FinisherOk(s, e, now);
    case WorkerDies(_) =>
  }

  /** What the acting worker believes afterwards, it believed before or holds a lease that shuts others out. */
  lemma ActorBelief(s: System, e: Event, now: Time, o: Owner, id: JobId)
    requires Inv(s) && CanHappen(s, e, now) && ActingWorker(e) == Some(o)
    requires Believes(Next(s, e, now), o, id)
    ensures id in s.tables.jobs
    ensures Owned(s.tables, id, o, now) || IsNextClaim(s.tables, id, now) || Believes(s, o, id)
  {
    assert WorkerOk(s, o);
  }

  lemma ActorAlone(s: System, e: Event, now: Time, o: Owner, p: Owner, id: JobId)
    requires Inv(s) && CanHappen(s, e, now) && ActingWorker(e) == Some(o) && p != o
    requires Believes(Next(s, e, now), p, id)
    ensures !Believes(Next(s, e, now), o, id)
  {
    BystanderOk(s, e, now, p);
    if Believes(Next(s, e, now), o, id) {
      ActorBelief(s, e, now, o, id);
      if !Believes(s, o, id) {
        HolderIsAlone(s, e, now, o, id);
        OnlyActorsMove(s, e, now, p, id);
        assert false;
      }
    }
  }

  lemma EventKeepsInv(s: System, e: Event, now: Time)
    requires Inv(s) && CanHappen(s, e, now)
    ensures Inv(Next(s, e, now))
  {
    var n := Next(s, e, now);
    EventMoves(s, e, now);
    RowsOkKept(s.tables, ChangeOf(s, e, now), now);
    OneActiveKept(s.tables, ChangeOf(s, e, now), now);
    UsableKept(s, e, now);
    PreparedKept(s, e, now);
    OwnersKept(s, e, now);
    forall o ensures WorkerOk(n, o) {
      if ActingWorker(e) == Some(o) { ActorOk(s, e, now, o); } else { BystanderOk(s, e, now, o); }
    }
    forall o, p, id | Believes(n, o, id) && Believes(n, p, id) ensures o == p {
      if o != p {
        if ActingWorker(e) == Some(o) {
          ActorAlone(s, e, now, o, p, id);
        } else if ActingWorker(e) == Some(p) {
          ActorAlone(s, e, now, p, o, id);
        } else {
          BystanderOk(s, e, now, o);
          BystanderOk(s, e, now, p);
        }
      }
    }
  }
}
