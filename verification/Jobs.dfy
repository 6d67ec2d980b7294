/**
 Job rows and the changes one row can make (jobs/states.py, jobs/transitions.py,
 storage/repository.py). Every repository function that writes the jobs table is a guarded
 change of a row: `Enabled` is its WHERE clause, `Moved` is its VALUES clause.
 */
module Jobs {
  import opened Wrappers

  datatype JobStatus =
    | Queued
    | FetchingMetadata
    | FetchingSubtitles
    | DownloadingAudio
    | Transcribing
    | WaitingForModel
    | CleaningTranscript
    | Chunking
    | SummarizingChunks
    | GeneratingReport
    | Indexing
    | RetryWait
    | Completed
    | Failed
    | Cancelled

  predicate Terminal(s: JobStatus) { s in {Completed, Failed, Cancelled} }

  /** States a job occupies while a worker executes a pipeline stage. */
  predicate Running(s: JobStatus) { !Terminal(s) && s !in {Queued, RetryWait, WaitingForModel} }

  /** The linear chain with its one shortcut (platform subtitles) and its one detour (a missing model). */
  predicate InChain(src: JobStatus, dst: JobStatus) {
    match src
    case Queued => dst == FetchingMetadata
    case FetchingMetadata => dst == FetchingSubtitles
    case FetchingSubtitles => dst in {DownloadingAudio, CleaningTranscript}
    case DownloadingAudio => dst == Transcribing
    case Transcribing => dst in {WaitingForModel, CleaningTranscript}
    case WaitingForModel => dst == Transcribing
    case CleaningTranscript => dst == Chunking
    case Chunking => dst == SummarizingChunks
    case SummarizingChunks => dst == GeneratingReport
    case GeneratingReport => dst == Indexing
    case Indexing => dst == Completed
    case _ => false
  }

  /** The transition table: the linear chain plus the pauses, rejections and re-entries. */
  predicate IsEdge(src: JobStatus, dst: JobStatus) {
    || InChain(src, dst)
    || (Running(src) && dst in {RetryWait, Failed})
    || (src == Queued && dst in {Failed, Cancelled})
    || (src == WaitingForModel && dst in {Failed, Cancelled})
    || (src == RetryWait && (Running(dst) || dst in {Failed, Cancelled}))
  }

  type JobId = string
  type Owner = string
  type Time = real

  datatype Job = Job(
    rowId: nat,
    requestFingerprint: Digest,
    url: string,
    configFingerprint: Digest,
    asrDisabled: bool,
    status: JobStatus,
    stage: Option<JobStatus>,
    progress: int,
    attempt: nat,
    maxAttempts: nat,
    leaseOwner: Option<Owner>,
    leaseExpiresAt: Option<Time>,
    cancelRequestedAt: Option<Time>,
    nextRetryAt: Option<Time>,
    recommendation: Option<string>,
    errorCode: Option<string>,
    retryable: bool,
    createdAt: Time,
    updatedAt: Time)

  // ----- claiming

  /** `_is_claimable`, the check on the row that was read. */
  predicate IsClaimable(j: Job, now: Time) {
    && j.attempt < j.maxAttempts
    && !Terminal(j.status)
    && (|| j.status == Queued
        || (j.status == RetryWait && j.nextRetryAt.Some? && j.nextRetryAt.value <= now)
        || (j.status != RetryWait && LeaseFree(j, now)))
  }

  predicate LeaseFree(j: Job, now: Time) { j.leaseExpiresAt.None? || j.leaseExpiresAt.value <= now }

  /** `_claimable_where`, the filter of the claim query. */
  predicate ClaimableWhere(j: Job, now: Time) {
    && j.attempt < j.maxAttempts
    && (|| j.status == Queued
        || (j.status == RetryWait && j.nextRetryAt.Some? && j.nextRetryAt.value <= now)
        || (Running(j.status) && LeaseFree(j, now)))
  }

  /** `_claim_status`: a paused job re-enters its stage, a running one keeps it. */
  function ClaimStatus(j: Job): JobStatus {
    match j.status
    case Queued => FetchingMetadata
    case RetryWait => if j.stage.Some? then j.stage.value else FetchingMetadata
    case s => s
  }

  /**
   The query filter is strictly stronger than the row check: the check alone would also
   take over a job parked for a model.
   */
  lemma FilterImpliesCheck(j: Job, now: Time)
    ensures IsClaimable(j, now) <==>
              || ClaimableWhere(j, now)
              || (j.status == WaitingForModel && j.attempt < j.maxAttempts && LeaseFree(j, now))
    ensures !(ClaimableWhere(j, now) && j.status == WaitingForModel)
  {
  }

  // ----- the guarded changes of one row

  datatype Move =
    | Claim(owner: Owner, lease: Time)
    | Advance(owner: Owner, to: JobStatus, lease: Time, newProgress: Option<int>)
    | Commit(owner: Owner, to: JobStatus, lease: Time, newProgress: Option<int>)
    | Fail(owner: Owner, code: string, transient: bool, retryAt: Option<Time>)
    | LandCancel(owner: Owner)
    | RequestCancel
    | Renew(owner: Owner, lease: Time)
    | Pin(owner: Owner, recommended: Option<string>)
    | Checkpoint(owner: Owner)
    | Release
    | Exhaust
    | LandDangling
    | Resume(model: string)

  predicate HoldsLease(j: Job, owner: Owner, now: Time) {
    j.leaseOwner == Some(owner) && j.leaseExpiresAt.Some? && j.leaseExpiresAt.value > now
  }

  predicate Enabled(j: Job, m: Move, now: Time) {
    match m
    case Claim(_, _) => ClaimableWhere(j, now)
    case Advance(owner, to, _, _) => IsEdge(j.status, to) && HoldsLease(j, owner, now)
    case Commit(owner, to, _, _) => IsEdge(j.status, to) && HoldsLease(j, owner, now)
    case Fail(owner, _, transient, _) =>
      IsEdge(j.status, if transient then RetryWait else Failed) && HoldsLease(j, owner, now)
    case LandCancel(owner) => HoldsLease(j, owner, now)
    case RequestCancel => !Terminal(j.status)
    case Renew(owner, _) => HoldsLease(j, owner, now)
    case Pin(owner, _) => j.status == Transcribing && HoldsLease(j, owner, now)
    case Checkpoint(owner) => HoldsLease(j, owner, now)
    case Release => j.leaseExpiresAt.Some? && j.leaseExpiresAt.value <= now && !Terminal(j.status)
    case Exhaust => (j.status == RetryWait || Running(j.status)) && j.attempt >= j.maxAttempts
    case LandDangling => j.status == WaitingForModel && j.cancelRequestedAt.Some?
    case Resume(model) =>
      j.status == WaitingForModel && j.recommendation == Some(model) && j.cancelRequestedAt.None?
  }

  function Unleased(j: Job): Job { j.(leaseOwner := None, leaseExpiresAt := None) }

  function Moved(j: Job, m: Move, now: Time): Job
    requires Enabled(j, m, now)
  {
    match m
    case Claim(owner, lease) =>
      j.(status := ClaimStatus(j),
         stage := Some(ClaimStatus(j)),
         leaseOwner := Some(owner), leaseExpiresAt := Some(now + lease),
         attempt := j.attempt + 1, updatedAt := now)
    case Advance(_, to, lease, p) =>
      // A cancel that landed before the park is consumed by it.
      var landed := to == WaitingForModel && j.cancelRequestedAt.Some?;
      var dst := if landed then Cancelled else to;
      var k := j.(status := dst, stage := if Running(dst) then Some(dst) else j.stage,
                  progress := if p.Some? then p.value else j.progress,
                  errorCode := if landed then Some("CANCELLED_BY_USER") else None,
                  retryable := false, updatedAt := now);
      if Terminal(dst) || dst == WaitingForModel then Unleased(k)
      else k.(leaseExpiresAt := Some(now + lease))
    case Commit(_, to, lease, p) =>
      var k := j.(status := to, stage := if Running(to) then Some(to) else j.stage,
                  progress := if p.Some? then p.value else j.progress,
                  errorCode := None, retryable := false, updatedAt := now);
      if Terminal(to) then Unleased(k) else k.(leaseExpiresAt := Some(now + lease))
    case Fail(_, code, transient, retryAt) =>
      Unleased(j).(status := if transient then RetryWait else Failed,
                   errorCode := Some(code), retryable := transient,
                   nextRetryAt := if transient then retryAt else None, updatedAt := now)
    case LandCancel(_) =>
      Unleased(j).(status := Cancelled, errorCode := Some("CANCELLED_BY_USER"), updatedAt := now)
    case RequestCancel =>
      var k := j.(cancelRequestedAt := Some(now), updatedAt := now);
      if j.status in {Queued, RetryWait, WaitingForModel} then
        Unleased(k).(status := Cancelled, errorCode := Some("CANCELLED_BY_USER"),
                     retryable := false, nextRetryAt := None)
      else k
    case Renew(_, lease) => j.(leaseExpiresAt := Some(now + lease), updatedAt := now)
    case Pin(_, recommended) => j.(recommendation := recommended, updatedAt := now)
    case Checkpoint(_) => j
    case Release => Unleased(j).(updatedAt := now)
    case Exhaust =>
      Unleased(j).(status := Failed, errorCode := Some("MAX_ATTEMPTS_EXCEEDED"), retryable := false,
                   nextRetryAt := None, updatedAt := now)
    case LandDangling =>
      Unleased(j).(status := Cancelled, errorCode := Some("CANCELLED_BY_USER"), retryable := false,
                   updatedAt := now)
    case Resume(_) =>
      Unleased(j).(status := Transcribing, stage := Some(Transcribing), recommendation := None,
                   errorCode := None, retryable := false, updatedAt := now)
  }

  function Step(j: Job, m: Move, now: Time): Job {
    if Enabled(j, m, now) then Moved(j, m, now) else j
  }

  // ----- what every reachable row satisfies

  /**
   A move as the pipeline makes it: handlers park only through `Advance`, never pause through it, and
   report progress as a percentage if at all.
   */
  predicate PipelineMove(m: Move) {
    && (m.Advance? ==> Running(m.to) || m.to in {WaitingForModel, Completed})
    && (m.Commit? ==> Running(m.to))
    && (m.Fail? && m.transient ==> m.retryAt.Some?)
    && (m.Advance? || m.Commit? ==> m.newProgress.Some? ==> 0 <= m.newProgress.value <= 100)
  }

  predicate RowOk(j: Job) {
    // Only a running row is leased, and owner and expiry come together.
    && (j.leaseOwner.Some? <==> j.leaseExpiresAt.Some?)
    && (j.leaseOwner.Some? ==> Running(j.status))
    // The stage column names the stage a claim will enter.
    && (Running(j.status) ==> j.stage == Some(j.status))
    && (j.status == RetryWait ==> j.stage.Some? && Running(j.stage.value) && j.nextRetryAt.Some?)
    // A parked row sits at transcription and carries no cancel flag.
    && (j.status == WaitingForModel ==> j.stage == Some(Transcribing) && j.cancelRequestedAt.None?)
    && j.attempt <= j.maxAttempts
    && (j.status == Queued ==> j.attempt < j.maxAttempts)
    && 0 <= j.progress <= 100
  }

  lemma MovePreservesRowOk(j: Job, m: Move, now: Time)
    requires RowOk(j) && PipelineMove(m)
    ensures RowOk(Step(j, m, now))
  {
  }

  /** A status change follows the table, or a running stage becomes cancelled; nothing leaves a terminal status. */
  ghost predicate LegalChange(src: JobStatus, dst: JobStatus) {
    src != dst ==> !Terminal(src) && (IsEdge(src, dst) || (Running(src) && dst == Cancelled))
  }

  lemma MoveIsLegal(j: Job, m: Move, now: Time)
    requires RowOk(j) && PipelineMove(m)
    ensures LegalChange(j.status, Step(j, m, now).status)
    ensures Terminal(j.status) ==> Step(j, m, now) == j
  {
  }

  // ----- every change of status or owner uses something up

  /** How far a stage is from completion. */
  function StageRank(s: JobStatus): nat {
    match s
    case FetchingMetadata => 9
    case FetchingSubtitles => 8
    case DownloadingAudio => 7
    case Transcribing => 6
    case CleaningTranscript => 5
    case Chunking => 4
    case SummarizingChunks => 3
    case GeneratingReport => 2
    case Indexing => 1
    case _ => 0
  }

  /** Owned stages rank above a parked job, that above an unowned one, that above a terminal one. */
  function Rank(j: Job): nat {
    if Terminal(j.status) then 0
    else if j.status == WaitingForModel then 2
    else if j.leaseOwner.Some? then 2 + StageRank(j.status)
    else 1
  }

  function AttemptsLeft(j: Job): nat {
    if j.attempt <= j.maxAttempts then j.maxAttempts - j.attempt else 0
  }

  ghost predicate Falls(j: Job, k: Job) {
    || AttemptsLeft(k) < AttemptsLeft(j)
    || (AttemptsLeft(k) == AttemptsLeft(j) && Rank(k) < Rank(j))
  }

  ghost predicate Changes(j: Job, k: Job) {
    j.status != k.status || j.leaseOwner != k.leaseOwner
  }

  lemma ChangeFalls(j: Job, m: Move, now: Time)
    requires RowOk(j) && PipelineMove(m)
    ensures var k := Step(j, m, now);
            && (Changes(j, k) ==> Falls(j, k))
            && (!Changes(j, k) ==> Falls(j, k) || (AttemptsLeft(k) == AttemptsLeft(j) && Rank(k) == Rank(j)))
  {
  }

  /** The two components in one number: a bound on how many changes a row can still make. */
  function Budget(j: Job): nat { 12 * AttemptsLeft(j) + Rank(j) }

  lemma BudgetFalls(j: Job, m: Move, now: Time)
    requires RowOk(j) && PipelineMove(m)
    ensures var k := Step(j, m, now);
            Budget(k) + (if Changes(j, k) then 1 else 0) <= Budget(j)
  {
    ChangeFalls(j, m, now);
  }

  // ----- startup recovery of one row

  /** The three sweeps in the order `recover_on_startup` runs them. */
  function Recovered(j: Job, now: Time): Job {
    Step(Step(Step(j, Release, now), Exhaust, now), LandDangling, now)
  }

  ghost predicate ClaimableLater(j: Job, now: Time) {
    exists t :: t >= now && ClaimableWhere(j, t)
  }

  /** Finished, sure to be claimable at some later time, or parked without a cancel flag. */
  ghost predicate Settled(j: Job, now: Time) {
    || Terminal(j.status)
    || ClaimableLater(j, now)
    || (j.status == WaitingForModel && j.cancelRequestedAt.None?)
  }

  /** Rows no sweep repairs: a pause without a retry time, or a queued row with no attempt left. */
  predicate Stranded(j: Job) {
    || (j.status == RetryWait && j.attempt < j.maxAttempts && j.nextRetryAt.None?)
    || (j.status == Queued && j.attempt >= j.maxAttempts)
  }

  /**
   From any row whatever, recovery settles the row exactly when it was not stranded.
   */
  lemma RecoveryLeavesNoZombie(j: Job, now: Time)
    ensures Settled(Recovered(j, now), now) <==> !Stranded(j)
  {
    var k := Recovered(j, now);
    if !Terminal(k.status) && k.status != WaitingForModel && !Stranded(j) {
      var due := if k.status == RetryWait then k.nextRetryAt.value
                 else if Running(k.status) && k.leaseExpiresAt.Some? then k.leaseExpiresAt.value else now;
      assert ClaimableWhere(k, if due >= now then due else now);
    }
  }

  /** Rows the pipeline can reach are never stranded. */
  lemma ReachableRowsAreNotStranded(j: Job)
    requires RowOk(j)
    ensures !Stranded(j)
  {
  }
}
