/**
 The job and artifact tables and the repository functions that write them
 (storage/repository.py, application/submit.py). Each function runs in one IMMEDIATE
 transaction, so it is one atomic change of the tables.
 */
module JobTables {
  import opened Wrappers
  import opened Jobs

  datatype ArtifactKind =
    | VideoMetadata
    | PlatformTranscript
    | CleanedTranscript
    | ChunkList
    | ChunkSummaries
    | ChunkSummary
    | Report
    | Audio
    | AsrSegment

  datatype ArtifactKey = ArtifactKey(job: JobId, kind: ArtifactKind, input: Digest)

  /** Inline JSON, or a file under the artifact root with its hash. */
  datatype Artifact = Artifact(payload: Option<string>, relativePath: Option<string>, contentHash: Option<Digest>)

  datatype Tables = Tables(jobs: map<JobId, Job>, artifacts: map<ArtifactKey, Artifact>, nextRowId: nat)

  /** The order of the claim query: oldest first, the row id breaking ties. */
  predicate ClaimsBefore(j: Job, k: Job) {
    j.createdAt < k.createdAt || (j.createdAt == k.createdAt && j.rowId <= k.rowId)
  }

  /** The row `claim_next_job` takes: the first one the filter lets through. */
  ghost predicate IsNextClaim(t: Tables, id: JobId, now: Time) {
    && id in t.jobs && ClaimableWhere(t.jobs[id], now)
    && forall k :: k in t.jobs && ClaimableWhere(t.jobs[k], now) ==> ClaimsBefore(t.jobs[id], t.jobs[k])
  }

  datatype Change =
    | One(id: JobId, move: Move)
    | ClaimNext(id: JobId, owner: Owner, lease: Time)
    | Every(move: Move)
    | CommitArtifact(id: JobId, commit: Move, kind: ArtifactKind, input: Digest, artifact: Artifact)
    | SaveCheckpoint(id: JobId, owner: Owner, kind: ArtifactKind, input: Digest, payload: string)
    | Insert(id: JobId, row: Job)

  /** The effect of one change; a change whose guard fails leaves the tables as they were. */
  ghost function Apply(t: Tables, c: Change, now: Time): Tables {
    match c
    case One(id, m) =>
      if id in t.jobs then t.(jobs := t.jobs[id := Step(t.jobs[id], m, now)]) else t
    case ClaimNext(id, owner, lease) =>
      if IsNextClaim(t, id, now) then t.(jobs := t.jobs[id := Moved(t.jobs[id], Claim(owner, lease), now)]) else t
    case Every(m) => t.(jobs := map id | id in t.jobs :: Step(t.jobs[id], m, now))
    case CommitArtifact(id, m, kind, input, artifact) =>
      if id in t.jobs && Enabled(t.jobs[id], m, now) then
        t.(jobs := t.jobs[id := Moved(t.jobs[id], m, now)],
           artifacts := Registered(t.artifacts, ArtifactKey(id, kind, input), artifact))
      else t
    case SaveCheckpoint(id, owner, kind, input, payload) =>
      if id in t.jobs && HoldsLease(t.jobs[id], owner, now) then
        t.(artifacts := Refreshed(t.artifacts, ArtifactKey(id, kind, input), payload))
      else t
    case Insert(id, row) => t.(jobs := t.jobs[id := row], nextRowId := t.nextRowId + 1)
  }

  /** Registering an artifact that exists is a no-op. */
  function Registered(a: map<ArtifactKey, Artifact>, key: ArtifactKey, artifact: Artifact): map<ArtifactKey, Artifact> {
    if key in a then a else a[key := artifact]
  }

  /** A checkpoint refreshes the payload of an existing row. */
  function Refreshed(a: map<ArtifactKey, Artifact>, key: ArtifactKey, payload: string): map<ArtifactKey, Artifact> {
    a[key := if key in a then a[key].(payload := Some(payload)) else Artifact(Some(payload), None, None)]
  }

  /** Any unfinished job of the fingerprint is reused, and a job completed since the cutoff. */
  predicate Reusable(j: Job, fingerprint: Digest, cutoff: Time) {
    && j.requestFingerprint == fingerprint
    && (!Terminal(j.status) || (j.status == Completed && j.updatedAt >= cutoff))
  }

  /** Unfinished before completed, then newest first. */
  predicate PreferredTo(j: Job, k: Job) {
    if Terminal(j.status) then Terminal(k.status) && k.updatedAt <= j.updatedAt
    else Terminal(k.status) || k.createdAt <= j.createdAt
  }

  /** The row `submit_video` inserts. */
  function NewJob(rowId: nat, fingerprint: Digest, url: string, config: Digest, asrDisabled: bool, now: Time): Job {
    Job(rowId, fingerprint, url, config, asrDisabled, Queued, None, 0, 0, 3,
        None, None, None, None, None, None, false, now, now)
  }
}

module JobRepository {
  import opened Wrappers
  import opened Jobs
  import opened JobTables

  datatype WriteResult = Written | UnknownJob | IllegalTransition | LeaseLost

  /** What a compare-and-swap write reports: unknown row, then illegal transition, then lost lease. */
  function Verdict(jobs: map<JobId, Job>, id: JobId, legal: bool, owner: Owner, now: Time): WriteResult {
    if id !in jobs then UnknownJob
    else if !legal then IllegalTransition
    else if !HoldsLease(jobs[id], owner, now) then LeaseLost
    else Written
  }

  predicate LegalFor(jobs: map<JobId, Job>, id: JobId, to: JobStatus) {
    id in jobs ==> IsEdge(jobs[id].status, to)
  }

  class Repository {
    var jobs: map<JobId, Job>
    var artifacts: map<ArtifactKey, Artifact>
    var nextRowId: nat

    ghost function Content(): Tables reads this { Tables(jobs, artifacts, nextRowId) }

    constructor ()
      ensures Content() == Tables(map[], map[], 0)
    {
      jobs, artifacts, nextRowId := map[], map[], 0;
    }

    /** The claim query: matching rows in claim order, at most sixteen. */
    method Candidates(now: Time) returns (ids: seq<JobId>)
      ensures forall i :: 0 <= i < |ids| ==> ids[i] in jobs && ClaimableWhere(jobs[ids[i]], now)
      ensures ids != [] ==> IsNextClaim(Content(), ids[0], now)
      ensures ids == [] ==> forall k :: k in jobs ==> !ClaimableWhere(jobs[k], now)
    {
      var rest := set k | k in jobs && ClaimableWhere(jobs[k], now);
      ids := [];
      while rest != {} && |ids| < 16
        invariant forall k :: k in rest ==> k in jobs && ClaimableWhere(jobs[k], now)
        invariant forall i :: 0 <= i < |ids| ==> ids[i] in jobs && ClaimableWhere(jobs[ids[i]], now)
        invariant ids == [] ==> forall k :: k in jobs && ClaimableWhere(jobs[k], now) ==> k in rest
        invariant ids != [] ==> IsNextClaim(Content(), ids[0], now)
        decreases rest
      {
        var least := Oldest(rest);
        ids := ids + [least];
        rest := rest - {least};
      }
    }

    method Oldest(ids: set<JobId>) returns (least: JobId)
      requires ids != {} && ids <= jobs.Keys
      ensures least in ids && forall k :: k in ids ==> ClaimsBefore(jobs[least], jobs[k])
    {
      least :| least in ids;
      var rest := ids - {least};
      while rest != {}
        invariant least in ids && rest <= ids
        invariant forall k :: k in ids && k !in rest ==> ClaimsBefore(jobs[least], jobs[k])
        decreases rest
      {
        var k :| k in rest;
        if !ClaimsBefore(jobs[least], jobs[k]) { least := k; }
        rest := rest - {k};
      }
    }

    method ClaimJob(id: JobId, owner: Owner, lease: Time, now: Time) returns (claimed: Option<Job>)
      modifies this`jobs
      ensures claimed.Some? <==> id in old(jobs) && IsClaimable(old(jobs)[id], now)
      ensures claimed.None? ==> jobs == old(jobs)
      ensures claimed.Some? ==> jobs == old(jobs)[id := claimed.value]
      ensures claimed.Some? && ClaimableWhere(old(jobs)[id], now) ==>
                claimed.value == Moved(old(jobs)[id], Claim(owner, lease), now)
    {
      if id !in jobs || !IsClaimable(jobs[id], now) { return None; }
      var job := jobs[id];
      var status := ClaimStatus(job);
      job := job.(status := status, stage := Some(status), attempt := job.attempt + 1);
      job := job.(leaseOwner := Some(owner), leaseExpiresAt := Some(now + lease), updatedAt := now);
      jobs := jobs[id := job];
      claimed := Some(job);
    }

    /** Claims the oldest claimable job, or nothing when none is ready. */
    method ClaimNextJob(owner: Owner, lease: Time, now: Time) returns (claimed: Option<JobId>)
      modifies this`jobs
      ensures claimed.Some? ==> IsNextClaim(old(Content()), claimed.value, now)
      ensures claimed.Some? ==> Content() == Apply(old(Content()), ClaimNext(claimed.value, owner, lease), now)
      ensures claimed.None? ==> Content() == old(Content())
      ensures claimed.None? <==> forall k :: k in old(jobs) ==> !ClaimableWhere(old(jobs)[k], now)
    {
      var ids := Candidates(now);
      for i := 0 to |ids|
        invariant i == 0 && jobs == old(jobs)
      {
        FilterImpliesCheck(jobs[ids[i]], now);
        var row := ClaimJob(ids[i], owner, lease, now);
        if row.Some? { return Some(ids[i]); }
      }
      return None;
    }

    method AdvanceJob(id: JobId, owner: Owner, to: JobStatus, lease: Time, progress: Option<int>, now: Time)
      returns (r: WriteResult)
      modifies this`jobs
      ensures r == Verdict(old(jobs), id, LegalFor(old(jobs), id, to), owner, now)
      ensures Content() == Apply(old(Content()), One(id, Advance(owner, to, lease, progress)), now)
    {
      if id !in jobs { return UnknownJob; }
      var job := jobs[id];
      if !IsEdge(job.status, to) { return IllegalTransition; }
      var cancelLanded := to == WaitingForModel && job.cancelRequestedAt.Some?;
      var target := if cancelLanded then Cancelled else to;
      if !HoldsLease(job, owner, now) {
        assert jobs[id := jobs[id]] == jobs;
        return LeaseLost;
      }
      job := job.(status := target, stage := if Running(target) then Some(target) else job.stage,
                  errorCode := if cancelLanded then Some("CANCELLED_BY_USER") else None, retryable := false,
                  progress := if progress.Some? then progress.value else job.progress, updatedAt := now);
      if Terminal(target) || target == WaitingForModel {
        job := Unleased(job);
      } else {
        job := job.(leaseExpiresAt := Some(now + lease));
      }
      assert job == Moved(old(jobs)[id], Advance(owner, to, lease, progress), now);
      jobs := jobs[id := job];
      r := Written;
    }

    /** Registers a stage artifact and advances the job in one transaction. */
    method CommitArtifactAndAdvance(id: JobId, owner: Owner, to: JobStatus, lease: Time, progress: Option<int>,
                                    kind: ArtifactKind, input: Digest, artifact: Artifact, now: Time)
      returns (r: WriteResult)
      modifies this`jobs, this`artifacts
      ensures r == Verdict(old(jobs), id, LegalFor(old(jobs), id, to), owner, now)
      ensures Content() == Apply(old(Content()),
                                 CommitArtifact(id, Commit(owner, to, lease, progress), kind, input, artifact), now)
    {
      if id !in jobs { return UnknownJob; }
      var job := jobs[id];
      if !IsEdge(job.status, to) { return IllegalTransition; }
      if !HoldsLease(job, owner, now) { return LeaseLost; }
      job := job.(status := to, stage := if Running(to) then Some(to) else job.stage,
                  errorCode := None, retryable := false,
                  progress := if progress.Some? then progress.value else job.progress, updatedAt := now);
      job := if Terminal(to) then Unleased(job) else job.(leaseExpiresAt := Some(now + lease));
      jobs := jobs[id := job];
      var key := ArtifactKey(id, kind, input);
      if key !in artifacts { artifacts := artifacts[key := artifact]; }
      r := Written;
    }

    method MarkFailure(id: JobId, owner: Owner, code: string, transient: bool, retryAt: Option<Time>, now: Time)
      returns (r: WriteResult)
      modifies this`jobs
      ensures r == Verdict(old(jobs), id, LegalFor(old(jobs), id, if transient then RetryWait else Failed), owner, now)
      ensures Content() == Apply(old(Content()), One(id, Fail(owner, code, transient, retryAt)), now)
    {
      if id !in jobs { return UnknownJob; }
      var job := jobs[id];
      assert jobs[id := jobs[id]] == jobs;
      var to := if transient then RetryWait else Failed;
      if !IsEdge(job.status, to) { return IllegalTransition; }
      if !HoldsLease(job, owner, now) { return LeaseLost; }
      job := job.(status := to, errorCode := Some(code), retryable := transient);
      job := job.(nextRetryAt := if transient then retryAt else None);
      job := job.(leaseOwner := None, leaseExpiresAt := None, updatedAt := now);
      jobs := jobs[id := job];
      r := Written;
    }

    method MarkCancelled(id: JobId, owner: Owner, now: Time) returns (r: WriteResult)
      modifies this`jobs
      ensures r == Verdict(old(jobs), id, true, owner, now)
      ensures Content() == Apply(old(Content()), One(id, LandCancel(owner)), now)
    {
      if id !in jobs { return UnknownJob; }
      var job := jobs[id];
      assert jobs[id := jobs[id]] == jobs;
      if !HoldsLease(job, owner, now) { return LeaseLost; }
      job := job.(status := Cancelled, errorCode := Some("CANCELLED_BY_USER"), updatedAt := now);
      jobs := jobs[id := job.(leaseOwner := None, leaseExpiresAt := None)];
      r := Written;
    }

    /** Cancels an idle job at once or flags a running one for its next safe point. */
    method RequestCancellation(id: JobId, now: Time) returns (row: Option<Job>)
      modifies this`jobs
      ensures row == if id in jobs then Some(jobs[id]) else None
      ensures Content() == Apply(old(Content()), One(id, RequestCancel), now)
    {
      if id !in jobs { return None; }
      var job := jobs[id];
      assert jobs[id := jobs[id]] == jobs;
      if Terminal(job.status) { return Some(job); }
      var idle := job.status in {Queued, RetryWait, WaitingForModel};
      job := job.(cancelRequestedAt := Some(now), updatedAt := now);
      if idle {
        job := job.(status := Cancelled, errorCode := Some("CANCELLED_BY_USER"), retryable := false);
        job := job.(nextRetryAt := None, leaseOwner := None, leaseExpiresAt := None);
      }
      jobs := jobs[id := job];
      row := Some(job);
    }

    method RenewLease(id: JobId, owner: Owner, lease: Time, now: Time) returns (renewed: bool)
      modifies this`jobs
      ensures renewed <==> Verdict(old(jobs), id, true, owner, now) == Written
      ensures Content() == Apply(old(Content()), One(id, Renew(owner, lease)), now)
    {
      assert id in jobs ==> jobs[id := jobs[id]] == jobs;
      renewed := id in jobs && HoldsLease(jobs[id], owner, now);
      if renewed {
        jobs := jobs[id := jobs[id].(leaseExpiresAt := Some(now + lease), updatedAt := now)];
      }
    }

    method PinJobAsrRoute(id: JobId, owner: Owner, recommended: Option<string>, now: Time) returns (r: WriteResult)
      modifies this`jobs
      ensures r == if id !in old(jobs) then UnknownJob
                   else if Enabled(old(jobs)[id], Pin(owner, recommended), now) then Written else LeaseLost
      ensures Content() == Apply(old(Content()), One(id, Pin(owner, recommended)), now)
    {
      if id !in jobs { return UnknownJob; }
      assert jobs[id := jobs[id]] == jobs;
      if jobs[id].status != Transcribing || !HoldsLease(jobs[id], owner, now) { return LeaseLost; }
      jobs := jobs[id := jobs[id].(recommendation := recommended, updatedAt := now)];
      r := Written;
    }

    /** Inserts or refreshes a checkpoint while the caller still holds a live lease. */
    method SaveArtifactInline(id: JobId, owner: Owner, kind: ArtifactKind, input: Digest, payload: string, now: Time)
      returns (r: WriteResult)
      modifies this`artifacts
      ensures r == if id in jobs && HoldsLease(jobs[id], owner, now) then Written else LeaseLost
      ensures Content() == Apply(old(Content()), SaveCheckpoint(id, owner, kind, input, payload), now)
    {
      if id !in jobs || !HoldsLease(jobs[id], owner, now) { return LeaseLost; }
      var key := ArtifactKey(id, kind, input);
      if key in artifacts {
        artifacts := artifacts[key := artifacts[key].(payload := Some(payload))];
      } else {
        artifacts := artifacts[key := Artifact(Some(payload), None, None)];
      }
      r := Written;
    }

    method ResumeWaitingJobs(model: string, now: Time) returns (resumed: set<JobId>)
      modifies this`jobs
      ensures resumed == set id | id in old(jobs) && Enabled(old(jobs)[id], Resume(model), now)
      ensures Content() == Apply(old(Content()), Every(Resume(model)), now)
    {
      resumed := set id | id in jobs && jobs[id].status == WaitingForModel
                          && jobs[id].recommendation == Some(model) && jobs[id].cancelRequestedAt.None?;
      jobs := map id | id in jobs ::
        if id in resumed then
          jobs[id].(status := Transcribing, stage := Some(Transcribing), recommendation := None, errorCode := None,
                    retryable := false, leaseOwner := None, leaseExpiresAt := None, updatedAt := now)
        else jobs[id];
    }

    method RecoverStaleJobs(now: Time) returns (released: set<JobId>)
      modifies this`jobs
      ensures released == set id | id in old(jobs) && Enabled(old(jobs)[id], Release, now)
      ensures Content() == Apply(old(Content()), Every(Release), now)
    {
      released := set id | id in jobs && jobs[id].leaseExpiresAt.Some? && jobs[id].leaseExpiresAt.value <= now
                           && !Terminal(jobs[id].status);
      jobs := map id | id in jobs ::
        if id in released then jobs[id].(leaseOwner := None, leaseExpiresAt := None, updatedAt := now) else jobs[id];
    }

    method FailExhaustedRetries(now: Time) returns (failed: set<JobId>)
      modifies this`jobs
      ensures failed == set id | id in old(jobs) && Enabled(old(jobs)[id], Exhaust, now)
      ensures Content() == Apply(old(Content()), Every(Exhaust), now)
    {
      failed := set id | id in jobs && (jobs[id].status == RetryWait || Running(jobs[id].status))
                         && jobs[id].attempt >= jobs[id].maxAttempts;
      jobs := map id | id in jobs ::
        if id in failed then
          jobs[id].(status := Failed, errorCode := Some("MAX_ATTEMPTS_EXCEEDED"), retryable := false,
                    leaseOwner := None, leaseExpiresAt := None, nextRetryAt := None, updatedAt := now)
        else jobs[id];
    }

    method LandDanglingCancellations(now: Time) returns (landed: set<JobId>)
      modifies this`jobs
      ensures landed == set id | id in old(jobs) && Enabled(old(jobs)[id], LandDangling, now)
      ensures Content() == Apply(old(Content()), Every(LandDangling), now)
    {
      landed := set id | id in jobs && jobs[id].status == WaitingForModel && jobs[id].cancelRequestedAt.Some?;
      jobs := map id | id in jobs ::
        if id in landed then
          jobs[id].(status := Cancelled, errorCode := Some("CANCELLED_BY_USER"), retryable := false,
                    leaseOwner := None, leaseExpiresAt := None, updatedAt := now)
        else jobs[id];
    }

    /**
     `recover_on_startup`: the three sweeps in order. Whatever the tables held, no job is left
     behind except the rows that were stranded before.
     */
    method RecoverOnStartup(now: Time)
      modifies this`jobs
      ensures jobs.Keys == old(jobs).Keys
      ensures forall id :: id in jobs ==> jobs[id] == Recovered(old(jobs)[id], now)
      ensures forall id :: id in jobs ==> (Settled(jobs[id], now) <==> !Stranded(old(jobs)[id]))
    {
      var released := RecoverStaleJobs(now);
      var failed := FailExhaustedRetries(now);
      var landed := LandDanglingCancellations(now);
      forall id | id in jobs ensures Settled(jobs[id], now) <==> !Stranded(old(jobs)[id]) {
        RecoveryLeavesNoZombie(old(jobs)[id], now);
      }
    }

    // ----- submission

    /** The newest unfinished job of the fingerprint, else a recently completed one. */
    method FindReusable(fingerprint: Digest, cutoff: Time) returns (found: Option<JobId>)
      ensures found.None? <==> forall id :: id in jobs ==> !Reusable(jobs[id], fingerprint, cutoff)
      ensures found.Some? ==> found.value in jobs && Reusable(jobs[found.value], fingerprint, cutoff)
      ensures found.Some? ==> forall id :: id in jobs && Reusable(jobs[id], fingerprint, cutoff) ==>
                PreferredTo(jobs[found.value], jobs[id])
    {
      var active := map id | id in jobs && jobs[id].requestFingerprint == fingerprint
                             && !Terminal(jobs[id].status) :: jobs[id].createdAt;
      found := Latest(active);
      assert forall id :: id in jobs && Reusable(jobs[id], fingerprint, cutoff) && !Terminal(jobs[id].status) ==>
               id in active && active[id] == jobs[id].createdAt;
      if found.Some? { return; }
      var done := map id | id in jobs && jobs[id].requestFingerprint == fingerprint
                           && jobs[id].status == Completed && jobs[id].updatedAt >= cutoff :: jobs[id].updatedAt;
      found := Latest(done);
      assert forall id :: id in jobs && Reusable(jobs[id], fingerprint, cutoff) ==>
               id in done && done[id] == jobs[id].updatedAt;
    }

    /** Submits a URL: the job to follow and whether it was reused. */
    method SubmitVideo(url: string, config: Digest, request: Digest, asrDisabled: bool, window: Time, freshId: JobId,
                       now: Time)
      returns (id: JobId, reused: bool)
      requires freshId !in jobs
      modifies this`jobs, this`nextRowId
      ensures reused ==> id in jobs && Reusable(jobs[id], request, now - window) && Content() == old(Content())
      ensures !reused ==> forall k :: k in old(jobs) ==> !Reusable(old(jobs)[k], request, now - window)
      ensures !reused ==> id == freshId
      ensures !reused ==> Content() == Apply(old(Content()),
                Insert(freshId, NewJob(old(nextRowId), request, url, config, asrDisabled, now)), now)
    {
      var existing := FindReusable(request, now - window);
      if existing.Some? { return existing.value, true; }
      jobs := jobs[freshId := NewJob(nextRowId, request, url, config, asrDisabled, now)];
      nextRowId := nextRowId + 1;
      return freshId, false;
    }
  }

  /** `ORDER BY ... DESC LIMIT 1` over the rows and their sort column. */
  method Latest(rows: map<JobId, Time>) returns (id: Option<JobId>)
    ensures id.None? <==> rows == map[]
    ensures id.Some? ==> id.value in rows && forall k :: k in rows ==> rows[k] <= rows[id.value]
  {
    if rows == map[] { return None; }
    var best :| best in rows;
    var rest := rows.Keys;
    while rest != {}
      invariant best in rows && rest <= rows.Keys
      invariant forall k :: k in rows && k !in rest ==> rows[k] <= rows[best]
      decreases rest
    {
      var k :| k in rest;
      if rows[k] > rows[best] { best := k; }
      rest := rest - {k};
    }
    id := Some(best);
  }
}
