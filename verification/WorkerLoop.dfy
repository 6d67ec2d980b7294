/**
 `run_worker_once` (runtime/worker.py) over the repository: claim one job, execute its stages, write each
 outcome. Its writes, in order, are a run of the system; what other workers do between them is the
 subject of the runs themselves.
 */
module WorkerLoop {
  import opened Wrappers
  import opened Jobs
  import opened JobTables
  import opened JobRepository
  import opened StageHandlers
  import opened JobRuns

  /** The tables as the handlers read them. */
  method Snapshot(repo: Repository) returns (t: Tables)
    ensures t == repo.Content()
  {
    t := Tables(repo.jobs, repo.artifacts, repo.nextRowId);
  }

  predicate KeepsGoing(t: Tables, id: JobId, owner: Owner) {
    id in t.jobs && Running(t.jobs[id].status) && t.jobs[id].leaseOwner == Some(owner)
  }

  /** The write an outcome maps to. */
  method WriteOutcome(repo: Repository, id: JobId, url: string, owner: Owner, lease: Time, o: StageOutcome, now: Time)
    returns (r: WriteResult)
    requires id in repo.jobs && repo.jobs[id].url == url
    modifies repo
    ensures repo.Content() == Apply(old(repo.Content()), AsChange(id, old(repo.jobs)[id], owner, lease, o, now), now)
    ensures r == Written ==> HoldsLease(old(repo.jobs)[id], owner, now)
    ensures HoldsLease(old(repo.jobs)[id], owner, now)
      && Enabled(old(repo.jobs)[id], RowMove(AsChange(id, old(repo.jobs)[id], owner, lease, o, now), id), now)
      ==> r == Written
  {
    match o {
      case CancelledByUser => r := repo.MarkCancelled(id, owner, now);
      case MissingArtifact => r := repo.MarkFailure(id, owner, "INTERNAL_ERROR", false, None, now);
      case Failure(code, transient, at) =>
        if code == "CANCELLED_BY_USER" {
          r := repo.MarkCancelled(id, owner, now);
        } else {
          r := repo.MarkFailure(
            id, owner, code, transient, if at.None? && transient then Some(now + RETRY_DELAY) else at, now);
        }
      case Success(to, None) => r := repo.AdvanceJob(id, owner, to, lease, None, now);
      case Success(to, Some(made)) =>
        r := repo.CommitArtifactAndAdvance(id, owner, to, lease, None, made.0, Sha256(url), made.1, now);
    }
  }

  /** One round of the loop: the stage is executed and its outcome written. */
  method FinishStage(
      repo: Repository, owner: Owner, lease: Time, now: Time, world: World, id: JobId, stage: JobStatus,
        ghost s: System)
    returns (again: bool)
    requires Inv(s) && s.tables == repo.Content() && s.clock <= now
    requires WorkerOf(s, owner).Busy? && WorkerOf(s, owner).job == id && WorkerOf(s, owner).stage == stage
    modifies repo
    ensures CanHappen(s, WorkerFinishes(owner, lease, world), now)
    ensures var n := Next(s, WorkerFinishes(owner, lease, world), now);
      && n.tables == repo.Content() && (again <==> WorkerOf(n, owner).Busy?)
      && (again ==> WorkerOf(n, owner).job == id && id in repo.jobs && WorkerOf(n, owner).stage == repo.jobs[id].status)
  {
    ghost var e := WorkerFinishes(owner, lease, world);
    assert WorkerOk(s, owner);
    assert CanHappen(s, e, now);
    var t := Snapshot(repo);
    var job := repo.jobs[id];
    var o := Handle(t, id, job, stage, world);
    var r := WriteOutcome(repo, id, job.url, owner, lease, o, now);
    assert repo.Content() == Apply(s.tables, ChangeOf(s, e, now), now);
    var u := Snapshot(repo);
    again := r == Written && KeepsGoing(u, id, owner);
    if Owned(s.tables, id, owner, now) {
      FinishEnabled(s, e, now);
    }
  }

  /**
   Claims the next job and drives it until its stages end, pause, park, fail, or the lease is lost. The
   stages left bound the rounds. Afterwards the worker believes in no lease any more.
   */
  method RunWorkerOnce(
      repo: Repository, owner: Owner, lease: Time, times: nat -> Time, worlds: nat -> World, ghost start: System)
    returns (claimed: Option<JobId>, ghost end: System, ghost events: seq<(Event, Time)>)
    requires Inv(start) && start.tables == repo.Content() && WorkerOf(start, owner).Idle?
    requires start.clock <= times(0) && forall k: nat :: times(k) <= times(k + 1)
    modifies repo
    ensures IsTrace(start, events, end) && Inv(end) && end.tables == repo.Content()
    ensures WorkerOf(end, owner).Idle?
    ensures claimed.None? <==> events == []
    ensures claimed.None? ==> forall k :: k in old(repo.jobs) ==> !ClaimableWhere(old(repo.jobs)[k], times(0))
  {
    claimed := repo.ClaimNextJob(owner, lease, times(0));
    end, events := start, [];
    if claimed.None? {
      return;
    }
    var id := claimed.value;
    ghost var claim := WorkerClaims(owner, id, lease);
    EventKeepsInv(start, claim, times(0));
    end, events := Next(start, claim, times(0)), [(claim, times(0))];
    TraceOfOne(start, claim, times(0));
    assert end.tables == repo.Content();
    var stage := repo.jobs[id].status;
    var again, round := true, 0;
    while again
      invariant IsTrace(start, events, end) && Inv(end) && end.tables == repo.Content() && events != []
      invariant end.clock == times(round)
      invariant again <==> WorkerOf(end, owner).Busy?
      invariant again ==> WorkerOf(end, owner).job == id && WorkerOf(end, owner).stage == stage
      decreases if again then 1 + StageRank(stage) else 0
    {
      ghost var before := end;
      var world, now := worlds(round), times(round + 1);
      again := FinishStage(repo, owner, lease, now, world, id, stage, end);
      ghost var finish := WorkerFinishes(owner, lease, world);
      EventKeepsInv(end, finish, now);
      TraceGrows(start, events, end, finish, now);
      end, events := Next(end, finish, now), events + [(finish, now)];
      if again {
        NextStageIsLower(before, finish, now);
        stage := repo.jobs[id].status;
      }
      round := round + 1;
    }
  }

  /** The events lead from one system to another. */
  ghost predicate IsTrace(s: System, events: seq<(Event, Time)>, end: System) {
    IsRun(s, events) && After(s, events) == end
  }

  lemma TraceOfOne(s: System, e: Event, now: Time)
    requires CanHappen(s, e, now)
    ensures IsTrace(s, [(e, now)], Next(s, e, now))
  {
    assert [(e, now)][1..] == [];
  }

  lemma {:induction false} TraceGrows(s: System, events: seq<(Event, Time)>, mid: System, e: Event, now: Time)
    requires IsTrace(s, events, mid) && CanHappen(mid, e, now)
    ensures IsTrace(s, events + [(e, now)], Next(mid, e, now))
    decreases |events|
  {
    if events == [] {
      assert events + [(e, now)] == [(e, now)];
      TraceOfOne(s, e, now);
    } else {
      assert (events + [(e, now)])[1..] == events[1..] + [(e, now)];
      TraceGrows(Next(s, events[0].0, events[0].1), events[1..], mid, e, now);
    }
  }

  /** A worker that goes on does so in a later stage. */
  lemma NextStageIsLower(s: System, e: Event, now: Time)
    requires Inv(s) && CanHappen(s, e, now) && e.WorkerFinishes? && WorkerOf(Next(s, e, now), e.owner).Busy?
    ensures StageRank(WorkerOf(Next(s, e, now), e.owner).stage) < StageRank(WorkerOf(s, e.owner).stage)
  {
    var b := WorkerOf(s, e.owner);
    var c := ChangeOf(s, e, now);
    assert WorkerOk(s, e.owner);
    FinishedBelief(s, e, now);
    EventMoves(s, e, now);
    RowAfter(s.tables, c, now, b.job);
    FinishEnabled(s, e, now);
    OutcomeGoesOn(s.tables, b.job, s.tables.jobs[b.job], b.stage, e.world, e.owner, e.lease, now);
  }

  lemma StagesGoForward(t: Tables, id: JobId, job: Job, stage: JobStatus, w: World)
    requires Running(stage)
    ensures var o := Handle(t, id, job, stage, w);
      o.Success? && Running(o.target) ==> StageRank(o.target) < StageRank(stage)
  {
  }

  lemma OutcomeGoesOn(
      t: Tables, id: JobId, job: Job, stage: JobStatus, w: World, owner: Owner, lease: Time, now: Time)
    requires Running(stage) && job.status == stage
    requires var m := RowMove(AsChange(id, job, owner, lease, Handle(t, id, job, stage, w), now), id);
      Enabled(job, m, now) && Running(Step(job, m, now).status)
    ensures var m := RowMove(AsChange(id, job, owner, lease, Handle(t, id, job, stage, w), now), id);
      StageRank(Step(job, m, now).status) < StageRank(stage)
  {
    StagesGoForward(t, id, job, stage, w);
    WrittenStatus(id, job, owner, lease, Handle(t, id, job, stage, w), now);
  }

  lemma WrittenStatus(id: JobId, job: Job, owner: Owner, lease: Time, o: StageOutcome, now: Time)
    requires var m := RowMove(AsChange(id, job, owner, lease, o, now), id);
      Enabled(job, m, now) && Running(Step(job, m, now).status)
    ensures o.Success? && o.target == Step(job, RowMove(AsChange(id, job, owner, lease, o, now), id), now).status
  {
  }
}
