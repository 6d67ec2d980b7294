/** What holds in every run of the job pipeline, for every interleaving and every crash. */
module JobTheorems {
  import opened Wrappers
  import opened Jobs
  import opened JobTables
  import opened StageHandlers
  import opened JobRuns

  type Run = seq<(Event, Time)>

  lemma {:induction false} RunKeepsInv(s: System, run: Run)
    requires Inv(s) && IsRun(s, run)
    ensures Inv(After(s, run))
    decreases |run|
  {
    if run != [] {
      EventKeepsInv(s, run[0].0, run[0].1);
      RunKeepsInv(Next(s, run[0].0, run[0].1), run[1..]);
    }
  }

  lemma Reachable(run: Run)
    requires IsRun(START, run)
    ensures Inv(After(START, run))
  {
    RunKeepsInv(START, run);
  }

  // ----- leases

  /** In every run, at most one worker believes in an unexpired lease on a job. */
  lemma NoTwoLiveLeases(run: Run, o: Owner, p: Owner, id: JobId)
    requires IsRun(START, run) && o != p
    ensures !(Believes(After(START, run), o, id) && Believes(After(START, run), p, id))
  {
    Reachable(run);
  }

  /** The worker whose claim of the job came last in the run. */
  function LatestClaimer(run: Run, id: JobId): Option<Owner> {
    if run == [] then None
    else
      var later := LatestClaimer(run[1..], id);
      if later.None? && run[0].0.WorkerClaims? && run[0].0.id == id then Some(run[0].0.owner) else later
  }

  lemma {:induction false} LastClaimIsRecorded(s: System, run: Run, id: JobId)
    requires IsRun(s, run)
    ensures LatestClaimer(run, id).Some? ==>
              id in After(s, run).lastClaim && Some(After(s, run).lastClaim[id]) == LatestClaimer(run, id)
    ensures LatestClaimer(run, id).None? ==>
              (id in After(s, run).lastClaim <==> id in s.lastClaim) &&
              (id in s.lastClaim ==> After(s, run).lastClaim[id] == s.lastClaim[id])
    decreases |run|
  {
    if run != [] {
      LastClaimIsRecorded(Next(s, run[0].0, run[0].1), run[1..], id);
    }
  }

  /** Events in which a worker writes the row or the artifacts of the job it works on. */
  predicate WorkerWrites(e: Event) {
    e.WorkerRenews? || e.WorkerPins? || e.WorkerCheckpoints? || e.WorkerFinishes?
  }

  /**
   Every write a worker gets through, be it an advance, a failure, a cancellation, a checkpoint,
   a route pin or a renewal, is made by the owner of that job's latest claim.
   */
  lemma WritesComeFromTheLatestClaimer(run: Run, e: Event, now: Time)
    requires IsRun(START, run) && CanHappen(After(START, run), e, now) && WorkerWrites(e)
    requires Next(After(START, run), e, now).tables != After(START, run).tables
    ensures LatestClaimer(run, WorkerOf(After(START, run), e.owner).job) == Some(e.owner)
  {
    var s := After(START, run);
    var id := WorkerOf(s, e.owner).job;
    Reachable(run);
    if !Owned(s.tables, id, e.owner, now) {
      UnownedWritesFail(s, e, now);
      assert false;
    }
    LastClaimIsRecorded(START, run, id);
  }

  lemma UnownedWritesFail(s: System, e: Event, now: Time)
    requires CanHappen(s, e, now) && WorkerWrites(e) && !Owned(s.tables, WorkerOf(s, e.owner).job, e.owner, now)
    ensures Next(s, e, now).tables == s.tables
  {
    var t, b := s.tables, WorkerOf(s, e.owner);
    if e.WorkerFinishes? {
      FinishIsOwn(t, b.job, t.jobs[b.job], b.stage, e.world, e.owner, e.lease, now);
    }
    assert b.job in t.jobs ==> t.jobs[b.job := t.jobs[b.job]] == t.jobs;
  }

  // ----- statuses

  /** Every status change is an edge of the table or a running stage cancelled; a finished row is frozen. */
  lemma StatusLaw(run: Run, e: Event, now: Time, id: JobId)
    requires IsRun(START, run) && CanHappen(After(START, run), e, now)
    requires id in After(START, run).tables.jobs
    ensures var j := After(START, run).tables.jobs[id];
            var n := Next(After(START, run), e, now).tables.jobs;
            && id in n
            && LegalChange(j.status, n[id].status)
            && (Terminal(j.status) ==> n[id] == j && j.leaseOwner.None? && j.leaseExpiresAt.None?)
  {
    var s := After(START, run);
    Reachable(run);
    EventMoves(s, e, now);
    RowAfter(s.tables, ChangeOf(s, e, now), now, id);
    MoveIsLegal(s.tables.jobs[id], RowMove(ChangeOf(s, e, now), id), now);
  }

  /** Two unfinished jobs never answer the same request. */
  lemma OneUnfinishedJobPerRequest(run: Run, j: JobId, k: JobId)
    requires IsRun(START, run)
    requires var jobs := After(START, run).tables.jobs;
             j in jobs && k in jobs && BothActive(jobs[j], jobs[k])
    ensures j == k
  {
    Reachable(run);
  }

  // ----- bounded work

  /** How often the job's status or owner changes along the run. */
  ghost function ChangesIn(s: System, run: Run, id: JobId): nat
    requires IsRun(s, run)
    decreases |run|
  {
    if run == [] then 0
    else
      var n := Next(s, run[0].0, run[0].1);
      (if id in s.tables.jobs && id in n.tables.jobs && Changes(s.tables.jobs[id], n.tables.jobs[id]) then 1 else 0)
      + ChangesIn(n, run[1..], id)
  }

  /** What a row may still spend; a job not submitted yet has a fresh row's budget. */
  ghost function BudgetOf(s: System, id: JobId): nat {
    if id in s.tables.jobs then Budget(s.tables.jobs[id]) else 37
  }

  lemma EventSpends(s: System, e: Event, now: Time, id: JobId)
    requires Inv(s) && CanHappen(s, e, now)
    ensures var n := Next(s, e, now);
            BudgetOf(n, id) +
            (if id in s.tables.jobs && id in n.tables.jobs && Changes(s.tables.jobs[id], n.tables.jobs[id]) then 1
              else 0)
            <= BudgetOf(s, id)
  {
    EventMoves(s, e, now);
    var c := ChangeOf(s, e, now);
    NewRows(s.tables, c, now);
    if id in s.tables.jobs {
      RowAfter(s.tables, c, now, id);
      BudgetFalls(s.tables.jobs[id], RowMove(c, id), now);
    } else if c.Insert? && c.id == id {
      assert Budget(c.row) == 37;
    }
  }

  lemma {:induction false} RunSpends(s: System, run: Run, id: JobId)
    requires Inv(s) && IsRun(s, run)
    ensures ChangesIn(s, run, id) + BudgetOf(After(s, run), id) <= BudgetOf(s, id)
    decreases |run|
  {
    if run != [] {
      EventSpends(s, run[0].0, run[0].1, id);
      EventKeepsInv(s, run[0].0, run[0].1);
      RunSpends(Next(s, run[0].0, run[0].1), run[1..], id);
    }
  }

  /** No job changes status or owner more than 37 times, however often it is retried, parked or taken over. */
  lemma BoundedChanges(run: Run, id: JobId)
    requires IsRun(START, run)
    ensures ChangesIn(START, run, id) <= 37
  {
    RunSpends(START, run, id);
  }

  // ----- artifacts and retries

  /** No worker, even one whose lease is long gone, ever meets a missing artifact. */
  lemma ArtifactsAreNeverMissing(run: Run, o: Owner, w: World)
    requires IsRun(START, run) && WorkerOf(After(START, run), o).Busy?
    ensures var s, b := After(START, run), WorkerOf(After(START, run), o);
            b.job in s.tables.jobs && Handle(s.tables, b.job, s.tables.jobs[b.job], b.stage, w) != MissingArtifact
  {
    var s, b := After(START, run), WorkerOf(After(START, run), o);
    Reachable(run);
    assert WorkerOk(s, o);
    PreparedStagesLoad(s.tables, b.job, s.tables.jobs[b.job], b.stage, w);
  }

  /** A completed job has left its metadata, transcripts, chunks, summaries and report behind. */
  lemma CompletedJobsHaveEverything(run: Run, id: JobId, kind: ArtifactKind)
    requires IsRun(START, run) && id in After(START, run).tables.jobs
    requires After(START, run).tables.jobs[id].status == Completed && kind in Produced(Completed)
    ensures Has(After(START, run).tables, id, After(START, run).tables.jobs[id], kind)
  {
    Reachable(run);
    assert Prepared(After(START, run).tables, id, After(START, run).tables.jobs[id], Completed);
  }

  /** The last stage the job was running in along the run. */
  ghost function LastStage(s: System, run: Run, id: JobId): Option<JobStatus>
    requires IsRun(s, run)
    decreases |run|
  {
    var here := if id in s.tables.jobs && Running(s.tables.jobs[id].status) then Some(s.tables.jobs[id].status)
      else None;
    if run == [] then here
    else
      var later := LastStage(Next(s, run[0].0, run[0].1), run[1..], id);
      if later.Some? then later else here
  }

  /** The stage column changes exactly when a stage is entered. */
  lemma StageColumn(j: Job, m: Move, now: Time)
    requires RowOk(j) && PipelineMove(m)
    ensures var k := Step(j, m, now);
            k.stage == if Running(k.status) then Some(k.status) else j.stage
  {
  }

  ghost function StageAt(s: System, id: JobId): Option<JobStatus> {
    if id in s.tables.jobs then s.tables.jobs[id].stage else None
  }

  lemma EventStageColumn(s: System, e: Event, now: Time, id: JobId)
    requires Inv(s) && CanHappen(s, e, now)
    ensures var n := Next(s, e, now);
            StageAt(n, id) == if id in n.tables.jobs && Running(n.tables.jobs[id].status)
                              then Some(n.tables.jobs[id].status) else StageAt(s, id)
  {
    var c := ChangeOf(s, e, now);
    EventMoves(s, e, now);
    NewRows(s.tables, c, now);
    if id in s.tables.jobs {
      RowAfter(s.tables, c, now, id);
      StageColumn(s.tables.jobs[id], RowMove(c, id), now);
    }
  }

  /** The stage column holds the last stage the job ran in. */
  lemma {:induction false} StageColumnRemembers(s: System, run: Run, id: JobId)
    requires Inv(s) && IsRun(s, run)
    ensures StageAt(After(s, run), id) ==
              if LastStage(s, run, id).Some? then LastStage(s, run, id) else StageAt(s, id)
    decreases |run|
  {
    if run == [] {
      assert id in s.tables.jobs ==> RowOk(s.tables.jobs[id]);
    } else {
      var n := Next(s, run[0].0, run[0].1);
      EventKeepsInv(s, run[0].0, run[0].1);
      EventStageColumn(s, run[0].0, run[0].1, id);
      StageColumnRemembers(n, run[1..], id);
      RunningJobsHaveAStage(s, id);
    }
  }

  lemma RunningJobsHaveAStage(s: System, id: JobId)
    requires Inv(s)
    ensures id in s.tables.jobs && Running(s.tables.jobs[id].status) ==>
      StageAt(s, id) == Some(s.tables.jobs[id].status)
  {
    assert id in s.tables.jobs ==> RowOk(s.tables.jobs[id]);
  }

  /** A claimed retry re-enters exactly the stage the job last ran in. */
  lemma RetryReentersTheStageThatPaused(run: Run, id: JobId, owner: Owner, lease: Time, now: Time)
    requires IsRun(START, run) && id in After(START, run).tables.jobs
    requires After(START, run).tables.jobs[id].status == RetryWait
    requires ClaimableWhere(After(START, run).tables.jobs[id], now)
    ensures LastStage(START, run, id).Some?
    ensures Moved(After(START, run).tables.jobs[id], Claim(owner, lease), now).status == LastStage(START, run, id).value
  {
    Reachable(run);
    StageColumnRemembers(START, run, id);
    assert RowOk(After(START, run).tables.jobs[id]);
  }

  // ----- cancellation and recovery

  /** No parked job carries a cancel flag, so a model install never revives a job the user cancelled. */
  lemma ParkedJobsAreNotCancelled(run: Run, id: JobId, model: string, now: Time)
    requires IsRun(START, run) && id in After(START, run).tables.jobs
    requires After(START, run).tables.jobs[id].status == WaitingForModel
    ensures Step(After(START, run).tables.jobs[id], Resume(model), now).cancelRequestedAt.None?
    ensures Step(After(START, run).tables.jobs[id], LandDangling, now) == After(START, run).tables.jobs[id]
  {
    Reachable(run);
    assert RowOk(After(START, run).tables.jobs[id]);
  }

  /** After any run and any crash, startup recovery leaves every job settled. */
  lemma RecoverySettlesEveryJob(run: Run, id: JobId, now: Time)
    requires IsRun(START, run) && id in After(START, run).tables.jobs
    ensures Settled(Recovered(After(START, run).tables.jobs[id], now), now)
  {
    Reachable(run);
    ReachableRowsAreNotStranded(After(START, run).tables.jobs[id]);
    RecoveryLeavesNoZombie(After(START, run).tables.jobs[id], now);
  }
}
