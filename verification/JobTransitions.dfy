/**
 How the job transition table is filled (jobs/transitions.py). The finished table is the relation
 `Jobs.IsEdge`, which every guarded move of a row consults.
 */
module JobTransitions {
  import opened Jobs

  type Table = map<JobStatus, set<JobStatus>>

  const STATES: set<JobStatus> := set s: JobStatus | true
  const RUNNING_STATES: set<JobStatus> := STATES - {Completed, Failed, Cancelled} - {Queued, RetryWait, WaitingForModel}

  const LINEAR_CHAIN: seq<(JobStatus, JobStatus)> := [
    (Queued, FetchingMetadata),
    (FetchingMetadata, FetchingSubtitles),
    (FetchingSubtitles, DownloadingAudio),
    (FetchingSubtitles, CleaningTranscript),
    (DownloadingAudio, Transcribing),
    (Transcribing, WaitingForModel),
    (WaitingForModel, Transcribing),
    (Transcribing, CleaningTranscript),
    (CleaningTranscript, Chunking),
    (Chunking, SummarizingChunks),
    (SummarizingChunks, GeneratingReport),
    (GeneratingReport, Indexing),
    (Indexing, Completed)]

  /** Every status has an entry. */
  ghost predicate Total(allowed: Table) { forall s: JobStatus :: s in allowed }

  /** One entry per status; then the edges of the chain, one by one. */
  method FillEdges(chain: seq<(JobStatus, JobStatus)>) returns (allowed: Table)
    ensures Total(allowed)
    ensures forall src, dst :: dst in allowed[src] <==> (src, dst) in chain
  {
    allowed := map s: JobStatus | s in STATES :: {};
    for k := 0 to |chain|
      invariant Total(allowed)
      invariant forall src, dst :: dst in allowed[src] <==> (src, dst) in chain[..k]
    {
      var (from, to) := chain[k];
      assert chain[..k + 1] == chain[..k] + [(from, to)];
      allowed := allowed[from := allowed[from] + {to}];
    }
    assert chain[..|chain|] == chain;
  }

  method ChainEdges() returns (allowed: Table)
    ensures Total(allowed)
    ensures forall src, dst :: dst in allowed[src] <==> InChain(src, dst)
  {
    allowed := FillEdges(LINEAR_CHAIN);
    forall src, dst ensures dst in allowed[src] <==> InChain(src, dst) {
      ChainEntry(src, dst);
    }
  }

  /** Every running stage may pause or fail. */
  method AddPauses(chain: Table) returns (allowed: Table)
    requires Total(chain)
    ensures Total(allowed)
    ensures forall src, dst :: dst in allowed[src] <==>
              dst in chain[src] || (Running(src) && dst in {RetryWait, Failed})
  {
    allowed := chain;
    var left := RUNNING_STATES;
    while left != {}
      invariant left <= RUNNING_STATES
      invariant Total(allowed)
      invariant forall src, dst :: dst in allowed[src] <==>
                  dst in chain[src] || (src in RUNNING_STATES - left && dst in {RetryWait, Failed})
    {
      var state :| state in left;
      allowed := allowed[state := allowed[state] + {RetryWait, Failed}];
      left := left - {state};
    }
  }

  /** What is particular to a job that is queued, parked or paused. */
  method AddExits(paused: Table) returns (allowed: Table)
    requires Total(paused)
    ensures Total(allowed)
    ensures forall s | s !in {Queued, WaitingForModel, RetryWait} :: allowed[s] == paused[s]
    ensures allowed[Queued] == paused[Queued] + {Failed, Cancelled}
    ensures allowed[WaitingForModel] == paused[WaitingForModel] + {Transcribing, Failed, Cancelled}
    ensures forall dst :: dst in allowed[RetryWait] <==> Running(dst) || dst in {Failed, Cancelled}
  {
    allowed := paused[Queued := paused[Queued] + {Failed, Cancelled}];
    allowed := allowed[WaitingForModel := allowed[WaitingForModel] + {Transcribing, Failed, Cancelled}];
    allowed := allowed[RetryWait := RUNNING_STATES + {Failed, Cancelled}];
  }

  method BuildAllowed() returns (allowed: Table)
    ensures Total(allowed)
    ensures forall src, dst :: dst in allowed[src] <==> IsEdge(src, dst)
  {
    allowed := ChainEdges();
    allowed := AddPauses(allowed);
    allowed := AddExits(allowed);
  }

  /** The pairs written down in the chain are the ones a job can follow. */
  lemma ChainEntry(src: JobStatus, dst: JobStatus)
    ensures (src, dst) in LINEAR_CHAIN <==> InChain(src, dst)
  {
    assert forall k :: 0 <= k < |LINEAR_CHAIN| ==> InChain(LINEAR_CHAIN[k].0, LINEAR_CHAIN[k].1);
    if InChain(src, dst) {
      var k := match src
        case Queued => 0
        case FetchingMetadata => 1
        case FetchingSubtitles => if dst == DownloadingAudio then 2 else 3
        case DownloadingAudio => 4
        case Transcribing => if dst == WaitingForModel then 5 else 7
        case WaitingForModel => 6
        case CleaningTranscript => 8
        case Chunking => 9
        case SummarizingChunks => 10
        case GeneratingReport => 11
        case _ => 12;
      assert LINEAR_CHAIN[k] == (src, dst);
    }
  }

  /** A job can always be failed or paused until it ends, and only an ended job has nowhere to go. */
  lemma TerminalMeansStuck(s: JobStatus)
    ensures Terminal(s) <==> forall d :: !IsEdge(s, d)
    ensures Running(s) <==> IsEdge(s, RetryWait)
    ensures !Terminal(s) <==> IsEdge(s, Failed)
  {
    assert !Terminal(s) ==> IsEdge(s, Failed);
  }
}
