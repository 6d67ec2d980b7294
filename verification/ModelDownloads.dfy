/**
 Download operations of a model (storage/model_download.py and the download half of
 storage/repository.py): the status table and the guarded writes of one operation row.
 */
module ModelDownloads {
  import opened Wrappers

  datatype Status = Pending | Downloading | Verifying | Installing | Completed | Failed | Cancelled

  const TERMINAL: set<Status> := {Completed, Failed, Cancelled}
  const ACTIVE: set<Status> := {Pending, Downloading, Verifying, Installing}

  /** The linear chain; every active operation may also fail or be cancelled. */
  predicate Allowed(src: Status, dst: Status) {
    match src
    case Pending => dst in {Downloading, Failed, Cancelled}
    case Downloading => dst in {Verifying, Failed, Cancelled}
    case Verifying => dst in {Installing, Failed, Cancelled}
    case Installing => dst in {Completed, Failed, Cancelled}
    case _ => false
  }

  const CHAIN: seq<(Status, Status)> := [
    (Pending, Downloading), (Downloading, Verifying), (Verifying, Installing), (Installing, Completed)]

  const ABORTABLE: seq<Status> := [Pending, Downloading, Verifying, Installing]

  const NO_EDGES: map<Status, set<Status>> := map[
    Pending := {}, Downloading := {}, Verifying := {}, Installing := {}, Completed := {}, Failed := {}, Cancelled := {}]

  /** The table is filled edge by edge: the chain first, then the two ways out of every active status. */
  method BuildAllowed() returns (allowed: map<Status, set<Status>>)
    ensures forall src, dst :: src in allowed && (dst in allowed[src] <==> Allowed(src, dst))
  {
    allowed := NO_EDGES;
    EveryStatus();
    for k := 0 to |CHAIN|
      invariant forall s: Status :: s in allowed
      invariant forall s, d :: d in allowed[s] <==> ChainUpTo(k, s, d)
    {
      var (src, dst) := CHAIN[k];
      allowed := allowed[src := allowed[src] + {dst}];
    }
    for k := 0 to |ABORTABLE|
      invariant forall s: Status :: s in allowed
      invariant forall s, d :: d in allowed[s] <==> InTable(k, s, d)
    {
      var status := ABORTABLE[k];
      allowed := allowed[status := allowed[status] + {Failed, Cancelled}];
    }
    forall s, d ensures Allowed(s, d) <==> InTable(|ABORTABLE|, s, d) {
      TableEntry(s, d);
    }
  }

  predicate ChainUpTo(k: nat, src: Status, dst: Status)
    requires k <= |CHAIN|
  {
    k > 0 && (CHAIN[k - 1] == (src, dst) || ChainUpTo(k - 1, src, dst))
  }

  predicate AbortUpTo(k: nat, status: Status)
    requires k <= |ABORTABLE|
  {
    k > 0 && (ABORTABLE[k - 1] == status || AbortUpTo(k - 1, status))
  }

  predicate InTable(k: nat, src: Status, dst: Status)
    requires k <= |ABORTABLE|
  {
    ChainUpTo(|CHAIN|, src, dst) || (AbortUpTo(k, src) && dst in {Failed, Cancelled})
  }

  lemma EveryStatus()
    ensures forall s: Status :: s in NO_EDGES && NO_EDGES[s] == {}
  {
    forall s: Status ensures s in NO_EDGES && NO_EDGES[s] == {} {
      match s {
        case Pending => assert Pending in NO_EDGES;
        case Downloading => assert Downloading in NO_EDGES;
        case Verifying => assert Verifying in NO_EDGES;
        case Installing => assert Installing in NO_EDGES;
        case Completed => assert Completed in NO_EDGES;
        case Failed => assert Failed in NO_EDGES;
        case Cancelled => assert Cancelled in NO_EDGES;
      }
    }
  }

  lemma TableEntry(s: Status, d: Status)
    ensures Allowed(s, d) <==> InTable(|ABORTABLE|, s, d)
  {
    assert AbortUpTo(4, s) <==> ABORTABLE[3] == s || AbortUpTo(3, s);
    assert AbortUpTo(3, s) <==> ABORTABLE[2] == s || AbortUpTo(2, s);
    assert AbortUpTo(2, s) <==> ABORTABLE[1] == s || ABORTABLE[0] == s;
    assert ChainUpTo(4, s, d) <==> CHAIN[3] == (s, d) || ChainUpTo(3, s, d);
    assert ChainUpTo(3, s, d) <==> CHAIN[2] == (s, d) || ChainUpTo(2, s, d);
    assert ChainUpTo(2, s, d) <==> CHAIN[1] == (s, d) || CHAIN[0] == (s, d);
  }

  /** Terminal statuses are never left, and every other status can end in failure or cancellation. */
  lemma TerminalMeansStuck(s: Status)
    ensures s in TERMINAL <==> forall d :: !Allowed(s, d)
    ensures s in ACTIVE <==> Allowed(s, Failed) && Allowed(s, Cancelled)
  {
    assert s in ACTIVE ==> Allowed(s, Failed);
  }

  // ----- the operation row

  datatype ErrorCode =
    | DownloadFailed | InvalidContentRange | ResponseTooLarge | SizeMismatch | DigestMismatch
    | ArchiveInvalid | InstallConflict | CancelledByUser | InternalError

  datatype Operation = Operation(
    status: Status, bytes: int, expectedSize: nat, etag: Option<string>, lastModified: Option<string>,
    source: nat, revision: nat, error: Option<ErrorCode>)

  datatype Refusal = IllegalTransition | NotComplete | NotDownloading | MustNotDecrease | OutOfRange | NotRestartable

  function Newer(old_: Option<string>, new_: Option<string>): Option<string> { if new_.Some? then new_ else old_ }

  function ProgressRefusal(op: Operation, n: int): Option<Refusal> {
    if op.status != Downloading then Some(NotDownloading)
    else if n < op.bytes then Some(MustNotDecrease)
    else if !(0 <= n <= op.expectedSize) then Some(OutOfRange)
    else None
  }

  function Progressed(op: Operation, n: int, etag: Option<string>, lastModified: Option<string>): Operation {
    op.(bytes := n, etag := Newer(op.etag, etag), lastModified := Newer(op.lastModified, lastModified),
      revision := op.revision + 1)
  }

  function AdvanceRefusal(op: Operation, to: Status): Option<Refusal> {
    if !Allowed(op.status, to) then Some(IllegalTransition)
    else if to == Verifying && op.bytes != op.expectedSize then Some(NotComplete)
    else None
  }

  function Advanced(op: Operation, to: Status, error: Option<ErrorCode>): Operation {
    op.(status := to, error := if error.Some? then error else op.error, revision := op.revision + 1)
  }

  predicate Restartable(op: Operation) { op.status in {Pending, Downloading} }

  function Restarted(op: Operation): Operation {
    op.(bytes := 0, etag := None, lastModified := None, revision := op.revision + 1)
  }

  function Switched(op: Operation, source: nat): Operation {
    op.(source := source, bytes := 0, etag := None, lastModified := None, revision := op.revision + 1)
  }
}
