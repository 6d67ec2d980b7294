/**
 The resumable install of a single-archive model (asr/installer.py, asr/model_manager.py): a partial file
 on disk and a persisted byte count, reconciled after any crash and driven to a verified archive.
 */
module ModelInstall {
  import opened Wrappers
  import opened ModelDownloads

  type Bytes = string

  /** How far the persisted count may lag behind the file during a transfer. */
  const PROGRESS_INTERVAL := 4 * 1024 * 1024

  function Content(file: Option<Bytes>): Bytes { if file.Some? then file.value else "" }

  function Size(file: Option<Bytes>): nat { |Content(file)| }

  /** What survives a crash: the operation row and the file. */
  datatype Persisted = Persisted(op: Operation, file: Option<Bytes>)

  /**
   During a transfer the count is at most the bytes written, and these at most the expected size. Written
   bytes may still sit in a buffer when the process dies; what a file that lost its tail comes to is the
   subject of `CrashResumesOrRestarts`.
   */
  predicate Safe(p: Persisted) {
    p.op.status == Downloading && 0 <= p.op.bytes <= Size(p.file) <= p.op.expectedSize
  }

  // ----- reconciliation

  /** The file is trusted when it is not behind the count and not larger than the archive. */
  predicate Trusted(p: Persisted) { p.op.bytes <= Size(p.file) <= p.op.expectedSize }

  function Reconciled(p: Persisted): Persisted {
    var actual := Size(p.file);
    if actual > p.op.expectedSize then Persisted(Restarted(p.op), None)
    else if actual > p.op.bytes then Persisted(Progressed(p.op, actual, None, None), p.file)
    else if actual < p.op.bytes then Persisted(Restarted(p.op), None)
    else p
  }

  /** From any state a crash can leave, the count equals the size of the file; a trusted file is kept. */
  lemma ReconciliationIsExact(p: Persisted)
    requires p.op.status == Downloading
    ensures var r := Reconciled(p);
      && r.op.bytes == Size(r.file) && Safe(r) && r.op.expectedSize == p.op.expectedSize
      && (Trusted(p) ==> r.file == p.file)
      && (!Trusted(p) ==> r.file == None)
  {
  }

  /**
   A crash in a transfer that loses an unflushed tail of the file: what is left is resumed from exactly
   when the loss did not reach below the persisted count, and otherwise the download starts over.
   */
  lemma CrashResumesOrRestarts(p: Persisted, left: nat)
    requires Safe(p) && left <= Size(p.file)
    ensures var r := Reconciled(Persisted(p.op, Some(Content(p.file)[..left])));
      && Safe(r) && r.op.bytes == Size(r.file)
      && (r.file == Some(Content(p.file)[..left]) <==> p.op.bytes <= left)
      && (r.file == None <==> left < p.op.bytes)
  {
    assert |Content(p.file)[..left]| == left;
  }

  /** While the count is safe, no count of bytes on disk is refused as a decrease or as out of range. */
  lemma SafeProgressIsAccepted(p: Persisted, n: int)
    requires p.op.status == Downloading && 0 <= p.op.bytes
    ensures Safe(Persisted(p.op, p.file)) && n == Size(p.file) ==> ProgressRefusal(p.op, n) == None
    ensures ProgressRefusal(p.op, n) == None <==> p.op.bytes <= n <= p.op.expectedSize
  {
  }

  // ----- a response

  /** The Content-Range header of a partial response, as far as it is looked at. */
  datatype ContentRange = Malformed | UnknownTotal(start: nat) | Range(start: nat, total: nat)

  /** A body arrives in chunks and may break off. */
  datatype Body = Body(chunks: seq<Bytes>, broken: bool)

  datatype Validators = Validators(etag: Option<string>, lastModified: Option<string>)

  datatype Response =
    | NoResponse
    | OtherStatus
    | PartialContent(range: Option<ContentRange>, validators: Validators, body: Body)
    | FullContent(validators: Validators, body: Body)

  /** A 206 must resume exactly where the file ends, in a resource of the expected size. */
  predicate RangeOk(range: Option<ContentRange>, start: nat, total: nat) { range == Some(Range(start, total)) }

  function Joined(chunks: seq<Bytes>): Bytes {
    if chunks == [] then "" else Joined(chunks[..|chunks| - 1]) + chunks[|chunks| - 1]
  }

  /** What a server sends of `resource` when asked for it from `start` on; it honours If-Range. */
  predicate Serves(response: Response, resource: Bytes, start: nat) {
    match response
    case PartialContent(_, _, body) => start <= |resource| && Joined(body.chunks) <= resource[start..]
    case FullContent(_, body) => Joined(body.chunks) <= resource
    case _ => true
  }

  /** The response delivers all the rest. */
  predicate Delivers(response: Response, resource: Bytes, start: nat) {
    match response
    case PartialContent(range, _, body) =>
      && start <= |resource| && RangeOk(range, start, |resource|)
      && Joined(body.chunks) == resource[start..] && !body.broken
    case FullContent(_, body) => Joined(body.chunks) == resource && !body.broken
    case _ => start == |resource|
  }

  /** What the file holds once the body is appended, or written from zero when the Range was ignored. */
  function Received(file: Option<Bytes>, response: Response): Bytes {
    match response
    case PartialContent(_, _, body) => Content(file) + Joined(body.chunks)
    case FullContent(_, body) => Joined(body.chunks)
    case _ => Content(file)
  }

  /** The response completes the file that is there, if any: all that one transfer has to be given. */
  predicate Completes(file: Option<Bytes>, response: Response, size: nat, digest: Digest) {
    if Size(file) == size then file.Some? && Sha256(file.value) == digest
    else
      && |Received(file, response)| == size && Sha256(Received(file, response)) == digest
      && match response
         case PartialContent(range, _, body) => file.Some? && RangeOk(range, Size(file), size) && !body.broken
         case FullContent(_, body) => !body.broken
         case _ => false
  }

  /** A file that is not there is asked for: an archive of no bytes, or a 206 nobody asked for. */
  predicate Strands(file: Option<Bytes>, response: Response, size: nat) {
    file.None? && (size == 0 || (response.PartialContent? && RangeOk(response.range, 0, size)))
  }

  /** A server that delivers all the rest completes the file, and one that sends everything any file. */
  lemma DeliveryCompletes(file: Option<Bytes>, response: Response, resource: Bytes, size: nat, digest: Digest)
    requires |resource| == size && Sha256(resource) == digest
    requires file.Some? ==> file.value <= resource && Delivers(response, resource, |file.value|)
    requires file.None? ==> size > 0 && response.FullContent? && Delivers(response, resource, 0)
    ensures Completes(file, response, size, digest)
  {
    if file.Some? {
      assert resource == file.value + resource[|file.value|..];
    }
  }

  lemma PrefixExtends(a: Bytes, b: Bytes, whole: Bytes)
    requires a <= whole && b <= whole[|a|..]
    ensures a + b <= whole
  {
    assert whole == a + whole[|a|..];
  }

  // ----- one transfer

  datatype Transfer =
    | Downloaded(validators: Validators)
    | Rejected(code: ErrorCode)
    | HttpError
    | Interrupted
    | MissingFile

  /** Every state written since `before` was safe for a crash. */
  ghost predicate SafeSince(before: seq<Persisted>, log: seq<Persisted>) {
    before <= log && forall i :: |before| <= i < |log| ==> Safe(log[i])
  }

  /** Every state written since `before` was safe for a crash, or has lost its file to the next source. */
  ghost predicate SafeOrEmptySince(before: seq<Persisted>, log: seq<Persisted>) {
    before <= log && forall i :: |before| <= i < |log| ==> Safe(log[i]) || log[i].file == None
  }

  predicate WholeFile(file: Option<Bytes>, size: nat, digest: Digest) {
    file.Some? && |file.value| == size && Sha256(file.value) == digest
  }

  /** Since `before`, every status past the download was entered over the whole file only. */
  ghost predicate VerifiedSince(before: seq<Persisted>, entered: seq<Persisted>, size: nat, digest: Digest) {
    && before <= entered
    && forall i | |before| <= i < |entered| ::
         entered[i].op.status in {Verifying, Installing, Completed} ==> WholeFile(entered[i].file, size, digest)
  }

  /** The answer of one source, and when the user cancels, by bytes received. */
  datatype Attempt = Attempt(response: Response, cancel: nat -> bool)

  /** The first source finds what is on disk, every later one nothing. */
  function FileAt(file: Option<Bytes>, k: nat): Option<Bytes> { if k == 0 then file else None }

  /** Source `k` completes the file, and the sources before it fail in a way that lets the next one try. */
  predicate SucceedsAt(attempts: seq<Attempt>, file: Option<Bytes>, size: nat, digest: Digest, k: nat) {
    && k < |attempts| && Completes(FileAt(file, k), attempts[k].response, size, digest)
    && forall j: nat | j < k :: FailsOver(attempts, file, size, digest, j)
  }

  /** Source `j` fails, and in a way that lets the next one try. */
  predicate FailsOver(attempts: seq<Attempt>, file: Option<Bytes>, size: nat, digest: Digest, j: nat)
    requires j < |attempts|
  {
    && !Completes(FileAt(file, j), attempts[j].response, size, digest)
    && !Strands(FileAt(file, j), attempts[j].response, size)
  }

  ghost predicate Succeeds(attempts: seq<Attempt>, file: Option<Bytes>, size: nat, digest: Digest) {
    exists k: nat :: SucceedsAt(attempts, file, size, digest, k)
  }

  /** Nobody cancels, whichever source answers and however far it gets. */
  ghost predicate Uncancelled(attempts: seq<Attempt>) {
    forall k, n | 0 <= k < |attempts| :: !attempts[k].cancel(n)
  }

  /** What is there is a prefix of the resource, and every source sends that resource from where it is asked. */
  ghost predicate AllServe(attempts: seq<Attempt>, file: Option<Bytes>, resource: Bytes) {
    && Content(file) <= resource
    && forall k: nat | k < |attempts| :: Serves(attempts[k].response, resource, Size(FileAt(file, k)))
  }

  /** After failed sources one that serves the whole archive with a 200 is enough, partial file or none. */
  lemma AnyFullSourceSuffices(
      attempts: seq<Attempt>, file: Option<Bytes>, size: nat, digest: Digest, resource: Bytes, k: nat)
    requires k < |attempts| && size > 0 && |resource| == size && Sha256(resource) == digest
    requires Size(file) != size || k > 0
    requires attempts[k].response.FullContent? && Delivers(attempts[k].response, resource, 0)
    requires forall j: nat | j < k :: !Strands(FileAt(file, j), attempts[j].response, size)
    ensures Succeeds(attempts, file, size, digest)
  {
    if forall j: nat | j < k :: !Completes(FileAt(file, j), attempts[j].response, size, digest) {
      assert SucceedsAt(attempts, file, size, digest, k);
    } else {
      var j: nat :| j < k && Completes(FileAt(file, j), attempts[j].response, size, digest);
      FirstCompletes(attempts, file, size, digest, j);
    }
  }

  /** The first source that completes the file is the one that succeeds, unless one before it strands. */
  lemma {:induction false} FirstCompletes(
      attempts: seq<Attempt>, file: Option<Bytes>, size: nat, digest: Digest, k: nat)
    requires k < |attempts| && Completes(FileAt(file, k), attempts[k].response, size, digest)
    requires forall j: nat | j < k :: !Strands(FileAt(file, j), attempts[j].response, size)
    ensures Succeeds(attempts, file, size, digest)
  {
    if forall j: nat | j < k :: !Completes(FileAt(file, j), attempts[j].response, size, digest) {
      assert SucceedsAt(attempts, file, size, digest, k);
    } else {
      var j: nat :| j < k && Completes(FileAt(file, j), attempts[j].response, size, digest);
      FirstCompletes(attempts, file, size, digest, j);
    }
  }

  /** A first install whose first source answers with a 206 from zero never gets to its other sources. */
  lemma UnsolicitedPartialEndsIt(
      attempts: seq<Attempt>, size: nat, digest: Digest, validators: Validators, body: Body)
    requires size > 0 && attempts != []
    requires attempts[0].response == PartialContent(Some(Range(0, size)), validators, body)
    ensures !Succeeds(attempts, None, size, digest)
  {
    assert Strands(FileAt(None, 0), attempts[0].response, size);
    LastSourceDecides(attempts, None, size, digest, 0);
  }

  /** One transfer ends as the response and the file it found decide, or with a cancel. */
  ghost predicate EndsAs(r: Transfer, attempt: Attempt, file: Option<Bytes>, size: nat, digest: Digest) {
    && (r.MissingFile? <==> Strands(file, attempt.response, size))
    && (!r.Interrupted? ==> (r.Downloaded? <==> Completes(file, attempt.response, size, digest)))
    && (r.Interrupted? ==> exists n :: attempt.cancel(n))
  }

  /** The sources before `index` have failed over, and the one at `index` has ended with `r`. */
  ghost predicate Tried(
      attempts: seq<Attempt>, file: Option<Bytes>, size: nat, digest: Digest, index: nat, r: Transfer)
  {
    && index < |attempts| && EndsAs(r, attempts[index], FileAt(file, index), size, digest)
    && forall j: nat | j < index :: FailsOver(attempts, file, size, digest, j)
  }

  lemma TryNext(
      attempts: seq<Attempt>, file: Option<Bytes>, size: nat, digest: Digest, index: nat, r: Transfer, next: Transfer)
    requires Tried(attempts, file, size, digest, index, r) && (r.Rejected? || r.HttpError?)
    requires index + 1 < |attempts| && EndsAs(next, attempts[index + 1], None, size, digest)
    ensures Tried(attempts, file, size, digest, index + 1, next)
  {
    assert FailsOver(attempts, file, size, digest, index);
  }

  /** What the sources come to, once there is nothing left to try. */
  lemma TriedAll(attempts: seq<Attempt>, file: Option<Bytes>, size: nat, digest: Digest, index: nat, r: Transfer)
    requires Tried(attempts, file, size, digest, index, r)
    requires index + 1 == |attempts| || !(r.Rejected? || r.HttpError?)
    ensures r.Interrupted? ==> !Uncancelled(attempts)
    ensures !r.Interrupted? ==> (r.Downloaded? <==> Succeeds(attempts, file, size, digest))
    ensures Strands(file, attempts[0].response, size) ==> r.MissingFile?
  {
    if r.Downloaded? {
      assert SucceedsAt(attempts, file, size, digest, index);
    } else if !r.Interrupted? {
      LastSourceDecides(attempts, file, size, digest, index);
    }
    assert index > 0 ==> FailsOver(attempts, file, size, digest, 0);
  }

  /** Where one source strands, or is the last one, success can only have come from it or before it. */
  lemma LastSourceDecides(attempts: seq<Attempt>, file: Option<Bytes>, size: nat, digest: Digest, k: nat)
    requires k < |attempts| && forall j: nat | j < k :: FailsOver(attempts, file, size, digest, j)
    requires Strands(FileAt(file, k), attempts[k].response, size) || k + 1 == |attempts|
    ensures Succeeds(attempts, file, size, digest) <==> Completes(FileAt(file, k), attempts[k].response, size, digest)
  {
    if Completes(FileAt(file, k), attempts[k].response, size, digest) {
      assert SucceedsAt(attempts, file, size, digest, k);
    }
    forall i: nat | SucceedsAt(attempts, file, size, digest, i)
      ensures Completes(FileAt(file, k), attempts[k].response, size, digest)
    {
      assert i < k ==> FailsOver(attempts, file, size, digest, i);
      assert i > k ==> FailsOver(attempts, file, size, digest, k);
    }
  }

  datatype Extraction = Extracted | BadArchive | AlreadyThere | OtherFailure

  /** The archive outcome as the operation's error. */
  function ErrorOf(x: Extraction): ErrorCode {
    match x
    case BadArchive => ArchiveInvalid
    case AlreadyThere => InstallConflict
    case _ => InternalError
  }

  class Installer {
    const expectedSize: nat
    const expectedDigest: Digest
    var op: Operation
    var file: Option<Bytes>
    /** `state["last_persisted"]`. */
    var lastPersisted: int
    /** Every state that was on disk and in the database, in order. */
    ghost var log: seq<Persisted>
    /** The states in which a status was entered. */
    ghost var entered: seq<Persisted>

    constructor (size: nat, digest: Digest, stored: Operation, found: Option<Bytes>)
      ensures op == stored && file == found && log == [] && entered == []
      ensures expectedSize == size && expectedDigest == digest && lastPersisted == stored.bytes
    {
      expectedSize, expectedDigest, op, file, lastPersisted := size, digest, stored, found, stored.bytes;
      log, entered := [], [];
    }

    predicate Whole()
      reads this
    {
      WholeFile(file, expectedSize, expectedDigest)
    }

    /** Between writes of a transfer. */
    predicate InTransfer()
      reads this
    {
      op.expectedSize == expectedSize && Safe(Persisted(op, file)) && lastPersisted == op.bytes
    }

    method UpdateProgress(n: int, etag: Option<string>, lastModified: Option<string>) returns (refused: Option<Refusal>)
      modifies this`op, this`log
      ensures refused == ProgressRefusal(old(op), n)
      ensures refused.Some? ==> op == old(op) && log == old(log)
      ensures refused.None? ==>
        op == Progressed(old(op), n, etag, lastModified) && log == old(log) + [Persisted(op, file)]
    {
      if op.status != Downloading {
        return Some(NotDownloading);
      }
      if n < op.bytes {
        return Some(MustNotDecrease);
      }
      if n < 0 || op.expectedSize < n {
        return Some(OutOfRange);
      }
      var values := op.(bytes := n, revision := op.revision + 1);
      if etag.Some? {
        values := values.(etag := etag);
      }
      if lastModified.Some? {
        values := values.(lastModified := lastModified);
      }
      op, log := values, log + [Persisted(values, file)];
      return None;
    }

    method Restart() returns (refused: bool)
      modifies this`op, this`log
      ensures refused == !Restartable(old(op))
      ensures !refused ==> op == Restarted(old(op)) && log == old(log) + [Persisted(op, file)]
      ensures refused ==> op == old(op) && log == old(log)
    {
      if op.status != Pending && op.status != Downloading {
        return true;
      }
      op := op.(bytes := 0, revision := op.revision + 1);
      op := op.(etag := None, lastModified := None);
      log := log + [Persisted(op, file)];
      return false;
    }

    method SwitchSource(source: nat) returns (refused: bool)
      modifies this`op, this`log
      ensures refused == !Restartable(old(op))
      ensures !refused ==> op == Switched(old(op), source) && log == old(log) + [Persisted(op, file)]
      ensures refused ==> op == old(op) && log == old(log)
    {
      if op.status != Pending && op.status != Downloading {
        return true;
      }
      op := op.(source := source, bytes := 0, revision := op.revision + 1);
      op := op.(etag := None, lastModified := None);
      log := log + [Persisted(op, file)];
      return false;
    }

    method Advance(to: Status, error: Option<ErrorCode>) returns (refused: Option<Refusal>)
      modifies this`op, this`log, this`entered
      ensures refused == AdvanceRefusal(old(op), to)
      ensures refused.None? ==>
        && op == Advanced(old(op), to, error)
        && log == old(log) + [Persisted(op, file)] && entered == old(entered) + [Persisted(op, file)]
      ensures refused.Some? ==> op == old(op) && log == old(log) && entered == old(entered)
    {
      if !Allowed(op.status, to) {
        return Some(IllegalTransition);
      }
      if to == Verifying && op.bytes != op.expectedSize {
        return Some(NotComplete);
      }
      op := op.(status := to, revision := op.revision + 1);
      if error.Some? {
        op := op.(error := error);
      }
      log, entered := log + [Persisted(op, file)], entered + [Persisted(op, file)];
      return None;
    }

    method Store(content: Option<Bytes>)
      modifies this`file, this`log
      ensures file == content && log == old(log) + [Persisted(op, file)]
    {
      file := content;
      log := log + [Persisted(op, file)];
    }

    /** What is found on disk decides; afterwards the count is the size of the file. */
    method Reconcile()
      requires op.status == Downloading && op.expectedSize == expectedSize
      modifies this`op, this`file, this`lastPersisted, this`log
      ensures Persisted(op, file) == Reconciled(Persisted(old(op), old(file)))
      ensures InTransfer() && op.bytes == Size(file)
      ensures old(log) <= log
    {
      var actual := Size(file);
      if actual > expectedSize {
        Store(None);
        var refused := Restart();
      } else if actual > op.bytes {
        var refused := UpdateProgress(actual, None, None);
      } else if actual < op.bytes {
        Store(None);
        var refused := Restart();
      }
      lastPersisted := op.bytes;
    }

    /** `persist_progress`: every few megabytes and at the end. */
    method PersistProgress(n: nat, cancel: bool) returns (cancelled: bool)
      requires InTransfer() && n == Size(file)
      modifies this`op, this`lastPersisted, this`log
      ensures InTransfer() && SafeSince(old(log), log) && cancelled == cancel
      ensures !cancelled ==> n - op.bytes < PROGRESS_INTERVAL
      ensures op.etag == old(op.etag) && op.lastModified == old(op.lastModified) && op.source == old(op.source)
    {
      if cancel {
        return true;
      }
      if n - lastPersisted >= PROGRESS_INTERVAL || n == expectedSize {
        var refused := UpdateProgress(n, None, None);
        assert refused.None?;
        lastPersisted := n;
      }
      return false;
    }

    /** One chunk is written and its progress persisted. */
    method ReceiveChunk(before: Bytes, chunk: Bytes, cancel: bool) returns (cancelled: bool)
      requires InTransfer() && file == Some(before) && |before| + |chunk| <= expectedSize
      modifies this`op, this`file, this`lastPersisted, this`log
      ensures InTransfer() && SafeSince(old(log), log) && op.source == old(op.source)
      ensures file == Some(before + chunk) && cancelled == cancel
      ensures !cancelled ==> Size(file) - op.bytes < PROGRESS_INTERVAL
    {
      Store(Some(before + chunk));
      assert Safe(Persisted(op, file));
      cancelled := PersistProgress(|before| + |chunk|, cancel);
    }

    /** The body is written and hashed chunk by chunk; `taken` chunks of it are written. */
    method ReceiveBody(start: Bytes, body: Body, cancel: nat -> bool) returns (r: Transfer, ghost taken: nat)
      requires InTransfer() && file == Some(start) && |start| - op.bytes < PROGRESS_INTERVAL
      modifies this`op, this`file, this`lastPersisted, this`log
      ensures InTransfer() && SafeSince(old(log), log) && op.source == old(op.source)
      ensures taken <= |body.chunks| && file == Some(start + Joined(body.chunks[..taken]))
      ensures !r.Interrupted? ==> Size(file) - op.bytes < PROGRESS_INTERVAL
      ensures r.Downloaded? ==> Whole()
      ensures !r.MissingFile?
      ensures !r.Interrupted? ==>
        (r.Downloaded? <==>
          && |start| + |Joined(body.chunks)| == expectedSize && Sha256(start + Joined(body.chunks)) == expectedDigest
          && !body.broken)
      ensures r.Interrupted? ==> exists n :: cancel(n)
    {
      var hashed := start;
      var chunks := body.chunks;
      assert chunks[..0] == [] && start + "" == start;
      taken := 0;
      for k := 0 to |chunks|
        invariant taken == k && InTransfer() && SafeSince(old(log), log) && op.source == old(op.source)
        invariant file == Some(hashed) && |hashed| - op.bytes < PROGRESS_INTERVAL
        invariant hashed == start + Joined(chunks[..k])
      {
        var chunk := chunks[k];
        NextChunk(start, chunks, k);
        if |hashed| + |chunk| > expectedSize {
          return Rejected(ResponseTooLarge), taken;
        }
        var cancelled := ReceiveChunk(hashed, chunk, cancel(|hashed| + |chunk|));
        hashed, taken := hashed + chunk, k + 1;
        if cancelled {
          return Interrupted, taken;
        }
      }
      assert chunks[..|chunks|] == chunks;
      if body.broken {
        return HttpError, taken;
      }
      if |hashed| != expectedSize {
        return Rejected(SizeMismatch), taken;
      }
      if Sha256(hashed) != expectedDigest {
        return Rejected(DigestMismatch), taken;
      }
      return Downloaded(Validators(None, None)), taken;
    }

    /** An ignored Range restarts from zero; then the validators of the response are persisted. */
    method AcceptHeaders(restart: bool, validators: Validators)
      requires InTransfer() && op.bytes == Size(file)
      modifies this`op, this`lastPersisted, this`log
      ensures InTransfer() && SafeSince(old(log), log) && op.source == old(op.source)
      ensures op.bytes == if restart then 0 else old(op.bytes)
    {
      if restart {
        lastPersisted := 0;
        var refused := Restart();
        assert !refused;
      }
      var refused := UpdateProgress(lastPersisted, validators.etag, validators.lastModified);
      assert refused.None?;
    }

    /**
     One transfer from one source. Throughout, the count is at most the bytes written and these at most
     the expected size; a prefix of the served resource stays one; no progress write is refused. Unless
     the user cancels, it succeeds exactly when the response completes the file, partial or not there, and
     it asks for a missing file exactly where `Strands` says.
     */
    method DownloadResumable(response: Response, cancel: nat -> bool, ghost resource: Bytes) returns (r: Transfer)
      requires InTransfer() && op.bytes == Size(file)
      modifies this`op, this`file, this`lastPersisted, this`log
      ensures InTransfer() && SafeSince(old(log), log) && op.source == old(op.source)
      ensures r.Downloaded? ==> Whole()
      ensures r.MissingFile? <==> Strands(old(file), response, expectedSize)
      ensures !r.Interrupted? ==> (r.Downloaded? <==> Completes(old(file), response, expectedSize, expectedDigest))
      ensures !r.Interrupted? ==> Size(file) - op.bytes < PROGRESS_INTERVAL
      ensures r.Interrupted? ==> exists n :: cancel(n)
      ensures old(Content(file)) <= resource && Serves(response, resource, old(Size(file))) ==>
        Content(file) <= resource
    {
      var existing := Size(file);
      if existing == expectedSize {
        r := CheckInPlace();
        return;
      }
      if response.NoResponse? {
        return HttpError;
      }
      if response.OtherStatus? {
        return Rejected(DownloadFailed);
      }
      if response.PartialContent? {
        if !RangeOk(response.range, existing, expectedSize) {
          return Rejected(InvalidContentRange);
        }
        AcceptHeaders(false, response.validators);
        if file.None? {
          return MissingFile;
        }
      } else {
        AcceptHeaders(existing > 0, response.validators);
        Store(Some(""));
        assert Safe(Persisted(op, file));
      }
      ghost var start, taken := file.value, 0;
      r, taken := ReceiveBody(file.value, response.body, cancel);
      Conclude(start, response.body.chunks, taken, resource);
    }

    /**
     The sources in turn. A failed source may have left anything in the file, so the next one starts
     from nothing.
     */
    method TransferFromSources(attempts: seq<Attempt>, ghost resource: Bytes) returns (r: Transfer)
      requires InTransfer() && op.bytes == Size(file) && attempts != []
      modifies this`op, this`file, this`lastPersisted, this`log
      ensures InTransfer() && SafeOrEmptySince(old(log), log)
      ensures r.Downloaded? ==> Whole()
      ensures r.Interrupted? ==> !Uncancelled(attempts)
      ensures !r.Interrupted? ==> (r.Downloaded? <==> Succeeds(attempts, old(file), expectedSize, expectedDigest))
      ensures Strands(old(file), attempts[0].response, expectedSize) ==> r.MissingFile?
      ensures AllServe(attempts, old(file), resource) ==> Content(file) <= resource
    {
      ghost var found := file;
      r := DownloadResumable(attempts[0].response, attempts[0].cancel, resource);
      var index := 0;
      while index + 1 < |attempts| && (r.Rejected? || r.HttpError?)
        invariant InTransfer() && SafeOrEmptySince(old(log), log)
        invariant r.Downloaded? ==> Whole()
        invariant Tried(attempts, found, expectedSize, expectedDigest, index, r)
        invariant AllServe(attempts, found, resource) ==> Content(file) <= resource
      {
        ghost var before := r;
        StartOver(index + 1);
        r := DownloadResumable(attempts[index + 1].response, attempts[index + 1].cancel, resource);
        TryNext(attempts, found, expectedSize, expectedDigest, index, before, r);
        index := index + 1;
      }
      TriedAll(attempts, found, expectedSize, expectedDigest, index, r);
    }

    method StartOver(source: nat)
      requires InTransfer()
      modifies this`op, this`file, this`lastPersisted, this`log
      ensures InTransfer() && op.bytes == 0 && file == None && SafeOrEmptySince(old(log), log)
    {
      Store(None);
      lastPersisted := 0;
      var refused := SwitchSource(source);
      assert !refused;
    }

    method Fail(code: ErrorCode, truncate: bool)
      requires op.status in ACTIVE
      modifies this`op, this`file, this`log, this`entered
      ensures op.status == Failed && op.error == Some(code) && file == if truncate then None else old(file)
      ensures VerifiedSince(old(entered), entered, expectedSize, expectedDigest)
    {
      if truncate {
        Store(None);
      }
      var refused := Advance(Failed, Some(code));
    }

    /** From downloading to the whole file, or to a terminal failure. */
    method Download(attempts: seq<Attempt>) returns (done: bool)
      requires op.status == Downloading && op.expectedSize == expectedSize && attempts != []
      modifies this
      ensures done ==> Whole() && op.status == Verifying && op.bytes == expectedSize
      ensures !done ==> op.status in {Failed, ModelDownloads.Cancelled}
      ensures op.status == ModelDownloads.Cancelled ==> op.bytes == Size(file)
      ensures VerifiedSince(old(entered), entered, expectedSize, expectedDigest)
      ensures Uncancelled(attempts) ==>
        (done <==> Succeeds(attempts, Reconciled(Persisted(old(op), old(file))).file, expectedSize, expectedDigest))
      ensures Strands(Reconciled(Persisted(old(op), old(file))).file, attempts[0].response, expectedSize) ==>
        op.error == Some(InternalError)
    {
      Reconcile();
      var r := TransferFromSources(attempts, Content(file));
      match r {
        case Downloaded(_) =>
          var refused := UpdateProgress(expectedSize, None, None);
          refused := Advance(Verifying, None);
          assert refused.None?;
          return true;
        case Rejected(code) => Fail(code, true);
        case HttpError => Fail(DownloadFailed, false);
        case MissingFile => Fail(InternalError, false);
        case Interrupted =>
          var refused := UpdateProgress(Size(file), None, None);
          assert refused.None?;
          refused := Advance(ModelDownloads.Cancelled, Some(CancelledByUser));
      }
      done := false;
    }

    /**
     The whole install, from wherever an earlier one stopped. It always ends in a terminal status; it
     completes only over a verified archive; what a cancel leaves behind is consistent. When nobody
     cancels, and with a disk that takes every chunk and lets go of every file, it completes exactly when the
     archive unpacks and, as far as it is still to be downloaded or checked, some source succeeds or the file
     is whole.
     */
    method Install(attempts: seq<Attempt>, extraction: Extraction)
      requires op.status in ACTIVE && op.expectedSize == expectedSize && attempts != []
      modifies this
      ensures op.status in TERMINAL
      ensures old(op.status) != Installing ==> VerifiedSince(old(entered), entered, expectedSize, expectedDigest)
      ensures op.status == Completed ==> extraction == Extracted && (old(op.status) != Installing ==> Whole())
      ensures op.status == ModelDownloads.Cancelled ==> op.bytes == Size(file)
      ensures Uncancelled(attempts) ==>
        (op.status == Completed <==> (extraction == Extracted && match old(op.status)
          case Installing => true
          case Verifying => old(Whole())
          case _ => Succeeds(attempts, Reconciled(Persisted(old(op), old(file))).file, expectedSize, expectedDigest)))
    {
      if op.status == Pending {
        var refused := Advance(Downloading, None);
        assert refused.None?;
      }
      if op.status == Downloading {
        var done := Download(attempts);
        if !done {
          return;
        }
      }
      if op.status == Verifying {
        if !Whole() {
          Fail(if file.Some? && |file.value| == expectedSize then DigestMismatch else SizeMismatch, true);
          return;
        }
        var refused := Advance(Installing, None);
        assert refused.None?;
      }
      if extraction == Extracted {
        var refused := Advance(Completed, None);
        assert refused.None?;
      } else {
        Fail(ErrorOf(extraction), extraction == BadArchive);
      }
    }

    method CheckInPlace() returns (r: Transfer)
      requires Size(file) == expectedSize
      ensures r.Downloaded? <==> Whole()
      ensures r.MissingFile? <==> file.None?
      ensures r == Downloaded(Validators(None, None)) || r == Rejected(DigestMismatch) || r == MissingFile
    {
      if file.None? {
        return MissingFile;
      }
      if Sha256(file.value) != expectedDigest {
        return Rejected(DigestMismatch);
      }
      return Downloaded(Validators(None, None));
    }
  }

  lemma NextChunk(start: Bytes, chunks: seq<Bytes>, k: nat)
    requires k < |chunks|
    ensures start + Joined(chunks[..k]) + chunks[k] == start + Joined(chunks[..k + 1])
    ensures Joined(chunks[..k + 1]) <= Joined(chunks)
  {
    var more := chunks[..k + 1];
    assert more[..k] == chunks[..k] && more[k] == chunks[k];
    Regroup(start, Joined(chunks[..k]), chunks[k]);
    JoinedGrows(chunks, k + 1);
  }

  lemma Regroup(a: Bytes, b: Bytes, c: Bytes)
    ensures a + b + c == a + (b + c)
  {
  }

  lemma Conclude(start: Bytes, chunks: seq<Bytes>, taken: nat, resource: Bytes)
    requires taken <= |chunks|
    ensures start <= resource && Joined(chunks) <= resource[|start|..] ==> start + Joined(chunks[..taken]) <= resource
  {
    JoinedGrows(chunks, taken);
    if start <= resource && Joined(chunks) <= resource[|start|..] {
      PrefixExtends(start, Joined(chunks[..taken]), resource);
    }
  }

  lemma {:induction false} JoinedGrows(chunks: seq<Bytes>, k: nat)
    requires k <= |chunks|
    ensures Joined(chunks[..k]) <= Joined(chunks)
    decreases |chunks|
  {
    if k == |chunks| {
      assert chunks[..k] == chunks;
    } else {
      assert chunks[..|chunks| - 1][..k] == chunks[..k];
      JoinedGrows(chunks[..|chunks| - 1], k);
    }
  }
}
