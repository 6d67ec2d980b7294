/**
 The two stages that save their work piece by piece (runtime/handlers.py, asr/fake.py): transcription
 with a per-segment checkpoint, and one stored summary per chunk.
 */
module ResumableStages {
  import opened Wrappers

  // ----- segments and their keys

  datatype Segment = Segment(start: real, end: real, text: string)

  /** Seconds in milliseconds, ties to even: what three decimals keep of a time. */
  function Millis(t: real): int {
    var scaled := t * 1000.0;
    var below := scaled.Floor;
    var rest := scaled - below as real;
    if rest < 0.5 || (rest == 0.5 && below % 2 == 0) then below else below + 1
  }

  datatype Key = Key(start: int, end: int)

  function KeyOf(s: Segment): Key { Key(Millis(s.start), Millis(s.end)) }

  function KeysOf(segments: seq<Segment>): set<Key> { set s | s in segments :: KeyOf(s) }

  predicate DistinctKeys(segments: seq<Segment>) {
    forall i, j :: 0 <= i < j < |segments| ==> KeyOf(segments[i]) != KeyOf(segments[j])
  }

  /** The shape check on a result: start times do not decrease. */
  predicate InOrder(segments: seq<Segment>) {
    forall i :: 0 < i < |segments| ==> segments[i - 1].start <= segments[i].start
  }

  /** What a provider transcribes when it skips the keys it is given. */
  function Pending(segments: seq<Segment>, skip: set<Key>): seq<Segment> {
    if segments == [] then []
    else
      var front, last := Pending(segments[..|segments| - 1], skip), segments[|segments| - 1];
      if KeyOf(last) in skip then front else front + [last]
  }

  // ----- one attempt

  /** What happens at one segment of an attempt. */
  datatype Event = Proceeds | Cancelled | ProviderFails | LeaseLostOnSave | CrashesAfterSave

  class Checkpoint {
    /** The payload of the segment artifact, if there is one. */
    var payload: Option<seq<Segment>>

    function Completed(): seq<Segment>
      reads this
    {
      if payload.Some? then payload.value else []
    }

    constructor ()
      ensures Completed() == []
    {
      payload := None;
    }

    /**
     One attempt of the stage with a provider that would recognise `segments`. It adds a prefix of what
     was still pending to the checkpoint, all of it when it succeeds; the transcript is the completed
     segments followed by the new ones.
     */
    method Execute(segments: seq<Segment>, fate: nat -> Event)
      returns (transcript: Option<seq<Segment>>, ghost saved: nat)
      modifies this
      ensures var pending := Pending(segments, KeysOf(old(Completed())));
        && saved <= |pending| && Completed() == old(Completed()) + pending[..saved]
        && (transcript.Some? ==>
              saved == |pending| && InOrder(pending) && transcript.value == old(Completed()) + pending)
        && ((forall i | 0 <= i < |segments| :: fate(i) == Proceeds) && InOrder(pending) ==> transcript.Some?)
    {
      var completed := Completed();
      var resume := KeysOf(completed);
      ghost var pending := Pending(segments, resume);
      var recent: seq<Segment> := [];
      saved := 0;
      assert completed + pending[..0] == completed;
      for i := 0 to |segments|
        invariant recent == Pending(segments[..i], resume) && recent <= pending && saved == |recent|
        invariant Completed() == completed + recent
      {
        var segment := segments[i];
        assert segments[..i + 1][..i] == segments[..i];
        PendingGrows(segments, resume, i + 1);
        if fate(i) == Cancelled || fate(i) == ProviderFails {
          return None, saved;
        }
        if KeyOf(segment) !in resume {
          if fate(i) == LeaseLostOnSave {
            return None, saved;
          }
          recent := recent + [segment];
          payload, saved := Some(completed + recent), saved + 1;
          if fate(i) == CrashesAfterSave {
            return None, saved;
          }
        }
      }
      assert segments[..|segments|] == segments;
      transcript := if InOrder(recent) then Some(completed + recent) else None;
    }
  }

  lemma {:induction false} PendingGrows(segments: seq<Segment>, skip: set<Key>, k: nat)
    requires k <= |segments|
    ensures Pending(segments[..k], skip) <= Pending(segments, skip)
    decreases |segments|
  {
    if k < |segments| {
      assert segments[..|segments| - 1][..k] == segments[..k];
      PendingGrows(segments[..|segments| - 1], skip, k);
    } else {
      assert segments[..k] == segments;
    }
  }

  // ----- any number of attempts

  /** The checkpoint after attempts that saved these numbers of segments before they stopped. */
  function CheckpointAfter(segments: seq<Segment>, stops: seq<nat>): seq<Segment> {
    if stops == [] then []
    else
      var before, stop := CheckpointAfter(segments, stops[..|stops| - 1]), stops[|stops| - 1];
      var pending := Pending(segments, KeysOf(before));
      before + (if stop <= |pending| then pending[..stop] else pending)
  }

  /** The transcript of an attempt that succeeds after them. */
  function TranscriptAfter(segments: seq<Segment>, stops: seq<nat>): seq<Segment> {
    var completed := CheckpointAfter(segments, stops);
    completed + Pending(segments, KeysOf(completed))
  }

  lemma {:induction false} PendingAfterPrefix(segments: seq<Segment>, done: nat, upTo: nat)
    requires DistinctKeys(segments) && done <= |segments| && upTo <= |segments|
    ensures Pending(segments[..upTo], KeysOf(segments[..done])) == if upTo <= done then [] else segments[done..upTo]
    decreases upTo
  {
    if upTo > 0 {
      var n := upTo - 1;
      PendingAfterPrefix(segments, done, n);
      assert segments[..upTo][..n] == segments[..n];
      if n < done {
        assert segments[n] in segments[..done];
      } else {
        assert KeyOf(segments[n]) !in KeysOf(segments[..done]);
        assert segments[done..n] + [segments[n]] == segments[done..upTo];
      }
    }
  }

  lemma {:induction false} CheckpointIsPrefix(segments: seq<Segment>, stops: seq<nat>)
    requires DistinctKeys(segments)
    ensures CheckpointAfter(segments, stops) <= segments
  {
    if stops != [] {
      var before := CheckpointAfter(segments, stops[..|stops| - 1]);
      CheckpointIsPrefix(segments, stops[..|stops| - 1]);
      var n := |before|;
      PendingAfterPrefix(segments, n, |segments|);
      assert segments[..|segments|] == segments && before == segments[..n];
    }
  }

  lemma ResumedTranscript(segments: seq<Segment>, stops: seq<nat>)
    requires DistinctKeys(segments)
    ensures TranscriptAfter(segments, stops) == segments
  {
    CheckpointIsPrefix(segments, stops);
    var n := |CheckpointAfter(segments, stops)|;
    PendingAfterPrefix(segments, n, |segments|);
    assert segments[..|segments|] == segments && CheckpointAfter(segments, stops) == segments[..n];
    assert segments[..n] + segments[n..] == segments;
  }

  lemma {:induction false} NothingSkipped(segments: seq<Segment>)
    ensures Pending(segments, {}) == segments
  {
    if segments != [] {
      NothingSkipped(segments[..|segments| - 1]);
      assert segments == segments[..|segments| - 1] + [segments[|segments| - 1]];
    }
  }

  lemma {:induction false} PendingIsNoLonger(segments: seq<Segment>, skip: set<Key>)
    ensures |Pending(segments, skip)| <= |segments|
    ensures (exists i :: 0 <= i < |segments| && KeyOf(segments[i]) in skip) ==> |Pending(segments, skip)| < |segments|
  {
    if segments != [] {
      PendingIsNoLonger(segments[..|segments| - 1], skip);
    }
  }

  lemma {:induction false} PendingLosesRepeats(segments: seq<Segment>, i: nat, j: nat)
    requires i < j < |segments| && KeyOf(segments[i]) == KeyOf(segments[j])
    ensures |Pending(segments, KeysOf(segments[..i + 1]))| + i + 1 < |segments|
  {
    var done, skip := segments[..i + 1], KeysOf(segments[..i + 1]);
    var rest := segments[i + 1..];
    assert segments == done + rest;
    PendingOfParts(done, rest, skip);
    forall k | 0 <= k < |done| ensures KeyOf(done[k]) in skip {
      assert done[k] in done;
    }
    NothingPending(done, skip);
    assert segments[i] in done && rest[j - i - 1] == segments[j];
    PendingIsNoLonger(rest, skip);
  }

  lemma {:induction false} PendingOfParts(a: seq<Segment>, b: seq<Segment>, skip: set<Key>)
    ensures Pending(a + b, skip) == Pending(a, skip) + Pending(b, skip)
  {
    if b == [] {
      assert a + b == a;
    } else {
      assert (a + b)[..|a + b| - 1] == a + b[..|b| - 1];
      PendingOfParts(a, b[..|b| - 1], skip);
    }
  }

  lemma {:induction false} NothingPending(segments: seq<Segment>, skip: set<Key>)
    requires forall k :: 0 <= k < |segments| ==> KeyOf(segments[k]) in skip
    ensures Pending(segments, skip) == []
  {
    if segments != [] {
      NothingPending(segments[..|segments| - 1], skip);
    }
  }

  /** A segment whose key an earlier one has is lost when an attempt stops between the two. */
  lemma RepeatedKeyIsLost(segments: seq<Segment>, i: nat, j: nat)
    requires i < j < |segments| && KeyOf(segments[i]) == KeyOf(segments[j])
    ensures TranscriptAfter(segments, [i + 1]) != segments
  {
    NothingSkipped(segments);
    assert [i + 1][..0] == [];
    assert CheckpointAfter(segments, []) == [] && KeysOf([]) == {};
    assert CheckpointAfter(segments, [i + 1]) == segments[..i + 1];
    PendingLosesRepeats(segments, i, j);
  }

  /** What an attempt ends with that nothing interrupts: it fails when what it transcribed is out of order. */
  function ResultAfter(segments: seq<Segment>, stops: seq<nat>): Option<seq<Segment>> {
    if InOrder(Pending(segments, KeysOf(CheckpointAfter(segments, stops)))) then Some(TranscriptAfter(segments, stops))
    else None
  }

  lemma FirstResult(segments: seq<Segment>)
    ensures ResultAfter(segments, []) == if InOrder(segments) then Some(segments) else None
  {
    NothingSkipped(segments);
    var completed := CheckpointAfter(segments, []);
    assert completed == [] && KeysOf(completed) == {};
    assert Pending(segments, KeysOf(completed)) == segments && completed + segments == segments;
  }

  lemma PendingIsInOrder(segments: seq<Segment>, stops: seq<nat>)
    requires DistinctKeys(segments) && InOrder(segments)
    ensures ResultAfter(segments, stops) == Some(segments)
  {
    ResumedTranscript(segments, stops);
    CheckpointIsPrefix(segments, stops);
    var n := |CheckpointAfter(segments, stops)|;
    PendingAfterPrefix(segments, n, |segments|);
    assert segments[..|segments|] == segments && CheckpointAfter(segments, stops) == segments[..n];
    assert InOrder(segments[n..]);
  }

  /** Segments out of order fail the attempt that transcribes them, and pass once all are in the checkpoint. */
  lemma DisorderIsHidden(segments: seq<Segment>)
    ensures ResultAfter(segments, [|segments|]).Some?
  {
    NothingSkipped(segments);
    var none: seq<nat> := [];
    assert [|segments|][..0] == none;
    assert CheckpointAfter(segments, none) == [] && KeysOf([]) == {};
    assert segments[..|segments|] == segments;
    assert CheckpointAfter(segments, [|segments|]) == segments;
    NothingPending(segments, KeysOf(segments));
  }

  /**
   Whatever attempts stopped and wherever, an undisturbed one ends as it would have without them, success and
   transcript alike: this holds exactly when the segments are in order and no two of them agree in their key.
   */
  lemma InterruptionsAreInvisible(segments: seq<Segment>)
    ensures (forall stops :: ResultAfter(segments, stops) == ResultAfter(segments, [])) <==>
      InOrder(segments) && DistinctKeys(segments)
  {
    FirstResult(segments);
    if InOrder(segments) && DistinctKeys(segments) {
      forall stops ensures ResultAfter(segments, stops) == ResultAfter(segments, []) {
        PendingIsInOrder(segments, stops);
      }
    } else if !InOrder(segments) {
      DisorderIsHidden(segments);
    } else {
      var i, j :| 0 <= i < j < |segments| && KeyOf(segments[i]) == KeyOf(segments[j]);
      RepeatedKeyIsLost(segments, i, j);
      assert ResultAfter(segments, [i + 1]) != Some(segments);
    }
  }

  // ----- summaries

  /** A stored summary is found by the digest of its chunk and the job's configuration. */
  datatype ChunkKey = ChunkKey(chunk: Digest, config: Digest)

  function ChunkKeyOf(chunk: string, config: Digest): ChunkKey { ChunkKey(Sha256(chunk), config) }

  datatype SummaryEvent = SummaryProceeds | SummaryCancelled | ModelFails | LeaseLostAtSave | LeaseLostAtRenewal

  type Store = map<ChunkKey, string>

  /** What an attempt may do to the stored summaries: add replies for chunks that had none. */
  ghost predicate Adds(before: Store, after: Store, chunks: seq<string>, config: Digest, reply: nat -> string) {
    && (forall k | k in before :: k in after && after[k] == before[k])
    && (forall k | k in after && k !in before :: exists i :: Replied(k, after[k], chunks, config, reply, i))
  }

  predicate Replied(k: ChunkKey, summary: string, chunks: seq<string>, config: Digest, reply: nat -> string, i: int) {
    0 <= i < |chunks| && k == ChunkKeyOf(chunks[i], config) && summary == reply(i)
  }

  /** One summary per chunk, in order, each the stored one. */
  predicate Summarizes(summaries: seq<string>, store: Store, chunks: seq<string>, config: Digest) {
    && |summaries| == |chunks|
    && forall i :: 0 <= i < |chunks| ==>
         ChunkKeyOf(chunks[i], config) in store && summaries[i] == store[ChunkKeyOf(chunks[i], config)]
  }

  class Summaries {
    var store: Store

    constructor ()
      ensures store == map[]
    {
      store := map[];
    }

    /** One attempt of the stage; `reply(i)` is what the model would answer for the `i`th chunk this time. */
    method Execute(chunks: seq<string>, config: Digest, fate: nat -> SummaryEvent, reply: nat -> string)
      returns (summaries: Option<seq<string>>)
      modifies this
      ensures Adds(old(store), store, chunks, config, reply)
      ensures summaries.Some? ==> Summarizes(summaries.value, store, chunks, config)
      ensures (forall i | 0 <= i < |chunks| :: fate(i) == SummaryProceeds) ==> summaries.Some?
    {
      var done: seq<string> := [];
      for i := 0 to |chunks|
        invariant Adds(old(store), store, chunks, config, reply)
        invariant Summarizes(done, store, chunks[..i], config)
      {
        if fate(i) == SummaryCancelled {
          return None;
        }
        var key := ChunkKeyOf(chunks[i], config);
        if key in store {
          done := done + [store[key]];
        } else {
          if fate(i) == ModelFails || fate(i) == LeaseLostAtSave {
            return None;
          }
          assert Replied(key, reply(i), chunks, config, reply, i);
          store := store[key := reply(i)];
          done := done + [reply(i)];
        }
        if fate(i) == LeaseLostAtRenewal {
          return None;
        }
      }
      assert chunks[..|chunks|] == chunks;
      return Some(done);
    }
  }

  /** The stores between the attempts of one job, each with its own replies. */
  ghost predicate Attempts(stores: seq<Store>, chunks: seq<string>, config: Digest, replies: seq<nat -> string>) {
    && |stores| == |replies| + 1
    && forall i :: 0 <= i < |replies| ==> Adds(stores[i], stores[i + 1], chunks, config, replies[i])
  }

  lemma {:induction false} StoredSummariesStay(
      stores: seq<Store>, chunks: seq<string>, config: Digest, replies: seq<nat -> string>, i: nat, k: ChunkKey)
    requires Attempts(stores, chunks, config, replies) && i < |stores| && k in stores[i]
    ensures k in stores[|replies|] && stores[|replies|][k] == stores[i][k]
    decreases |replies| - i
  {
    if i < |replies| {
      assert Adds(stores[i], stores[i + 1], chunks, config, replies[i]);
      StoredSummariesStay(stores, chunks, config, replies, i + 1, k);
    }
  }

  /**
   After any attempts, a success gives one summary per chunk in order: a chunk summarised in an earlier
   attempt keeps that summary, equal chunks share one, and different chunks never do.
   */
  lemma SummariesSurviveAttempts(
      stores: seq<Store>, chunks: seq<string>, config: Digest, replies: seq<nat -> string>, summaries: seq<string>)
    requires Attempts(stores, chunks, config, replies)
    requires Summarizes(summaries, stores[|replies|], chunks, config)
    ensures |summaries| == |chunks|
    ensures forall a, i | 0 <= a < |stores| && 0 <= i < |chunks| && ChunkKeyOf(chunks[i], config) in stores[a] ::
      summaries[i] == stores[a][ChunkKeyOf(chunks[i], config)]
    ensures forall i, j | 0 <= i < |chunks| && 0 <= j < |chunks| ::
      (chunks[i] == chunks[j] ==> summaries[i] == summaries[j])
      && (ChunkKeyOf(chunks[i], config) == ChunkKeyOf(chunks[j], config) ==> chunks[i] == chunks[j])
  {
    forall a, i | 0 <= a < |stores| && 0 <= i < |chunks| && ChunkKeyOf(chunks[i], config) in stores[a]
      ensures summaries[i] == stores[a][ChunkKeyOf(chunks[i], config)]
    {
      StoredSummariesStay(stores, chunks, config, replies, a, ChunkKeyOf(chunks[i], config));
    }
  }
}
