/**
 The bounded write queue of one call recording. Appends of both tracks go through one
 promise chain, so they settle strictly in the order they were accepted; after a failed
 write the rest of the chain settles without writing.
 */
module RecordingQueue {

  newtype byte = x: int | 0 <= x < 256
  type Bytes = seq<byte>

  datatype Track = Mp3Track | PcmTrack

  datatype Chunk = Chunk(track: Track, data: Bytes)

  /** Live sessions accept appends; an aborted one only drains until its handles are closed. */
  datatype Phase = Live | Draining | Closed

  datatype Queue = Queue(
    limit: nat,
    queuedBytes: int,
    chain: seq<Chunk>,
    failed: bool,
    mp3: Bytes,
    pcm: Bytes,
    phase: Phase)

  function Opened(limit: nat): Queue {
    Queue(limit, 0, [], false, [], [], Live)
  }

  /** A write goes through, or throws having written only a first part of the data. */
  datatype Outcome = Works | Fails(written: nat)

  datatype Event =
    | Append(chunk: Chunk)
    | Settle(outcome: Outcome)
    | Abort
    | CloseHandles

  predicate Fits(q: Queue, chunk: Chunk) {
    q.queuedBytes + |chunk.data| <= q.limit
  }

  predicate Enabled(q: Queue, e: Event) {
    match e
    case Append(_) => q.phase.Live?
    case Settle(outcome) => q.chain != [] && (outcome.Fails? ==> outcome.written <= |q.chain[0].data|)
    case Abort => q.phase.Live?
    case CloseHandles => q.phase.Draining? && q.chain == []
  }

  function WithBytes(q: Queue, chunk: Chunk): Queue {
    match chunk.track
    case Mp3Track => q.(mp3 := q.mp3 + chunk.data)
    case PcmTrack => q.(pcm := q.pcm + chunk.data)
  }

  /** The part of a chunk that reached the file. */
  function Torn(chunk: Chunk, outcome: Outcome): Chunk
    requires outcome.Fails? ==> outcome.written <= |chunk.data|
  {
    if outcome.Works? then chunk else chunk.(data := chunk.data[..outcome.written])
  }

  function Step(q: Queue, e: Event): Queue
    requires Enabled(q, e)
  {
    match e
    case Append(chunk) =>
      if Fits(q, chunk) then q.(queuedBytes := q.queuedBytes + |chunk.data|, chain := q.chain + [chunk]) else q
    case Settle(outcome) =>
      var chunk := q.chain[0];
      var rest := q.(chain := q.chain[1..], queuedBytes := q.queuedBytes - |chunk.data|);
      if q.failed then rest
      else WithBytes(rest.(failed := outcome.Fails?), Torn(chunk, outcome))
    case Abort => q.(phase := Draining)
    case CloseHandles => q.(phase := Closed)
  }

  // ---------------------------------------------------------------- reference: the accepted sequence

  function TotalLength(chunks: seq<Chunk>): nat {
    if chunks == [] then 0 else |chunks[0].data| + TotalLength(chunks[1..])
  }

  function Share(chunk: Chunk, track: Track): Bytes {
    if chunk.track == track then chunk.data else []
  }

  /** The bytes of one track, in order. */
  function Projection(chunks: seq<Chunk>, track: Track): Bytes {
    if chunks == [] then [] else Share(chunks[0], track) + Projection(chunks[1..], track)
  }

  /** Everything ever accepted, in order: what a reader of the calls alone could write down. */
  ghost function Accepted(qs: seq<Queue>, es: seq<Event>, k: nat): seq<Chunk>
    requires |qs| == |es| + 1 && k <= |es|
  {
    if k == 0 then []
    else if es[k - 1].Append? && Fits(qs[k - 1], es[k - 1].chunk) then Accepted(qs, es, k - 1) + [es[k - 1].chunk]
    else Accepted(qs, es, k - 1)
  }

  ghost predicate Run(qs: seq<Queue>, es: seq<Event>) {
    && |qs| == |es| + 1
    && forall i :: 0 <= i < |es| ==> Enabled(qs[i], es[i]) && qs[i + 1] == Step(qs[i], es[i])
  }

  /**
   `whole` chunks were written in full, one after them possibly in part if a write failed,
   and the chain is what was accepted and has not settled.
   */
  ghost predicate Account(q: Queue, accepted: seq<Chunk>, whole: nat, torn: seq<Chunk>) {
    && whole <= |accepted| - |q.chain|
    && q.chain == accepted[|accepted| - |q.chain|..]
    && q.queuedBytes == TotalLength(q.chain) && q.queuedBytes <= q.limit
    && q.mp3 == Projection(accepted[..whole] + torn, Mp3Track)
    && q.pcm == Projection(accepted[..whole] + torn, PcmTrack)
    && (!q.failed ==> whole == |accepted| - |q.chain| && torn == [])
    && (q.failed ==> whole < |accepted| - |q.chain| && |torn| == 1
                     && torn[0].track == accepted[whole].track && torn[0].data <= accepted[whole].data)
    && (q.phase.Closed? ==> q.chain == [])
  }

  lemma {:induction false} TotalLengthConcat(a: seq<Chunk>, b: seq<Chunk>)
    ensures TotalLength(a + b) == TotalLength(a) + TotalLength(b)
  {
    if a == [] {
      assert a + b == b;
    } else {
      TotalLengthConcat(a[1..], b);
      assert (a + b)[1..] == a[1..] + b;
    }
  }

  lemma {:induction false} ProjectionConcat(a: seq<Chunk>, b: seq<Chunk>, track: Track)
    ensures Projection(a + b, track) == Projection(a, track) + Projection(b, track)
  {
    if a == [] {
      assert a + b == b;
    } else {
      hide Share;
      ProjectionConcat(a[1..], b, track);
      assert (a + b)[1..] == a[1..] + b && (a + b)[0] == a[0];
      Associative(Share(a[0], track), Projection(a[1..], track), Projection(b, track));
    }
  }

  lemma Associative(x: Bytes, y: Bytes, z: Bytes)
    ensures x + (y + z) == (x + y) + z
  {
  }

  lemma ProjectionOfOne(chunk: Chunk, track: Track)
    ensures Projection([chunk], track) == if chunk.track == track then chunk.data else []
  {
    assert [chunk][1..] == [];
    assert Projection([], track) == [];
  }

  lemma AppendKeepsAccount(q: Queue, chunk: Chunk, accepted: seq<Chunk>, whole: nat, torn: seq<Chunk>)
    requires Account(q, accepted, whole, torn) && q.phase.Live? && Fits(q, chunk)
    ensures Account(Step(q, Append(chunk)), accepted + [chunk], whole, torn)
  {
    TotalLengthConcat(q.chain, [chunk]);
    assert [chunk][1..] == [];
    assert (accepted + [chunk])[..whole] == accepted[..whole];
    var r := Step(q, Append(chunk));
    assert r.chain == (accepted + [chunk])[|accepted| + 1 - |r.chain|..];
  }

  lemma ProjectionAppend(before: seq<Chunk>, part: Chunk, track: Track)
    ensures Projection(before + [part], track) == Projection(before, track) + Share(part, track)
  {
    ProjectionConcat(before, [part], track);
    ProjectionOfOne(part, track);
  }

  lemma WithBytesShares(q: Queue, part: Chunk)
    ensures WithBytes(q, part) == q.(mp3 := q.mp3 + Share(part, Mp3Track), pcm := q.pcm + Share(part, PcmTrack))
  {
    assert q.mp3 + [] == q.mp3 && q.pcm + [] == q.pcm;
  }

  /** The first chunk of the chain settles while no write has failed yet. */
  lemma WriteKeepsAccount(q: Queue, outcome: Outcome, accepted: seq<Chunk>, whole: nat)
    requires Account(q, accepted, whole, []) && Enabled(q, Settle(outcome)) && !q.failed
    ensures var r := Step(q, Settle(outcome));
            if outcome.Works? then Account(r, accepted, whole + 1, [])
            else Account(r, accepted, whole, [Torn(q.chain[0], outcome)])
  {
    var chunk, r := q.chain[0], Step(q, Settle(outcome));
    assert accepted[whole] == chunk;
    assert q.queuedBytes == |chunk.data| + TotalLength(q.chain[1..]);
    assert q.chain[1..] == accepted[whole + 1..];
    var part := Torn(chunk, outcome);
    var before := accepted[..whole];
    assert before + [] == before;
    hide Projection, TotalLength, WithBytes, Share;
    WithBytesShares(q.(chain := q.chain[1..], queuedBytes := q.queuedBytes - |chunk.data|, failed := outcome.Fails?), part);
    ProjectionAppend(before, part, Mp3Track);
    ProjectionAppend(before, part, PcmTrack);
    if outcome.Works? {
      assert accepted[..whole + 1] + [] == before + [part];
    }
  }

  lemma StepKeepsAccount(q: Queue, e: Event, accepted: seq<Chunk>, whole: nat, torn: seq<Chunk>) returns (w: nat, t: seq<Chunk>)
    requires Account(q, accepted, whole, torn) && Enabled(q, e)
    ensures Account(Step(q, e), if e.Append? && Fits(q, e.chunk) then accepted + [e.chunk] else accepted, w, t)
    ensures w >= whole && (q.failed ==> w == whole && t == torn)
  {
    w, t := whole, torn;
    match e
    case Append(chunk) => if Fits(q, chunk) { AppendKeepsAccount(q, chunk, accepted, whole, torn); }
    case Settle(outcome) =>
      if !q.failed {
        WriteKeepsAccount(q, outcome, accepted, whole);
        if outcome.Works? { w := whole + 1; } else { t := [Torn(q.chain[0], outcome)]; }
      }
    case Abort =>
    case CloseHandles =>
  }

  lemma StepKeepsLimit(q: Queue, e: Event)
    requires Enabled(q, e)
    ensures Step(q, e).limit == q.limit
  {
  }

  lemma AccountBounds(q: Queue, accepted: seq<Chunk>, whole: nat, torn: seq<Chunk>)
    requires Account(q, accepted, whole, torn)
    ensures 0 <= q.queuedBytes <= q.limit
  {
  }

  /**
   For every interleaving of appends, write completions and failures, and an abort: the
   queued bytes are the length of what was accepted and has not settled, within the limit;
   both files are the in-order projections of one common prefix of the accepted sequence,
   plus at most the torn beginning of the next chunk; and handles are closed only when
   everything accepted has settled.
   */
  lemma {:induction false} FilesFollowAcceptedPrefix(limit: nat, qs: seq<Queue>, es: seq<Event>, k: nat)
    returns (whole: nat, torn: seq<Chunk>)
    requires Run(qs, es) && qs[0] == Opened(limit) && k <= |es|
    ensures Account(qs[k], Accepted(qs, es, k), whole, torn)
    ensures 0 <= qs[k].queuedBytes <= limit && qs[k].limit == limit
  {
    if k == 0 {
      whole, torn := 0, [];
      assert Accepted(qs, es, 0)[..0] + [] == [];
    } else {
      hide Account, Enabled;
      assert qs[k] == Step(qs[k - 1], es[k - 1]);
      StepKeepsLimit(qs[k - 1], es[k - 1]);
      hide Step;
      var w, t := FilesFollowAcceptedPrefix(limit, qs, es, k - 1);
      whole, torn := StepKeepsAccount(qs[k - 1], es[k - 1], Accepted(qs, es, k - 1), w, t);
    }
    AccountBounds(qs[k], Accepted(qs, es, k), whole, torn);
  }

  /** A chunk is accepted, whole and last in line, exactly if with it no more than the limit is unsettled. */
  lemma AcceptedIffRoom(q: Queue, chunk: Chunk, accepted: seq<Chunk>, whole: nat, torn: seq<Chunk>)
    requires Account(q, accepted, whole, torn) && q.phase.Live?
    ensures Step(q, Append(chunk)).chain
            == if TotalLength(accepted[|accepted| - |q.chain|..]) + |chunk.data| <= q.limit then q.chain + [chunk] else q.chain
    ensures Step(q, Append(chunk)).mp3 == q.mp3 && Step(q, Append(chunk)).pcm == q.pcm
  {
  }

  /** A failing write leaves just the part it got to, and all later ones leave nothing. */
  lemma SettlingWrites(q: Queue, outcome: Outcome)
    requires Enabled(q, Settle(outcome))
    ensures var chunk, r := q.chain[0], Step(q, Settle(outcome));
            var reached := if q.failed then [] else if outcome.Works? then chunk.data else chunk.data[..outcome.written];
            && r.mp3 == (if chunk.track == Mp3Track then q.mp3 + reached else q.mp3)
            && r.pcm == (if chunk.track == PcmTrack then q.pcm + reached else q.pcm)
            && r.chain == q.chain[1..] && r.queuedBytes == q.queuedBytes - |chunk.data|
            && (r.failed <==> q.failed || outcome.Fails?)
  {
    assert q.mp3 + [] == q.mp3 && q.pcm + [] == q.pcm;
  }

  /** Nothing is written after the first failure, whatever follows. */
  lemma {:induction false} NothingAfterFailure(qs: seq<Queue>, es: seq<Event>, i: nat, k: nat)
    requires Run(qs, es) && i <= k <= |es| && qs[i].failed
    ensures qs[k].failed && qs[k].mp3 == qs[i].mp3 && qs[k].pcm == qs[i].pcm
    decreases k
  {
    if i == k {
    } else {
      NothingAfterFailure(qs, es, i, k - 1);
    }
  }

  /** Once an abort has begun nothing more is accepted, so the drain comes to an end. */
  lemma {:induction false} DrainOnlyShrinks(qs: seq<Queue>, es: seq<Event>, i: nat, k: nat)
    requires Run(qs, es) && i <= k <= |es| && !qs[i].phase.Live?
    ensures !qs[k].phase.Live? && |qs[k].chain| <= |qs[i].chain|
    ensures Accepted(qs, es, k) == Accepted(qs, es, i)
    decreases k
  {
    if i == k {
    } else {
      DrainOnlyShrinks(qs, es, i, k - 1);
    }
  }

  /** A failing write may have reached any part of the chunk. */
  function Clipped(outcome: Outcome, chunk: Chunk): Outcome {
    if outcome.Fails? && outcome.written > |chunk.data| then Fails(|chunk.data|) else outcome
  }

  /** The queue once its whole chain has settled. */
  function Drained(q: Queue, outcomes: nat -> Outcome): (r: Queue)
    ensures r.chain == [] && r.phase == q.phase
    decreases |q.chain|
  {
    if q.chain == [] then q
    else Drained(Step(q, Settle(Clipped(outcomes(|q.chain| - 1), q.chain[0]))), outcomes)
  }

  /** Draining keeps the account: everything accepted is written, or follows the first failure. */
  lemma {:induction false} DrainKeepsAccount(q: Queue, outcomes: nat -> Outcome, accepted: seq<Chunk>, whole: nat, torn: seq<Chunk>)
    returns (w: nat, t: seq<Chunk>)
    requires Account(q, accepted, whole, torn)
    ensures Account(Drained(q, outcomes), accepted, w, t) && w >= whole
    ensures !Drained(q, outcomes).failed ==> w == |accepted|
    decreases |q.chain|
  {
    if q.chain == [] {
      w, t := whole, torn;
    } else {
      var e := Settle(Clipped(outcomes(|q.chain| - 1), q.chain[0]));
      w, t := StepKeepsAccount(q, e, accepted, whole, torn);
      w, t := DrainKeepsAccount(Step(q, e), outcomes, accepted, w, t);
    }
  }

  // ---------------------------------------------------------------- the session object

  class RecordingSession {
    const ownerId: int
    const partialPath: string
    const maxQueuedBytes: nat
    var queuedBytes: int
    var writes: seq<Chunk>
    var writesRejected: bool
    var mp3: Bytes
    var pcm: Bytes
    var phase: Phase

    ghost function GetQueue(): Queue
      reads this
    {
      Queue(maxQueuedBytes, queuedBytes, writes, writesRejected, mp3, pcm, phase)
    }

    constructor (ownerId: int, partialPath: string, maxQueuedBytes: nat)
      ensures GetQueue() == Opened(maxQueuedBytes) && this.ownerId == ownerId && this.partialPath == partialPath
    {
      this.ownerId, this.partialPath, this.maxQueuedBytes := ownerId, partialPath, maxQueuedBytes;
      queuedBytes, writes, writesRejected, mp3, pcm, phase := 0, [], false, [], [], Live;
    }

    /** An abort has taken the session away; what was accepted still drains. */
    method BeginDrain()
      requires phase.Live?
      modifies this
      ensures GetQueue() == Step(old(GetQueue()), Event.Abort)
    {
      phase := Draining;
    }

    /** Closes both handles, once the drain is over. */
    method CloseHandles()
      requires Enabled(GetQueue(), Event.CloseHandles)
      modifies this
      ensures GetQueue() == Step(old(GetQueue()), Event.CloseHandles)
    {
      phase := Closed;
    }

    /**
     The rest of an abort: waits until the last accepted write has settled, however the writes
     go, and only then closes the handles. `outcomes` says how the write goes that has so many
     behind it.
     */
    method DrainAndClose(outcomes: nat -> Outcome)
      requires phase.Draining?
      modifies this
      ensures GetQueue() == Step(Drained(old(GetQueue()), outcomes), Event.CloseHandles)
    {
      while writes != []
        invariant phase.Draining? && Drained(GetQueue(), outcomes) == Drained(old(GetQueue()), outcomes)
        decreases |writes|
      {
        WriteAfterPending(Clipped(outcomes(|writes| - 1), writes[0]));
      }
      CloseHandles();
    }

    /** False when the queue is full. */
    method AppendBytes(track: Track, data: Bytes) returns (accepted: bool)
      requires phase.Live?
      modifies this
      ensures accepted <==> old(queuedBytes) + |data| <= maxQueuedBytes
      ensures accepted == Fits(old(GetQueue()), Chunk(track, data))
      ensures GetQueue() == Step(old(GetQueue()), Append(Chunk(track, data)))
    {
      if queuedBytes + |data| > maxQueuedBytes {
        return false;
      }
      queuedBytes := queuedBytes + |data|;
      writes := writes + [Chunk(track, data)];
      return true;
    }

    /** The write at the head of the chain, once everything before it has settled. */
    method WriteAfterPending(outcome: Outcome)
      requires Enabled(GetQueue(), Settle(outcome))
      modifies this
      ensures GetQueue() == Step(old(GetQueue()), Settle(outcome))
    {
      var chunk := writes[0];
      writes := writes[1..];
      if !writesRejected {
        var reached := if outcome.Works? then chunk.data else chunk.data[..outcome.written];
        if chunk.track == Mp3Track {
          mp3 := mp3 + reached;
        } else {
          pcm := pcm + reached;
        }
        writesRejected := outcome.Fails?;
      }
      queuedBytes := queuedBytes - |chunk.data|;
    }
  }
}
