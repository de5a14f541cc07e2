/** Replay: frames, lifecycle checkpoints and the parity report between them. */
module ReplayFrames {
  import opened Prelude
  import opened Ordered
  import opened EventLog
  import opened EventOrder
  import opened Mempool
  import opened MempoolMachine

  datatype ReplayFrame = ReplayFrame(seqHi: U64, unixMs: int, pending: seq<TxHash>, senderQueues: seq<QueueView>)

  datatype Checkpoint = Checkpoint(seqId: U64, pendingHashes: seq<TxHash>, senderQueues: seq<QueueView>)

  datatype ReplayMode = DeterministicEventReplay | SnapshotReplay

  // ---------------------------------------------------------------- specification

  function Payloads(events: seq<Envelope>): seq<Payload> {
    seq(|events|, i requires 0 <= i < |events| => events[i].payload)
  }

  ghost function StateAfter(start: Pool, events: seq<Envelope>, i: nat): Pool
    requires i <= |events|
  {
    Replay(start, Payloads(events), i)
  }

  lemma NextState(start: Pool, events: seq<Envelope>, i: nat)
    requires i < |events|
    ensures StateAfter(start, events, i + 1) == Apply(StateAfter(start, events, i), events[i].payload)
  {
  }

  lemma FirstState(start: Pool, events: seq<Envelope>)
    ensures StateAfter(start, events, 0) == start
  {
  }

  ghost function PendingAfter(start: Pool, events: seq<Envelope>, i: nat): seq<TxHash>
    requires i <= |events|
  {
    Ascending(PendingHashes(StateAfter(start, events, i)))
  }

  /** The frame emitted right after event `i - 1`. */
  ghost function FrameAfter(start: Pool, events: seq<Envelope>, i: nat): ReplayFrame
    requires 0 < i <= |events|
  {
    ReplayFrame(events[i - 1].seqId, events[i - 1].unixMs,
                PendingAfter(start, events, i), PoolView(StateAfter(start, events, i)))
  }

  /** A frame closes every stride, and the log. */
  predicate Emits(i: nat, n: nat, stride: nat)
    requires stride > 0
  {
    i % stride == 0 || i == n
  }

  ghost function FramesUpTo(start: Pool, events: seq<Envelope>, stride: nat, i: nat): seq<ReplayFrame>
    requires stride > 0 && i <= |events|
  {
    if i == 0 then []
    else
      FramesUpTo(start, events, stride, i - 1) +
      if Emits(i, |events|, stride) then [FrameAfter(start, events, i)] else []
  }

  ghost function Frames(events: seq<Envelope>, stride: nat): seq<ReplayFrame>
    requires stride > 0
  {
    var sorted := SortDeterministic(events);
    FramesUpTo(EMPTY_POOL, sorted, stride, |sorted|)
  }

  // ---------------------------------------------------------------- which frames are emitted

  lemma DividesAs(n: nat, d: nat, q: nat, r: nat)
    requires r < d && n == q * d + r
    ensures n / d == q && n % d == r
  {
    var m := n / d;
    assert n == m * d + n % d;
    ProductsRise(m + 1, q, d);
    ProductsRise(q + 1, m, d);
  }

  lemma ProductsRise(a: nat, b: nat, d: nat)
    ensures a <= b ==> a * d <= b * d
  {
  }

  /** How many events the first `k + 1` strides span. */
  function StrideEnd(k: nat, stride: nat): nat {
    (k + 1) * stride
  }

  lemma NextStride(i: nat, stride: nat)
    requires i > 0 && stride > 0
    ensures if i % stride == 0 then i / stride == (i - 1) / stride + 1 && StrideEnd(i / stride - 1, stride) == i
      else i / stride == (i - 1) / stride
  {
    var q, r := (i - 1) / stride, (i - 1) % stride;
    if r + 1 == stride {
      DividesAs(i, stride, q + 1, 0);
    } else {
      DividesAs(i, stride, q, r + 1);
    }
  }

  /** One frame for every full stride of the first `i` events, right at its end. */
  ghost predicate AtStrides(frames: seq<ReplayFrame>, start: Pool, events: seq<Envelope>, stride: nat, i: nat)
    requires stride > 0 && i <= |events|
  {
    && |frames| == i / stride
    && forall k :: 0 <= k < |frames| ==>
        0 < StrideEnd(k, stride) <= i && frames[k] == FrameAfter(start, events, StrideEnd(k, stride))
  }

  lemma AtNextStride(frames: seq<ReplayFrame>, start: Pool, events: seq<Envelope>, stride: nat, i: nat)
    requires stride > 0 && 0 < i <= |events| && AtStrides(frames, start, events, stride, i - 1)
    ensures AtStrides(frames + if i % stride == 0 then [FrameAfter(start, events, i)] else [], start, events, stride, i)
  {
    hide FrameAfter, StrideEnd;
    NextStride(i, stride);
    assert frames + [] == frames;
  }

  /** Until the log closes, there is one frame for every full stride. */
  lemma {:induction false} FullStrides(start: Pool, events: seq<Envelope>, stride: nat, i: nat)
    requires stride > 0 && i <= |events| && (i < |events| || i % stride == 0)
    ensures AtStrides(FramesUpTo(start, events, stride, i), start, events, stride, i)
  {
    hide FrameAfter, AtStrides;
    if i == 0 {
      NothingAtStrides(start, events, stride);
    } else {
      FullStrides(start, events, stride, i - 1);
      AtNextStride(FramesUpTo(start, events, stride, i - 1), start, events, stride, i);
    }
  }

  lemma NothingAtStrides(start: Pool, events: seq<Envelope>, stride: nat)
    requires stride > 0
    ensures AtStrides([], start, events, stride, 0)
  {
    DividesAs(0, stride, 0, 0);
  }

  /** How many events frame `k` has seen. */
  function SeenBy(k: nat, n: nat, stride: nat): nat {
    if StrideEnd(k, stride) <= n then StrideEnd(k, stride) else n
  }

  /** One frame for every stride begun; each shows the log up to the end of its stride, the last one all of it. */
  ghost predicate ClosesEveryStride(frames: seq<ReplayFrame>, start: Pool, events: seq<Envelope>, stride: nat)
    requires stride > 0
  {
    var n := |events|;
    && |frames| == (n + stride - 1) / stride
    && forall k :: 0 <= k < |frames| ==>
        var m := SeenBy(k, n, stride);
        && 0 < m <= n && (k == |frames| - 1 ==> m == n)
        && frames[k].seqHi == events[m - 1].seqId && frames[k].unixMs == events[m - 1].unixMs
        && frames[k].pending == Ascending(PendingHashes(Replay(start, Payloads(events), m)))
        && frames[k].senderQueues == PoolView(Replay(start, Payloads(events), m))
  }

  lemma RoundedUp(n: nat, stride: nat)
    requires stride > 0
    ensures (n + stride - 1) / stride == n / stride + if n % stride == 0 then 0 else 1
    ensures (n / stride) * stride <= n < (n / stride + 1) * stride
  {
    var q, r := n / stride, n % stride;
    assert n == q * stride + r;
    if r == 0 {
      DividesAs(n + stride - 1, stride, q, stride - 1);
    } else {
      DividesAs(n + stride - 1, stride, q + 1, r - 1);
    }
  }

  lemma FramesClose(start: Pool, events: seq<Envelope>, stride: nat)
    requires stride > 0
    ensures ClosesEveryStride(FramesUpTo(start, events, stride, |events|), start, events, stride)
  {
    hide FrameAfter, PoolView, PendingHashes;
    var n, frames := |events|, FramesUpTo(start, events, stride, |events|);
    RoundedUp(n, stride);
    if n % stride == 0 {
      FullStrides(start, events, stride, n);
    } else {
      FullStrides(start, events, stride, n - 1);
      NextStride(n, stride);
    }
    forall k | 0 <= k < |frames|
      ensures 0 < SeenBy(k, n, stride) <= n && (k == |frames| - 1 ==> SeenBy(k, n, stride) == n)
      ensures frames[k] == FrameAfter(start, events, SeenBy(k, n, stride))
    {
      ProductsRise(k + 1, n / stride, stride);
    }
    FramesShowAll(frames, start, events, stride);
  }

  lemma FramesShowAll(frames: seq<ReplayFrame>, start: Pool, events: seq<Envelope>, stride: nat)
    requires stride > 0 && |frames| == (|events| + stride - 1) / stride
    requires forall k :: 0 <= k < |frames| ==>
      0 < SeenBy(k, |events|, stride) <= |events| && (k == |frames| - 1 ==> SeenBy(k, |events|, stride) == |events|)
    requires forall k :: 0 <= k < |frames| ==> frames[k] == FrameAfter(start, events, SeenBy(k, |events|, stride))
    ensures ClosesEveryStride(frames, start, events, stride)
  {
    hide SeenBy, PoolView, PendingHashes;
  }

  // ---------------------------------------------------------------- the two replay modes

  method EmitFrame(m: MempoolState, event: Envelope) returns (frame: ReplayFrame)
    ensures frame ==
      ReplayFrame(event.seqId, event.unixMs, Ascending(PendingHashes(m.Model())), PoolView(m.Model()))
  {
    var pending := m.SortedPendingHashes();
    var queues := m.SenderQueues();
    frame := ReplayFrame(event.seqId, event.unixMs, pending, queues);
  }

  method ReplayDeterministic(events: seq<Envelope>, stride: nat) returns (frames: seq<ReplayFrame>)
    requires stride > 0
    ensures frames == Frames(events, stride)
    ensures ClosesEveryStride(frames, EMPTY_POOL, SortDeterministic(events), stride)
  {
    hide ClosesEveryStride, SortDeterministic, StateAfter, PoolView, PendingHashes;
    var sorted := SortDeterministic(events);
    var state := new MempoolState();
    frames := [];
    FirstState(EMPTY_POOL, sorted);
    for idx := 0 to |sorted|
      invariant fresh(state) && state.Model() == StateAfter(EMPTY_POOL, sorted, idx)
      invariant frames == FramesUpTo(EMPTY_POOL, sorted, stride, idx)
    {
      NextState(EMPTY_POOL, sorted, idx);
      state.ApplyEvent(sorted[idx].payload);
      var shouldEmit := (idx + 1) % stride == 0 || idx + 1 == |sorted|;
      if shouldEmit {
        var frame := EmitFrame(state, sorted[idx]);
        frames := frames + [frame];
      }
    }
    FramesClose(EMPTY_POOL, sorted, stride);
  }

  method ReplaySnapshot(events: seq<Envelope>, stride: nat) returns (frames: seq<ReplayFrame>)
    requires stride > 0
    ensures frames == Frames(events, stride)
    ensures ClosesEveryStride(frames, EMPTY_POOL, SortDeterministic(events), stride)
  {
    hide ClosesEveryStride, SortDeterministic, StateAfter, PoolView, PendingHashes;
    var sorted := SortDeterministic(events);
    var state := new MempoolState();
    frames := [];
    FirstState(EMPTY_POOL, sorted);
    var count := 0;
    for i := 0 to |sorted|
      invariant fresh(state) && state.Model() == StateAfter(EMPTY_POOL, sorted, i) && count == i
      invariant frames == FramesUpTo(EMPTY_POOL, sorted, stride, i)
    {
      NextState(EMPTY_POOL, sorted, i);
      count := count + 1;
      state.ApplyEvent(sorted[i].payload);
      if count % stride == 0 || count == |sorted| {
        var frame := EmitFrame(state, sorted[i]);
        frames := frames + [frame];
      }
    }
    FramesClose(EMPTY_POOL, sorted, stride);
  }

  /** Both modes yield the same frames; a zero stride counts as one. */
  method ReplayInMode(events: seq<Envelope>, mode: ReplayMode, stride: nat) returns (frames: seq<ReplayFrame>)
    ensures frames == Frames(events, if stride == 0 then 1 else stride)
    ensures ClosesEveryStride(frames, EMPTY_POOL, SortDeterministic(events), if stride == 0 then 1 else stride)
  {
    hide ClosesEveryStride;
    var step := if stride == 0 then 1 else stride;
    match mode {
      case DeterministicEventReplay => frames := ReplayDeterministic(events, step);
      case SnapshotReplay => frames := ReplaySnapshot(events, step);
    }
  }

  /** Replay does not depend on the order in which a log with distinct order keys is delivered. */
  lemma FramesIgnoreDelivery(a: seq<Envelope>, b: seq<Envelope>, stride: nat)
    requires stride > 0 && DistinctKeys(a) && DistinctKeys(b) && forall x :: x in a <==> x in b
    ensures Frames(a, stride) == Frames(b, stride)
  {
    PermutationSortsAlike(a, b);
  }

  /** At stride one, frame `k` shows the state after event `k`. */
  lemma {:induction false} FrameAt(start: Pool, events: seq<Envelope>, i: nat)
    requires i <= |events|
    ensures |FramesUpTo(start, events, 1, i)| == i
    ensures forall k :: 0 <= k < i ==> FramesUpTo(start, events, 1, i)[k] == FrameAfter(start, events, k + 1)
  {
    hide FrameAfter;
    if i > 0 {
      FrameAt(start, events, i - 1);
    }
  }

  // ---------------------------------------------------------------- checkpoints

  ghost function CheckpointAfter(events: seq<Envelope>, i: nat): Checkpoint
    requires 0 < i <= |events|
  {
    Checkpoint(events[i - 1].seqId, PendingAfter(EMPTY_POOL, events, i), PoolView(StateAfter(EMPTY_POOL, events, i)))
  }

  ghost function CheckpointsUpTo(events: seq<Envelope>, ids: set<U64>, i: nat): seq<Checkpoint>
    requires i <= |events|
  {
    if i == 0 then []
    else CheckpointsUpTo(events, ids, i - 1) + if events[i - 1].seqId in ids then [CheckpointAfter(events, i)] else []
  }

  method LifecycleCheckpoints(events: seq<Envelope>, ids: seq<U64>) returns (checkpoints: seq<Checkpoint>)
    ensures var sorted := SortDeterministic(events);
      checkpoints == CheckpointsUpTo(sorted, set id | id in ids, |sorted|)
  {
    var wanted := set id | id in ids;
    var sorted := SortDeterministic(events);
    var state := new MempoolState();
    checkpoints := [];
    for i := 0 to |sorted|
      invariant fresh(state) && state.Model() == StateAfter(EMPTY_POOL, sorted, i)
      invariant checkpoints == CheckpointsUpTo(sorted, wanted, i)
    {
      NextState(EMPTY_POOL, sorted, i);
      state.ApplyEvent(sorted[i].payload);
      if sorted[i].seqId in wanted {
        var frame := EmitFrame(state, sorted[i]);
        checkpoints := checkpoints + [Checkpoint(sorted[i].seqId, frame.pending, frame.senderQueues)];
      }
    }
  }

  // ---------------------------------------------------------------- parity

  /** Whether some event among the first `i` carries an id. */
  ghost predicate Occurs(events: seq<Envelope>, id: U64, i: nat)
    requires i <= |events|
  {
    exists k :: 0 <= k < i && events[k].seqId == id
  }

  /** One past the last of the first `i` events that carries an id. */
  ghost function LastWith(events: seq<Envelope>, id: U64, i: nat): nat
    requires i <= |events|
  {
    if i == 0 then 0 else if events[i - 1].seqId == id then i else LastWith(events, id, i - 1)
  }

  lemma {:induction false} LastWithin(events: seq<Envelope>, id: U64, i: nat)
    requires i <= |events|
    ensures LastWith(events, id, i) <= i
    ensures Occurs(events, id, i) <==> LastWith(events, id, i) > 0
  {
    if i > 0 {
      LastWithin(events, id, i - 1);
    }
  }

  /** The pending hashes by sequence id; a later frame overwrites an earlier one. */
  function BySequence(frames: seq<ReplayFrame>, i: nat): map<U64, seq<TxHash>>
    requires i <= |frames|
  {
    if i == 0 then map[] else BySequence(frames, i - 1)[frames[i - 1].seqHi := frames[i - 1].pending]
  }

  function ParityUpTo(expected: seq<Checkpoint>, actual: map<U64, seq<TxHash>>, i: nat): map<U64, bool>
    requires i <= |expected|
  {
    if i == 0 then map[]
    else
      var id := expected[i - 1].seqId;
      var found := if id in actual then actual[id] else [];
      ParityUpTo(expected, actual, i - 1)[id := found == expected[i - 1].pendingHashes]
  }

  lemma {:induction false} BySequenceKeepsLast(events: seq<Envelope>, frames: seq<ReplayFrame>, id: U64, i: nat)
    requires i <= |frames| == |events|
    requires forall k :: 0 <= k < |frames| ==> frames[k] == FrameAfter(EMPTY_POOL, events, k + 1)
    ensures LastWith(events, id, i) <= i
    ensures id in BySequence(frames, i) <==> LastWith(events, id, i) > 0
    ensures id in BySequence(frames, i) ==>
      BySequence(frames, i)[id] == PendingAfter(EMPTY_POOL, events, LastWith(events, id, i))
  {
    hide PendingAfter, StateAfter, PoolView;
    if i > 0 {
      BySequenceKeepsLast(events, frames, id, i - 1);
      assert frames[i - 1] == FrameAfter(EMPTY_POOL, events, i);
    }
  }

  /** After the checkpoints of the first `i` events, an id reports whether its latest one matches. */
  lemma {:induction false} ParityOfLatest(
      events: seq<Envelope>, ids: set<U64>, actual: map<U64, seq<TxHash>>, id: U64, i: nat)
    requires i <= |events|
    ensures LastWith(events, id, i) <= i
    ensures var cps := CheckpointsUpTo(events, ids, i);
      var parity := ParityUpTo(cps, actual, |cps|);
      && (id in parity <==> id in ids && LastWith(events, id, i) > 0)
      && (id in parity && id in actual ==>
          parity[id] == (actual[id] == PendingAfter(EMPTY_POOL, events, LastWith(events, id, i))))
  {
    hide PendingAfter, StateAfter, PoolView;
    if i > 0 {
      ParityOfLatest(events, ids, actual, id, i - 1);
      var earlier := CheckpointsUpTo(events, ids, i - 1);
      if events[i - 1].seqId in ids {
        ParityPrefix(earlier, [CheckpointAfter(events, i)], actual, |earlier|);
      } else {
        assert CheckpointsUpTo(events, ids, i) == earlier;
      }
    }
  }

  lemma {:induction false} ParityPrefix(a: seq<Checkpoint>, b: seq<Checkpoint>, actual: map<U64, seq<TxHash>>, i: nat)
    requires i <= |a|
    ensures ParityUpTo(a + b, actual, i) == ParityUpTo(a, actual, i)
  {
    if i > 0 {
      ParityPrefix(a, b, actual, i - 1);
    }
  }

  /**
    The parity report lists exactly the requested ids that occur, and reports parity for
    each of them, also when sequence ids repeat.
   */
  method LifecycleParity(events: seq<Envelope>, ids: seq<U64>) returns (parity: map<U64, bool>)
    ensures forall id :: id in parity <==> id in ids && exists e :: e in events && e.seqId == id
    ensures forall id :: id in parity ==> parity[id]
  {
    hide CheckpointsUpTo, Frames, SortDeterministic, ClosesEveryStride;
    var expected := LifecycleCheckpoints(events, ids);
    var frames := ReplayInMode(events, DeterministicEventReplay, 1);
    var bySequence: map<U64, seq<TxHash>> := map[];
    for i := 0 to |frames|
      invariant bySequence == BySequence(frames, i)
    {
      bySequence := bySequence[frames[i].seqHi := frames[i].pending];
    }
    parity := map[];
    for i := 0 to |expected|
      invariant parity == ParityUpTo(expected, bySequence, i)
    {
      var id := expected[i].seqId;
      var found := if id in bySequence then bySequence[id] else [];
      parity := parity[id := found == expected[i].pendingHashes];
    }
    ParityHolds(events, ids, expected, frames);
  }

  lemma ParityHolds(events: seq<Envelope>, ids: seq<U64>, expected: seq<Checkpoint>, frames: seq<ReplayFrame>)
    requires var sorted := SortDeterministic(events);
      expected == CheckpointsUpTo(sorted, set id | id in ids, |sorted|)
    requires frames == Frames(events, 1)
    ensures var parity := ParityUpTo(expected, BySequence(frames, |frames|), |expected|);
      && (forall id :: id in parity <==> id in ids && exists e :: e in events && e.seqId == id)
      && forall id :: id in parity ==> parity[id]
  {
    var sorted := SortDeterministic(events);
    FrameAt(EMPTY_POOL, sorted, |sorted|);
    SortMembers(events);
    forall id: U64
      ensures var parity := ParityUpTo(expected, BySequence(frames, |frames|), |expected|);
        && (id in parity <==> id in ids && exists e :: e in events && e.seqId == id)
        && (id in parity ==> parity[id])
    {
      BySequenceKeepsLast(sorted, frames, id, |sorted|);
      ParityOfLatest(sorted, (set k | k in ids), BySequence(frames, |frames|), id, |sorted|);
      LastWithin(sorted, id, |sorted|);
      assert Occurs(sorted, id, |sorted|) <==> exists e :: e in sorted && e.seqId == id;
    }
  }
}
