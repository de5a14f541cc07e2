/**
  When a resumed replay shows what the full replay shows, read off the log. The full
  replay's reorg guards are statements about the log alone, so nothing but the log and
  the resumed states themselves has to be looked at.
 */
module ResumeLog {
  import opened Prelude
  import opened Ordered
  import opened EventLog
  import opened EventOrder
  import opened Mempool
  import opened Lifecycle
  import opened ReplayFrames
  import opened Resume
  import opened CheckpointResume

  // ---------------------------------------------------------------- what one event leaves behind

  /** The event puts the hash into some slot. */
  predicate PlacesHash(p: Payload, h: TxHash) {
    (p.TxDecoded? && p.tx.hash == h) || ((p.TxReady? || p.TxBlocked?) && p.hash == h)
  }

  lemma PlacesSomewhere(p: Payload, h: TxHash)
    ensures PlacesHash(p, h) <==> exists s, n :: Places(p, h, s, n)
  {
    match p
    case TxDecoded(tx) => assert PlacesHash(p, h) ==> Places(p, h, tx.sender, tx.nonce);
    case TxReady(g, s, n) => assert PlacesHash(p, h) ==> Places(p, h, s, n);
    case TxBlocked(g, s, n, _) => assert PlacesHash(p, h) ==> Places(p, h, s, n);
    case _ =>
  }

  /** The recorded slot of a hash, if it has one, stays as it is. */
  predicate KeepsSlot(m: Pool, m': Pool, h: TxHash) {
    && (h in m.txs ==> h in m'.txs && m'.txs[h].sender == m.txs[h].sender && m'.txs[h].nonce == m.txs[h].nonce)
    && (h !in m.txs && h in m'.txs ==> m'.txs[h].sender.None? && m'.txs[h].nonce.None?)
  }

  predicate SlotIs(m: Pool, h: TxHash, s: Address, n: U64) {
    h in m.txs && m.txs[h].sender == Some(s) && m.txs[h].nonce == Some(n)
  }

  lemma RecomputeKeepsSlot(m: Pool, s: Address, h: TxHash)
    ensures KeepsSlot(m, Recompute(m, s), h)
    ensures forall s', n :: SlotHas(Recompute(m, s), s', n, h) ==> SlotHas(m, s', n, h)
  {
    hide Relabel;
    if s in m.queues {
      RelabelKeeps(m.txs, m.queues[s]);
    }
  }

  lemma SettledSlot(m: Pool, g: TxHash, status: Status, h: TxHash)
    ensures KeepsSlot(m, ApplySettled(m, g, status), h)
    ensures forall s, n :: SlotHas(ApplySettled(m, g, status), s, n, h) ==>
      SlotHas(m, s, n, h) && !(g == h && SlotIs(m, h, s, n))
  {
    hide Recompute;
    var settled := m.(txs := Settle(m.txs, g, status));
    if KnowsSlot(m, g) {
      var s0 := m.txs[g].sender.value;
      RecomputeKeepsSlot(RemoveEntry(settled, g, s0, m.txs[g].nonce.value), s0, h);
    }
  }

  lemma EnsuredSlot(m: Pool, g: TxHash, s0: Address, n0: U64, h: TxHash)
    ensures var m' := Recompute(Ensure(m, g, s0, n0), s0);
      && (if h == g then SlotIs(m', h, s0, n0) else KeepsSlot(m, m', h))
      && forall s, n :: SlotHas(m', s, n, h) ==> if s == s0 && n == n0 then h == g else SlotHas(m, s, n, h)
  {
    hide Recompute;
    RecomputeKeepsSlot(Ensure(m, g, s0, n0), s0, h);
  }

  /** The recorded slot of every hash after an event. */
  lemma SlotAfter(m: Pool, p: Payload, h: TxHash)
    ensures var m' := Apply(m, p);
      && (PlacesHash(p, h) ==> KnowsSlot(m', h) && Places(p, h, m'.txs[h].sender.value, m'.txs[h].nonce.value))
      && (!PlacesHash(p, h) ==> KeepsSlot(m, m', h))
  {
    hide Recompute, ApplySettled;
    match p
    case TxDecoded(tx) => EnsuredSlot(AfterDisplacing(m, tx), tx.hash, tx.sender, tx.nonce, h);
    case TxReady(g, s, n) => EnsuredSlot(m, g, s, n, h);
    case TxBlocked(g, s, n, _) => EnsuredSlot(m, g, s, n, h);
    case TxDropped(g, reason) => SettledSlot(m, g, Dropped(reason), h);
    case TxConfirmedProvisional(g, number, block) => SettledSlot(m, g, ConfirmedProvisional(number, block), h);
    case TxConfirmedFinal(g, number, block) => SettledSlot(m, g, ConfirmedFinal(number, block), h);
    case TxReplaced(g, newHash) => SettledSlot(m, g, ReplacedBy(newHash), h);
    case TxReorged(g, block, _) =>
      if Reopens(m, g, block) && KnowsSlot(m, g) {
        EnsuredSlot(Resume.Reopened(m, g), g, m.txs[g].sender.value, m.txs[g].nonce.value, h);
      }
    case _ =>
  }

  /** Where a hash can stand in a queue after an event. */
  lemma QueueAfter(m: Pool, p: Payload, h: TxHash, s: Address, n: U64)
    requires SlotHas(Apply(m, p), s, n, h)
    ensures SlotHas(m, s, n, h) || Places(p, h, s, n) ||
      (p.TxReorged? && p.hash == h && Reopens(m, h, p.oldBlockHash) && SlotIs(m, h, s, n))
    ensures Ends(p) == Some(h) && h in m.txs ==> !SlotIs(m, h, s, n)
    ensures p.TxDecoded? && p.tx.sender == s && p.tx.nonce == n ==> h == p.tx.hash
  {
    hide Recompute, ApplySettled;
    match p
    case TxDecoded(tx) => EnsuredSlot(AfterDisplacing(m, tx), tx.hash, tx.sender, tx.nonce, h);
    case TxReady(g, s0, n0) => EnsuredSlot(m, g, s0, n0, h);
    case TxBlocked(g, s0, n0, _) => EnsuredSlot(m, g, s0, n0, h);
    case TxDropped(g, reason) => SettledSlot(m, g, Dropped(reason), h);
    case TxConfirmedProvisional(g, number, block) => SettledSlot(m, g, ConfirmedProvisional(number, block), h);
    case TxConfirmedFinal(g, number, block) => SettledSlot(m, g, ConfirmedFinal(number, block), h);
    case TxReplaced(g, newHash) => SettledSlot(m, g, ReplacedBy(newHash), h);
    case TxReorged(g, block, _) =>
      if Reopens(m, g, block) && KnowsSlot(m, g) {
        EnsuredSlot(Resume.Reopened(m, g), g, m.txs[g].sender.value, m.txs[g].nonce.value, h);
      }
    case _ =>
  }

  lemma SlotFromLog(m: Pool, p: Payload, log: seq<Payload>, h: TxHash, s: Address, n: U64)
    requires FromLog(m, log) && p in log && SlotIs(Apply(m, p), h, s, n)
    ensures Placed(log, h, s, n)
  {
    hide Apply, Placed;
    SlotAfter(m, p, h);
    if PlacesHash(p, h) {
      PlacedByEvent(log, p, h, s, n);
    }
  }

  lemma QueueFromLog(m: Pool, p: Payload, log: seq<Payload>, h: TxHash, s: Address, n: U64)
    requires FromLog(m, log) && p in log && SlotHas(Apply(m, p), s, n, h)
    ensures Placed(log, h, s, n)
  {
    hide Apply, Placed;
    QueueAfter(m, p, h, s, n);
    if Places(p, h, s, n) {
      PlacedByEvent(log, p, h, s, n);
    }
  }

  /** Every slot of a replayed state is one the log names, also when a hash has several. */
  lemma {:induction false} ReplayFromAnyLog(log: seq<Payload>, i: nat)
    requires i <= |log|
    ensures FromLog(Replay(EMPTY_POOL, log, i), log)
  {
    hide Apply, Placed;
    if i > 0 {
      ReplayFromAnyLog(log, i - 1);
      var m, m' := Replay(EMPTY_POOL, log, i - 1), Replay(EMPTY_POOL, log, i);
      forall s, n | s in m'.queues && n in m'.queues[s] ensures Placed(log, m'.queues[s][n], s, n) {
        QueueFromLog(m, log[i - 1], log, m'.queues[s][n], s, n);
      }
      forall h | KnowsSlot(m', h) ensures Placed(log, h, m'.txs[h].sender.value, m'.txs[h].nonce.value) {
        SlotFromLog(m, log[i - 1], log, h, m'.txs[h].sender.value, m'.txs[h].nonce.value);
      }
    }
  }

  // ---------------------------------------------------------------- the full replay is tidy

  /** Whatever is queued is pending and knows its slot. */
  ghost predicate Tidy(m: Pool) {
    forall s, n, h :: SlotHas(m, s, n, h) ==> SlotIs(m, h, s, n) && IsPending(m.txs, h)
  }

  lemma TidyAfter(m: Pool, p: Payload, log: seq<Payload>, s: Address, n: U64, h: TxHash)
    requires Tidy(m) && FromLog(m, log) && OneSlotEach(log) && p in log && SlotHas(Apply(m, p), s, n, h)
    ensures SlotIs(Apply(m, p), h, s, n) && IsPending(Apply(m, p).txs, h)
  {
    hide Apply, Placed;
    assert SlotHas(m, s, n, h) ==> Placed(log, h, s, n);
    assert p.TxDecoded? && SilentlyReplaced(m, p.tx) == Some(h) ==> SlotHas(m, p.tx.sender, p.tx.nonce, h);
    QueueAfter(m, p, h, s, n);
    SlotAfter(m, p, h);
    StatusAfter(m, p, h);
    if PlacesHash(p, h) {
      var m' := Apply(m, p);
      PlacedByEvent(log, p, h, m'.txs[h].sender.value, m'.txs[h].nonce.value);
    }
  }

  lemma TidyStep(m: Pool, p: Payload, log: seq<Payload>)
    requires Tidy(m) && FromLog(m, log) && OneSlotEach(log) && p in log
    ensures Tidy(Apply(m, p))
  {
    hide Apply, FromLog, OneSlotEach, SlotHas;
    forall s, n, h | SlotHas(Apply(m, p), s, n, h)
      ensures SlotIs(Apply(m, p), h, s, n) && IsPending(Apply(m, p).txs, h)
    {
      TidyAfter(m, p, log, s, n, h);
    }
  }

  lemma {:induction false} ReplayIsTidy(log: seq<Payload>, i: nat)
    requires i <= |log| && OneSlotEach(log)
    ensures Tidy(Replay(EMPTY_POOL, log, i)) && FromLog(Replay(EMPTY_POOL, log, i), log)
  {
    hide Apply, FromLog, OneSlotEach;
    ReplayFromLog(log, i);
    if i > 0 {
      ReplayIsTidy(log, i - 1);
      TidyStep(Replay(EMPTY_POOL, log, i - 1), log[i - 1], log);
    }
  }

  // ---------------------------------------------------------------- the guards of the full replay, on the log

  predicate Confirms(p: Payload, h: TxHash, block: BlockHash) {
    (p.TxConfirmedProvisional? || p.TxConfirmedFinal?) && p.hash == h && p.blockHash == block
  }

  /** The event is about the hash. */
  predicate Concerns(p: Payload, h: TxHash) {
    PlacesHash(p, h) || Ends(p) == Some(h) || (p.TxReorged? && p.hash == h)
  }

  /** The event ends a confirmation of the hash in the block. */
  predicate Unconfirms(p: Payload, h: TxHash, block: BlockHash) {
    Concerns(p, h) && !(p.TxReorged? && p.oldBlockHash != block)
  }

  /** Among the first `i` events, one confirms the hash in the block and none after it undoes that. */
  ghost predicate ConfirmedBy(log: seq<Payload>, i: nat, h: TxHash, block: BlockHash)
    requires i <= |log|
  {
    exists x :: 0 <= x < i && Confirms(log[x], h, block) && forall y :: x < y < i ==> !Unconfirms(log[y], h, block)
  }

  ghost predicate PlacedWithin(log: seq<Payload>, from: nat, i: nat, h: TxHash)
    requires i <= |log|
  {
    exists x :: from <= x < i && PlacesHash(log[x], h)
  }

  lemma ConfirmedStep(log: seq<Payload>, i: nat, h: TxHash, block: BlockHash)
    requires i < |log|
    ensures ConfirmedBy(log, i + 1, h, block) <==>
      Confirms(log[i], h, block) || (ConfirmedBy(log, i, h, block) && !Unconfirms(log[i], h, block))
  {
    if ConfirmedBy(log, i, h, block) && !Unconfirms(log[i], h, block) {
      var x :| 0 <= x < i && Confirms(log[x], h, block) && forall y :: x < y < i ==> !Unconfirms(log[y], h, block);
      assert forall y :: x < y < i + 1 ==> !Unconfirms(log[y], h, block);
    }
    if ConfirmedBy(log, i + 1, h, block) && !Confirms(log[i], h, block) {
      var x :|
        0 <= x < i + 1 && Confirms(log[x], h, block) && forall y :: x < y < i + 1 ==> !Unconfirms(log[y], h, block);
      assert x < i && !Unconfirms(log[i], h, block);
    }
  }

  /** In a tidy state exactly these events change whether a reorg would reopen a hash. */
  lemma ReopensStep(m: Pool, p: Payload, h: TxHash, block: BlockHash)
    requires Tidy(m)
    ensures Reopens(Apply(m, p), h, block) <==>
      Confirms(p, h, block) || (Reopens(m, h, block) && !Unconfirms(p, h, block))
  {
    hide Apply;
    StatusAfter(m, p, h);
    if p.TxDecoded? && SilentlyReplaced(m, p.tx) == Some(h) {
      assert SlotHas(m, p.tx.sender, p.tx.nonce, h);
    }
  }

  /** A reorg reopens a hash in the full replay exactly when the log left it confirmed in that block. */
  lemma {:induction false} FullReopensIff(log: seq<Payload>, i: nat, h: TxHash, block: BlockHash)
    requires i <= |log| && OneSlotEach(log)
    ensures Reopens(Replay(EMPTY_POOL, log, i), h, block) <==> ConfirmedBy(log, i, h, block)
  {
    hide Apply, OneSlotEach, Reopens, ConfirmedBy, Tidy, FromLog;
    if i == 0 {
      NothingConfirmed(log, h, block);
    } else {
      FullReopensIff(log, i - 1, h, block);
      ReplayIsTidy(log, i - 1);
      ReopensStep(Replay(EMPTY_POOL, log, i - 1), log[i - 1], h, block);
      ConfirmedStep(log, i - 1, h, block);
    }
  }

  lemma NothingConfirmed(log: seq<Payload>, h: TxHash, block: BlockHash)
    ensures !ConfirmedBy(log, 0, h, block) && !Reopens(EMPTY_POOL, h, block)
  {
  }

  /** A state knows the slot of a hash exactly when the log has placed it, or it was known before. */
  lemma {:induction false} KnowsSlotIff(m: Pool, log: seq<Payload>, i: nat, h: TxHash)
    requires i <= |log| && (h in m.txs ==> (m.txs[h].sender.Some? <==> m.txs[h].nonce.Some?))
    ensures var m' := Replay(m, log, i);
      && (KnowsSlot(m', h) <==> KnowsSlot(m, h) || PlacedWithin(log, 0, i, h))
      && (h in m'.txs ==> (m'.txs[h].sender.Some? <==> m'.txs[h].nonce.Some?))
  {
    hide Apply, PlacesHash;
    if i > 0 {
      KnowsSlotIff(m, log, i - 1, h);
      SlotAfter(Replay(m, log, i - 1), log[i - 1], h);
      assert PlacedWithin(log, 0, i, h) <==> PlacedWithin(log, 0, i - 1, h) || PlacesHash(log[i - 1], h);
    }
  }

  /** What a reorg reopens in the full replay is queued exactly when the log has placed it. */
  lemma FullLandsIff(log: seq<Payload>, i: nat, h: TxHash, block: BlockHash)
    requires i <= |log| && OneSlotEach(log) && Reopens(Replay(EMPTY_POOL, log, i), h, block)
    ensures Lands(Replay(EMPTY_POOL, log, i), h) <==> PlacedWithin(log, 0, i, h)
  {
    hide Apply, OneSlotEach, FromLog, PlacedWithin, Replay;
    var m := Replay(EMPTY_POOL, log, i);
    KnowsSlotIff(EMPTY_POOL, log, i, h);
    ReplayIsTidy(log, i);
    assert forall s, n :: SlotHas(m, s, n, h) ==> IsPending(m.txs, h);
  }

  // ---------------------------------------------------------------- the condition on log and resumed state

  /**
    Event `i` of the log, met in the resumed state `r`: unless it is a reorg, nothing is
    asked. A reorg must find its hash confirmed in `r` exactly when the log left it so, and
    a place for it in a queue of `r` exactly when the log has placed it.
   */
  ghost predicate AlikeByLog(log: seq<Payload>, i: nat, r: Pool)
    requires i < |log|
  {
    log[i].TxReorged? ==>
      var h, block := log[i].hash, log[i].oldBlockHash;
      && (ConfirmedBy(log, i, h, block) <==> Reopens(r, h, block))
      && (Reopens(r, h, block) ==> (PlacedWithin(log, 0, i, h) <==> Lands(r, h)))
  }

  lemma AlikeIsByLog(log: seq<Payload>, i: nat, r: Pool)
    requires i < |log| && OneSlotEach(log)
    ensures Alike(Replay(EMPTY_POOL, log, i), r, log[i]) <==> AlikeByLog(log, i, r)
  {
    hide OneSlotEach, Replay, Reopens, Lands, ConfirmedBy, PlacedWithin;
    if log[i].TxReorged? {
      var h, block := log[i].hash, log[i].oldBlockHash;
      FullReopensIff(log, i, h, block);
      if Reopens(Replay(EMPTY_POOL, log, i), h, block) {
        FullLandsIff(log, i, h, block);
      }
    }
  }

  /** The resumed state after `j` events of the tail. */
  ghost function ResumedAfter(sorted: seq<Envelope>, k: nat, j: nat): Pool
    requires 0 < k && k + j <= |sorted|
  {
    StateAfter(SeededState(CheckpointAfter(sorted, k)), sorted[k..], j)
  }

  /** None of the first `i` tail events asks more of the resumed states than they have. */
  ghost predicate AlikeByLogThroughout(sorted: seq<Envelope>, k: nat, i: nat)
    requires 0 < k && k + i <= |sorted|
  {
    forall j :: 0 <= j < i ==> AlikeByLog(Payloads(sorted), k + j, ResumedAfter(sorted, k, j))
  }

  lemma AlikeAtTail(sorted: seq<Envelope>, k: nat, j: nat)
    requires 0 < k && k + j < |sorted| && OneSlotEach(Payloads(sorted))
    ensures var tail := Payloads(sorted[k..]);
      Alike(Replay(StateAfter(EMPTY_POOL, sorted, k), tail, j), ResumedAfter(sorted, k, j), tail[j]) <==>
      AlikeByLog(Payloads(sorted), k + j, ResumedAfter(sorted, k, j))
  {
    hide OneSlotEach, Replay, Alike, AlikeByLog, CheckpointAfter, SeededState;
    StateSplits(sorted, k, j);
    AlikeIsByLog(Payloads(sorted), k + j, ResumedAfter(sorted, k, j));
  }

  /**
    Checkpoint resume, exactly, without the full replay. Take a log with unique sequence ids
    in which every hash has one sender and nonce, and any checkpoint of it. Resuming there
    applies exactly the later events, and shows after each of them the pending hashes and
    the queues of the full replay, nonce by nonce and hash by hash, if and only if every
    reorg among them finds in the resumed state what the log says it should find.
   */
  lemma ResumeByLogIff(events: seq<Envelope>, k: nat, i: nat)
    requires UniqueSequence(events) && 0 < k && k + i <= |SortDeterministic(events)|
    requires OneSlotEach(Payloads(SortDeterministic(events)))
    ensures var sorted := SortDeterministic(events);
      && TailOf(events, CheckpointAfter(sorted, k).seqId) == sorted[k..]
      && ((forall j :: 0 < j <= i ==> ResumedFrameIsSame(sorted, k, j)) <==> AlikeByLogThroughout(sorted, k, i))
  {
    hide OneSlotEach, ResumedFrameIsSame, AlikeByLog, CheckpointAfter, SeededState, StateAfter, Alike;
    var sorted := SortDeterministic(events);
    ResumeShowsTheSameIff(events, k, i);
    ResumedFramesIff(sorted, k, i);
    AlikeEverywhere(sorted, k, i);
  }

  lemma AlikeEverywhere(sorted: seq<Envelope>, k: nat, i: nat)
    requires 0 < k && k + i <= |sorted| && OneSlotEach(Payloads(sorted))
    ensures var m, r := StateAfter(EMPTY_POOL, sorted, k), SeededState(CheckpointAfter(sorted, k));
      AlikeThroughout(m, r, Payloads(sorted[k..]), i) <==> AlikeByLogThroughout(sorted, k, i)
  {
    hide OneSlotEach, Replay, Alike, AlikeByLog, CheckpointAfter, SeededState;
    forall j | 0 <= j < i
      ensures var tail := Payloads(sorted[k..]);
        Alike(Replay(StateAfter(EMPTY_POOL, sorted, k), tail, j), ResumedAfter(sorted, k, j), tail[j]) <==>
        AlikeByLog(Payloads(sorted), k + j, ResumedAfter(sorted, k, j))
    {
      AlikeAtTail(sorted, k, j);
    }
  }

  // ---------------------------------------------------------------- hashes placed in the tail

  /** Both states know the slot of the hash, agree on its status, and queue it only while it is pending. */
  ghost predicate SameFate(a: Pool, b: Pool, h: TxHash) {
    Followed(a, h) && Followed(b, h) && a.txs[h].status == b.txs[h].status
  }

  ghost predicate Followed(m: Pool, h: TxHash) {
    KnowsSlot(m, h) && forall s, n :: SlotHas(m, s, n, h) ==> SlotIs(m, h, s, n) && IsPending(m.txs, h)
  }

  /** What an event makes of the status of a hash. */
  function NextStatus(p: Payload, h: TxHash, status: Status, displaced: bool): Status {
    match p
    case TxDecoded(tx) => if tx.hash == h then Pending else if displaced then ReplacedBy(tx.hash) else status
    case TxReady(g, _, _) => if g == h then Pending else status
    case TxBlocked(g, _, _, _) => if g == h then Pending else status
    case TxDropped(g, reason) => if g == h then Dropped(reason) else status
    case TxConfirmedProvisional(g, number, block) => if g == h then ConfirmedProvisional(number, block) else status
    case TxConfirmedFinal(g, number, block) => if g == h then ConfirmedFinal(number, block) else status
    case TxReplaced(g, newHash) => if g == h then ReplacedBy(newHash) else status
    case TxReorged(g, block, _) => if g == h && ConfirmedIn(status, block) then Pending else status
    case _ => status
  }

  /** A decoded transaction takes the slot the hash is shown in. */
  predicate Displaces(m: Pool, p: Payload, h: TxHash) {
    p.TxDecoded? && p.tx.hash != h && LiveAt(m, p.tx.sender, p.tx.nonce, h)
  }

  lemma FollowedStatus(m: Pool, p: Payload, h: TxHash)
    requires Followed(m, h)
    ensures h in Apply(m, p).txs && Apply(m, p).txs[h].status == NextStatus(p, h, m.txs[h].status, Displaces(m, p, h))
  {
    hide Apply;
    StatusAfter(m, p, h);
    assert p.TxDecoded? ==> (SlotHas(m, p.tx.sender, p.tx.nonce, h) <==> LiveAt(m, p.tx.sender, p.tx.nonce, h));
  }

  lemma FollowedAfter(m: Pool, p: Payload, log: seq<Payload>, h: TxHash, s: Address, n: U64)
    requires Followed(m, h) && FromLog(m, log) && OneSlotEach(log) && p in log && SlotHas(Apply(m, p), s, n, h)
    ensures SlotIs(Apply(m, p), h, s, n) && IsPending(Apply(m, p).txs, h)
  {
    hide Apply, Placed;
    assert SlotHas(m, s, n, h) ==> Placed(log, h, s, n);
    assert p.TxDecoded? && SilentlyReplaced(m, p.tx) == Some(h) ==> SlotHas(m, p.tx.sender, p.tx.nonce, h);
    QueueAfter(m, p, h, s, n);
    SlotAfter(m, p, h);
    StatusAfter(m, p, h);
    if PlacesHash(p, h) {
      var m' := Apply(m, p);
      PlacedByEvent(log, p, h, m'.txs[h].sender.value, m'.txs[h].nonce.value);
    }
  }

  lemma FollowedStep(m: Pool, p: Payload, log: seq<Payload>, h: TxHash)
    requires Followed(m, h) && FromLog(m, log) && OneSlotEach(log) && p in log
    ensures Followed(Apply(m, p), h)
  {
    hide Apply, FromLog, OneSlotEach, SlotHas;
    SlotAfter(m, p, h);
    forall s, n | SlotHas(Apply(m, p), s, n, h) ensures SlotIs(Apply(m, p), h, s, n) && IsPending(Apply(m, p).txs, h) {
      FollowedAfter(m, p, log, h, s, n);
    }
  }

  lemma PlacedIsFollowed(m: Pool, p: Payload, log: seq<Payload>, h: TxHash)
    requires PlacesHash(p, h) && FromLog(m, log) && OneSlotEach(log) && p in log
    ensures Followed(Apply(m, p), h) && Apply(m, p).txs[h].status.Pending?
  {
    hide Apply, Placed;
    var m' := Apply(m, p);
    SlotAfter(m, p, h);
    StatusAfter(m, p, h);
    PlacedByEvent(log, p, h, m'.txs[h].sender.value, m'.txs[h].nonce.value);
    StepFromLog(m, p, log);
  }

  lemma FateStep(a: Pool, b: Pool, p: Payload, log: seq<Payload>, h: TxHash)
    requires SameShown(a, b) && FromLog(a, log) && FromLog(b, log) && OneSlotEach(log) && p in log
    requires SameFate(a, b, h) || PlacesHash(p, h)
    ensures SameFate(Apply(a, p), Apply(b, p), h)
  {
    hide Apply, FromLog, OneSlotEach, Followed, LiveAt;
    if PlacesHash(p, h) {
      PlacedIsFollowed(a, p, log, h);
      PlacedIsFollowed(b, p, log, h);
    } else {
      FollowedStep(a, p, log, h);
      FollowedStep(b, p, log, h);
      FollowedStatus(a, p, h);
      FollowedStatus(b, p, h);
    }
  }

  /** Once the tail has placed a hash, both replays agree on its fate. */
  lemma {:induction false} PlacedFate(a: Pool, b: Pool, tail: seq<Payload>, i: nat, log: seq<Payload>, h: TxHash)
    requires i <= |tail| && SameThroughout(a, b, tail, i) && AlikeThroughout(a, b, tail, i)
    requires SameShown(a, b) && FromLog(a, log) && FromLog(b, log) && OneSlotEach(log)
    requires forall x :: 0 <= x < |tail| ==> tail[x] in log
    requires PlacedWithin(tail, 0, i, h)
    ensures SameFate(Replay(a, tail, i), Replay(b, tail, i), h)
  {
    hide Apply, FromLog, OneSlotEach, SameFate, SameShown, Alike;
    var a', b' := Replay(a, tail, i - 1), Replay(b, tail, i - 1);
    ReplayShowsSameIff(a, b, tail, i - 1, log);
    if PlacedWithin(tail, 0, i - 1, h) {
      PlacedFate(a, b, tail, i - 1, log, h);
    }
    assert SameShown(a', b');
    FateStep(a', b', tail[i - 1], log, h);
  }

  // ---------------------------------------------------------------- hashes the tail has not touched

  /** None of the first `i` events is about the hash. */
  ghost predicate Untouched(tail: seq<Payload>, i: nat, h: TxHash)
    requires i <= |tail|
  {
    forall x :: 0 <= x < i ==> !Concerns(tail[x], h)
  }

  lemma {:induction false} UntouchedUnconfirmed(r: Pool, tail: seq<Payload>, i: nat, h: TxHash, block: BlockHash)
    requires i <= |tail| && !Reopens(r, h, block) && Untouched(tail, i, h)
    ensures !Reopens(Replay(r, tail, i), h, block)
  {
    hide Apply;
    if i > 0 {
      UntouchedUnconfirmed(r, tail, i - 1, h, block);
      StatusAfter(Replay(r, tail, i - 1), tail[i - 1], h);
      assert !Concerns(tail[i - 1], h);
    }
  }

  lemma {:induction false} UntouchedConfirmed(log: seq<Payload>, k: nat, i: nat, h: TxHash, block: BlockHash)
    requires k + i <= |log| && Untouched(log[k..], i, h)
    ensures ConfirmedBy(log, k + i, h, block) <==> ConfirmedBy(log, k, h, block)
  {
    hide ConfirmedBy;
    if i > 0 {
      UntouchedConfirmed(log, k, i - 1, h, block);
      ConfirmedStep(log, k + i - 1, h, block);
      assert !Concerns(log[k..][i - 1], h);
    }
  }

  /** A reorg of a hash the tail has not touched is met alike exactly when the checkpoint did not have it confirmed. */
  lemma UntouchedAlikeIff(sorted: seq<Envelope>, k: nat, j: nat)
    requires 0 < k && k + j < |sorted| && OneSlotEach(Payloads(sorted)) && sorted[k + j].payload.TxReorged?
    requires Untouched(Payloads(sorted[k..]), j, sorted[k + j].payload.hash)
    ensures var p := sorted[k + j].payload;
      AlikeByLog(Payloads(sorted), k + j, ResumedAfter(sorted, k, j)) <==>
      !ConfirmedBy(Payloads(sorted), k, p.hash, p.oldBlockHash)
  {
    hide OneSlotEach, Replay, ConfirmedBy, Untouched, Reopens, Lands, PlacedWithin, PoolView, PendingHashes,
      FromCheckpoint;
    var p, log := sorted[k + j].payload, Payloads(sorted);
    NothingConfirmedAtCheckpoint(StateAfter(EMPTY_POOL, sorted, k), p.hash, p.oldBlockHash);
    assert Payloads(sorted[k..]) == log[k..];
    UntouchedUnconfirmed(SeededState(CheckpointAfter(sorted, k)), log[k..], j, p.hash, p.oldBlockHash);
    UntouchedConfirmed(log, k, j, p.hash, p.oldBlockHash);
  }

  // ---------------------------------------------------------------- conditions on the log alone

  /** Every reorg among the first `i` tail events is of a hash the tail has placed before, or not touched before. */
  ghost predicate PlainReorgs(tail: seq<Payload>, i: nat)
    requires i <= |tail|
  {
    forall j :: 0 <= j < i && tail[j].TxReorged? ==>
      PlacedWithin(tail, 0, j, tail[j].hash) || Untouched(tail, j, tail[j].hash)
  }

  /** One of the first `i` tail events reorgs a confirmation the checkpoint has forgotten. */
  ghost predicate Forgotten(log: seq<Payload>, k: nat, i: nat)
    requires k + i <= |log|
  {
    exists j :: 0 <= j < i && ForgottenAt(log, k, j)
  }

  ghost predicate ForgottenAt(log: seq<Payload>, k: nat, j: nat)
    requires k + j < |log|
  {
    && log[k + j].TxReorged?
    && Untouched(log[k..], j, log[k + j].hash)
    && ConfirmedBy(log, k, log[k + j].hash, log[k + j].oldBlockHash)
  }

  lemma PlainStep(sorted: seq<Envelope>, k: nat, j: nat)
    requires 0 < k && k + j < |sorted| && OneSlotEach(Payloads(sorted)) && PlainReorgs(Payloads(sorted[k..]), j + 1)
    requires AlikeByLogThroughout(sorted, k, j)
    ensures AlikeByLog(Payloads(sorted), k + j, ResumedAfter(sorted, k, j)) <==> !ForgottenAt(Payloads(sorted), k, j)
  {
    hide OneSlotEach, Replay, ConfirmedBy, Untouched, PlacedWithin, AlikeByLog, AlikeByLogThroughout, FromLog,
      SameShown, CheckpointAfter, SeededState, AlikeThroughout, SameThroughout, Alike, SameFate;
    var tail, p := Payloads(sorted[k..]), sorted[k + j].payload;
    assert tail == Payloads(sorted)[k..] && tail[j] == p;
    if p.TxReorged? {
      if Untouched(tail, j, p.hash) {
        UntouchedAlikeIff(sorted, k, j);
      } else {
        var m, r := StateAfter(EMPTY_POOL, sorted, k), SeededState(CheckpointAfter(sorted, k));
        CheckpointStates(sorted, k);
        AlikeEverywhere(sorted, k, j);
        ReplayShowsSameIff(m, r, tail, j, Payloads(sorted));
        PlacedFate(m, r, tail, j, Payloads(sorted), p.hash);
        SameFateIsAlike(Replay(m, tail, j), Replay(r, tail, j), p);
        AlikeAtTail(sorted, k, j);
      }
    } else {
      NoReorgIsAlike(Payloads(sorted), k + j, ResumedAfter(sorted, k, j));
    }
  }

  lemma SameFateIsAlike(a: Pool, b: Pool, p: Payload)
    requires p.TxReorged? && SameFate(a, b, p.hash)
    ensures Alike(a, b, p)
  {
  }

  lemma NoReorgIsAlike(log: seq<Payload>, i: nat, r: Pool)
    requires i < |log| && !log[i].TxReorged?
    ensures AlikeByLog(log, i, r)
  {
  }

  lemma {:induction false} PlainThroughout(sorted: seq<Envelope>, k: nat, i: nat)
    requires 0 < k && k + i <= |sorted| && OneSlotEach(Payloads(sorted)) && PlainReorgs(Payloads(sorted[k..]), i)
    ensures AlikeByLogThroughout(sorted, k, i) <==> !Forgotten(Payloads(sorted), k, i)
  {
    hide OneSlotEach, ForgottenAt, AlikeByLog, ResumedAfter, PlacedWithin, Untouched;
    if i > 0 {
      PlainThroughout(sorted, k, i - 1);
      if AlikeByLogThroughout(sorted, k, i - 1) {
        PlainStep(sorted, k, i - 1);
      }
      assert Forgotten(Payloads(sorted), k, i) <==>
        Forgotten(Payloads(sorted), k, i - 1) || ForgottenAt(Payloads(sorted), k, i - 1);
    }
  }

  /**
    The same on the log alone. When every reorg of the tail is of a hash that the tail has
    decoded, readied or blocked before, or has not touched before, the resumed frames are
    those of the full replay exactly when no untouched one undoes a confirmation from
    before the checkpoint. Placing every reorged hash in the tail is therefore enough.
   */
  lemma PlainReorgsIff(sorted: seq<Envelope>, k: nat, i: nat)
    requires 0 < k && k + i <= |sorted| && OneSlotEach(Payloads(sorted)) && PlainReorgs(Payloads(sorted[k..]), i)
    ensures (forall j :: 0 < j <= i ==> ResumedFrameIsSame(sorted, k, j)) <==> !Forgotten(Payloads(sorted), k, i)
  {
    hide OneSlotEach, ResumedFrameIsSame, AlikeThroughout, AlikeByLogThroughout, Forgotten, PlainReorgs;
    ResumedFramesIff(sorted, k, i);
    AlikeEverywhere(sorted, k, i);
    PlainThroughout(sorted, k, i);
  }

  // ---------------------------------------------------------------- a reorg that is missed

  /** A hash a state does not know stays unknown while no event is about it. */
  lemma {:induction false} UnknownStays(r: Pool, tail: seq<Payload>, i: nat, h: TxHash)
    requires i <= |tail| && h !in r.txs && Untouched(tail, i, h)
    ensures h !in Replay(r, tail, i).txs
  {
    hide Apply;
    if i > 0 {
      UnknownStays(r, tail, i - 1, h);
      StatusAfter(Replay(r, tail, i - 1), tail[i - 1], h);
      assert !Concerns(tail[i - 1], h);
    }
  }

  /**
    Wherever it stands in the tail, a reorg that undoes a confirmation from before the
    checkpoint, of a hash the tail has not touched, is missed: the full replay shows the
    transaction pending again, the resumed one does not know it.
   */
  lemma ForgottenIsMissed(sorted: seq<Envelope>, k: nat, j: nat)
    requires 0 < k && k + j < |sorted| && OneSlotEach(Payloads(sorted)) && ForgottenAt(Payloads(sorted), k, j)
    ensures var h := sorted[k + j].payload.hash;
      && h in PendingHashes(StateAfter(EMPTY_POOL, sorted, k + j + 1))
      && h !in ResumedAfter(sorted, k, j + 1).txs
      && !ResumedFrameIsSame(sorted, k, j + 1)
  {
    hide OneSlotEach, Replay, ConfirmedBy, Apply, PoolView, FromCheckpoint, SeedPending, SameShown;
    var p, log := sorted[k + j].payload, Payloads(sorted);
    var m, full := StateAfter(EMPTY_POOL, sorted, k), StateAfter(EMPTY_POOL, sorted, k + j);
    assert Payloads(sorted[k..]) == log[k..];
    UntouchedConfirmed(log, k, j, p.hash, p.oldBlockHash);
    FullReopensIff(log, k + j, p.hash, p.oldBlockHash);
    FullReopensIff(log, k, p.hash, p.oldBlockHash);
    NextState(EMPTY_POOL, sorted, k + j);
    StatusAfter(full, p, p.hash);
    ForgottenIsUnknown(sorted, k, p.hash, p.oldBlockHash);
    var r := SeededState(CheckpointAfter(sorted, k));
    UnknownStays(r, log[k..], j, p.hash);
    NextState(r, sorted[k..], j);
    StatusAfter(ResumedAfter(sorted, k, j), p, p.hash);
    SameFrameIff(sorted, k, j + 1);
    StateSplits(sorted, k, j + 1);
    ShownPending(StateAfter(EMPTY_POOL, sorted, k + j + 1), ResumedAfter(sorted, k, j + 1), p.hash);
  }

  lemma ShownPending(a: Pool, b: Pool, h: TxHash)
    requires IsPending(a.txs, h) && !IsPending(b.txs, h)
    ensures !SameShown(a, b)
  {
  }

  lemma ForgottenIsUnknown(sorted: seq<Envelope>, k: nat, h: TxHash, block: BlockHash)
    requires 0 < k <= |sorted| && OneSlotEach(Payloads(sorted)) && Reopens(StateAfter(EMPTY_POOL, sorted, k), h, block)
    ensures h !in SeededState(CheckpointAfter(sorted, k)).txs
  {
    hide OneSlotEach, PoolView, FromCheckpoint, SeedPending, SameShown, FromLog, Replay;
    var m := StateAfter(EMPTY_POOL, sorted, k);
    ReplayFromLog(Payloads(sorted), k);
    CheckpointShowsSame(m, Payloads(sorted));
    var hashes := Ascending(PendingHashes(m));
    SeedPendingIs(hashes, |hashes|, h);
    assert h in hashes ==> h in PendingHashes(m);
  }
}
