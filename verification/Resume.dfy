/**
  Resuming a replay from a checkpoint. A resumed state does not know the slots of the
  transactions it was seeded with, so its queues keep stale entries the full replay
  drops. What both show of pending transactions stays the same all the same, until a
  reorg takes one branch in one of them and another in the other.
 */
module Resume {
  import opened Prelude
  import opened NonceGap
  import opened SchedulerModel
  import opened EventLog
  import opened Mempool

  // ---------------------------------------------------------------- slots named by a log

  /** The event puts a hash into a slot. */
  predicate Places(p: Payload, h: TxHash, s: Address, n: U64) {
    match p
    case TxDecoded(tx) => tx.hash == h && tx.sender == s && tx.nonce == n
    case TxReady(h', s', n') => h' == h && s' == s && n' == n
    case TxBlocked(h', s', n', _) => h' == h && s' == s && n' == n
    case _ => false
  }

  ghost predicate Placed(log: seq<Payload>, h: TxHash, s: Address, n: U64) {
    exists i :: 0 <= i < |log| && Places(log[i], h, s, n)
  }

  /** Every hash has one sender and nonce throughout the log. */
  ghost predicate OneSlotEach(log: seq<Payload>) {
    forall h, s, n, s', n' :: Placed(log, h, s, n) && Placed(log, h, s', n') ==> s == s' && n == n'
  }

  /** A state whose slots are all named by the log. */
  ghost predicate FromLog(m: Pool, log: seq<Payload>) {
    && (forall s, n :: s in m.queues && n in m.queues[s] ==> Placed(log, m.queues[s][n], s, n))
    && (forall h :: h in m.txs && m.txs[h].sender.Some? && m.txs[h].nonce.Some? ==>
          Placed(log, h, m.txs[h].sender.value, m.txs[h].nonce.value))
  }

  // ---------------------------------------------------------------- what is shown

  /** A pending transaction is queued in a slot. */
  predicate LiveAt(m: Pool, s: Address, n: U64, h: TxHash) {
    s in m.queues && n in m.queues[s] && m.queues[s][n] == h && IsPending(m.txs, h)
  }

  /** The slot holds a hash, pending or not. */
  predicate SlotHas(m: Pool, s: Address, n: U64, h: TxHash) {
    s in m.queues && n in m.queues[s] && m.queues[s][n] == h
  }

  /** The same pending transactions, queued in the same slots. */
  ghost predicate SameShown(a: Pool, b: Pool) {
    && (forall h :: IsPending(a.txs, h) <==> IsPending(b.txs, h))
    && (forall s, n, h :: LiveAt(a, s, n, h) <==> LiveAt(b, s, n, h))
  }

  // ---------------------------------------------------------------- one event, as it is shown

  lemma RecomputeLiveAt(m: Pool, s0: Address, s: Address, n: U64, h: TxHash)
    requires SameButStates(m.txs, Recompute(m, s0).txs)
    ensures LiveAt(m, s, n, h) <==> LiveAt(Recompute(m, s0), s, n, h)
  {
    hide Relabel;
    if s0 in m.queues && s == s0 {
      var kept := KeepLive(m.txs, m.queues[s0]);
      assert n in kept <==> n in m.queues[s0] && IsPending(m.txs, m.queues[s0][n]);
    }
  }

  lemma RecomputeFromLog(m: Pool, s0: Address, log: seq<Payload>)
    requires SameButStates(m.txs, Recompute(m, s0).txs) && FromLog(m, log)
    ensures FromLog(Recompute(m, s0), log)
  {
    hide Relabel, Placed;
    var m' := Recompute(m, s0);
    forall s, n | s in m'.queues && n in m'.queues[s] ensures Placed(log, m'.queues[s][n], s, n) {
      assert s in m.queues && n in m.queues[s] && m'.queues[s][n] == m.queues[s][n];
    }
  }

  lemma RecomputeShows(m: Pool, s0: Address, log: seq<Payload>)
    requires FromLog(m, log)
    ensures SameShown(m, Recompute(m, s0)) && FromLog(Recompute(m, s0), log)
  {
    hide Relabel, FromLog, LiveAt;
    if s0 in m.queues {
      RelabelKeeps(m.txs, m.queues[s0]);
    }
    forall s, n, h ensures LiveAt(m, s, n, h) <==> LiveAt(Recompute(m, s0), s, n, h) {
      RecomputeLiveAt(m, s0, s, n, h);
    }
    RecomputeFromLog(m, s0, log);
  }

  /** After a pending spell ends, exactly that hash is gone from what is shown. */
  ghost predicate Without(m: Pool, m': Pool, gone: TxHash) {
    && (forall h :: IsPending(m'.txs, h) <==> IsPending(m.txs, h) && h != gone)
    && (forall s, n, h :: LiveAt(m', s, n, h) <==> LiveAt(m, s, n, h) && h != gone)
  }

  lemma SettleShows(m: Pool, h: TxHash, status: Status, log: seq<Payload>)
    requires !status.Pending? && FromLog(m, log)
    ensures var m' := m.(txs := Settle(m.txs, h, status)); Without(m, m', h) && FromLog(m', log)
  {
  }

  lemma RemoveEntryShows(m: Pool, h: TxHash, s0: Address, n0: U64, log: seq<Payload>)
    requires !IsPending(m.txs, h) && FromLog(m, log)
    ensures SameShown(m, RemoveEntry(m, h, s0, n0)) && FromLog(RemoveEntry(m, h, s0, n0), log)
  {
    hide Placed;
    var m' := RemoveEntry(m, h, s0, n0);
    forall s, n, x ensures LiveAt(m, s, n, x) <==> LiveAt(m', s, n, x) {
      if s0 in m.queues && s == s0 {
        var q := m.queues[s0];
        var q' := if n0 in q && q[n0] == h then q - {n0} else q;
        assert s in m'.queues <==> q' != map[];
        assert n in q' ==> q' != map[];
      }
    }
  }

  lemma SettledShows(m: Pool, h: TxHash, status: Status, log: seq<Payload>)
    requires !status.Pending? && FromLog(m, log)
    ensures Without(m, ApplySettled(m, h, status), h) && FromLog(ApplySettled(m, h, status), log)
  {
    hide FromLog, Settle, Recompute, RemoveEntry;
    SettleShows(m, h, status, log);
    var m' := m.(txs := Settle(m.txs, h, status));
    if h in m.txs && m.txs[h].sender.Some? && m.txs[h].nonce.Some? {
      var s0, n0 := m.txs[h].sender.value, m.txs[h].nonce.value;
      RemoveEntryShows(m', h, s0, n0, log);
      RecomputeShows(RemoveEntry(m', h, s0, n0), s0, log);
    }
  }

  /** One hash becomes pending in a slot; every other slot shows what it showed. */
  ghost predicate With(m: Pool, m': Pool, h0: TxHash, s0: Address, n0: U64) {
    && (forall h :: IsPending(m'.txs, h) <==> IsPending(m.txs, h) || h == h0)
    && (forall s, n, h :: LiveAt(m', s, n, h) <==> if s == s0 && n == n0 then h == h0 else LiveAt(m, s, n, h))
  }

  lemma EnsureShows(m: Pool, h0: TxHash, s0: Address, n0: U64, log: seq<Payload>)
    requires FromLog(m, log) && Placed(log, h0, s0, n0) && OneSlotEach(log)
    ensures With(m, Ensure(m, h0, s0, n0), h0, s0, n0) && FromLog(Ensure(m, h0, s0, n0), log)
  {
    hide Placed;
    var m' := Ensure(m, h0, s0, n0);
    forall s, n, h ensures LiveAt(m', s, n, h) <==> if s == s0 && n == n0 then h == h0 else LiveAt(m, s, n, h) {
      if s in m.queues && n in m.queues[s] && m.queues[s][n] == h0 {
        assert Placed(log, h0, s, n);
      }
    }
  }

  lemma QueueStateShows(m: Pool, h0: TxHash, s0: Address, n0: U64, state: Option<QueueState>, log: seq<Payload>)
    requires FromLog(m, log) && Placed(log, h0, s0, n0) && OneSlotEach(log)
    ensures With(m, ApplyQueueState(m, h0, s0, n0, state), h0, s0, n0)
    ensures FromLog(ApplyQueueState(m, h0, s0, n0, state), log)
  {
    hide Placed, OneSlotEach, Recompute, Ensure;
    var placed := Ensure(m, h0, s0, n0);
    EnsureShows(m, h0, s0, n0, log);
    RecomputeShows(placed, s0, log);
    SetStateShows(Recompute(placed, s0), h0, state, log);
  }

  lemma SetStateShows(m: Pool, h: TxHash, state: Option<QueueState>, log: seq<Payload>)
    requires FromLog(m, log)
    ensures var m' := m.(txs := SetQueueState(m.txs, h, state)); SameShown(m, m') && FromLog(m', log)
  {
  }

  /** The occupant a decoded transaction pushes out of its slot. */
  function Displaced(m: Pool, tx: Tx): Option<TxHash> {
    if tx.sender in m.queues && tx.nonce in m.queues[tx.sender] && m.queues[tx.sender][tx.nonce] != tx.hash then
      Some(m.queues[tx.sender][tx.nonce])
    else None
  }

  /** The state between the displacement and the queueing of a decoded transaction. */
  function AfterDisplacing(m: Pool, tx: Tx): Pool {
    var old' := Displaced(m, tx);
    if old'.Some? && old'.value in m.txs then m.(txs := Settle(m.txs, old'.value, ReplacedBy(tx.hash))) else m
  }

  ghost predicate ShowsDisplacement(m: Pool, m': Pool, tx: Tx) {
    && (forall h ::
          IsPending(m'.txs, h) <==> IsPending(m.txs, h) && !(LiveAt(m, tx.sender, tx.nonce, h) && h != tx.hash))
    && (forall s, n, h ::
          LiveAt(m', s, n, h) <==> LiveAt(m, s, n, h) && !(LiveAt(m, tx.sender, tx.nonce, h) && h != tx.hash))
  }

  lemma DisplacingShows(m: Pool, tx: Tx, log: seq<Payload>)
    requires FromLog(m, log)
    ensures ShowsDisplacement(m, AfterDisplacing(m, tx), tx) && FromLog(AfterDisplacing(m, tx), log)
  {
    hide FromLog;
    var displaced := Displaced(m, tx);
    if displaced.Some? && displaced.value in m.txs {
      SettleShows(m, displaced.value, ReplacedBy(tx.hash), log);
    }
  }

  lemma DecodedShows(m: Pool, tx: Tx, log: seq<Payload>)
    requires FromLog(m, log) && Placed(log, tx.hash, tx.sender, tx.nonce) && OneSlotEach(log)
    ensures With(AfterDisplacing(m, tx), ApplyDecoded(m, tx), tx.hash, tx.sender, tx.nonce)
    ensures FromLog(ApplyDecoded(m, tx), log)
  {
    hide Placed, OneSlotEach, Recompute, FromLog;
    var m1 := AfterDisplacing(m, tx);
    DisplacingShows(m, tx, log);
    EnsureShows(m1, tx.hash, tx.sender, tx.nonce, log);
    RecomputeShows(Ensure(m1, tx.hash, tx.sender, tx.nonce), tx.sender, log);
    assert m.(txs := m1.txs) == m1;
  }

  // ---------------------------------------------------------------- two states side by side

  lemma SameDisplacement(a: Pool, b: Pool, tx: Tx, log: seq<Payload>)
    requires SameShown(a, b) && FromLog(a, log) && FromLog(b, log)
    ensures SameShown(AfterDisplacing(a, tx), AfterDisplacing(b, tx))
  {
    hide FromLog, AfterDisplacing, LiveAt;
    DisplacingShows(a, tx, log);
    DisplacingShows(b, tx, log);
  }

  lemma SameWith(a: Pool, b: Pool, a': Pool, b': Pool, h: TxHash, s: Address, n: U64)
    requires SameShown(a, b) && With(a, a', h, s, n) && With(b, b', h, s, n)
    ensures SameShown(a', b')
  {
    hide LiveAt;
  }

  lemma SameWithout(a: Pool, b: Pool, a': Pool, b': Pool, h: TxHash)
    requires SameShown(a, b) && Without(a, a', h) && Without(b, b', h)
    ensures SameShown(a', b')
  {
    hide LiveAt;
  }

  lemma ReplacedShows(m: Pool, h: TxHash, newHash: TxHash, log: seq<Payload>)
    requires FromLog(m, log)
    ensures Without(m, ApplyReplaced(m, h, newHash), h) && FromLog(ApplyReplaced(m, h, newHash), log)
  {
    hide FromLog, ApplySettled;
    if h in m.txs {
      SettledShows(m, h, ReplacedBy(newHash), log);
    }
  }

  /** The hash an event takes out of the pending set, if it is such an event. */
  function Ends(p: Payload): Option<TxHash> {
    if p.TxDropped? || p.TxConfirmedProvisional? || p.TxConfirmedFinal? || p.TxReplaced? then Some(p.hash) else None
  }

  lemma EndingShows(m: Pool, p: Payload, log: seq<Payload>)
    requires FromLog(m, log) && Ends(p).Some?
    ensures Without(m, Apply(m, p), Ends(p).value) && FromLog(Apply(m, p), log)
  {
    hide FromLog, ApplySettled, ApplyReplaced, Without;
    match p
    case TxDropped(h, reason) => SettledShows(m, h, Dropped(reason), log);
    case TxConfirmedProvisional(h, number, block) => SettledShows(m, h, ConfirmedProvisional(number, block), log);
    case TxConfirmedFinal(h, number, block) => SettledShows(m, h, ConfirmedFinal(number, block), log);
    case TxReplaced(h, newHash) => ReplacedShows(m, h, newHash, log);
  }

  lemma QueueingShows(m: Pool, p: Payload, log: seq<Payload>)
    requires FromLog(m, log) && OneSlotEach(log) && p in log && (p.TxReady? || p.TxBlocked?)
    ensures With(m, Apply(m, p), p.hash, p.sender, p.nonce) && FromLog(Apply(m, p), log)
  {
    hide FromLog, With, OneSlotEach;
    PlacedByEvent(log, p, p.hash, p.sender, p.nonce);
    match p
    case TxReady(h, s, n) => QueueStateShows(m, h, s, n, Some(Ready), log);
    case TxBlocked(h, s, n, expected) =>
      QueueStateShows(m, h, s, n, if expected.Some? then Some(Blocked(expected.value)) else None, log);
  }

  lemma PlacedByEvent(log: seq<Payload>, p: Payload, h: TxHash, s: Address, n: U64)
    requires p in log && Places(p, h, s, n)
    ensures Placed(log, h, s, n)
  {
  }

  /** Any event but a reorg keeps two states that show the same showing the same. */
  lemma StepShowsSame(a: Pool, b: Pool, p: Payload, log: seq<Payload>)
    requires SameShown(a, b) && FromLog(a, log) && FromLog(b, log)
    requires OneSlotEach(log) && p in log && !p.TxReorged?
    ensures SameShown(Apply(a, p), Apply(b, p)) && FromLog(Apply(a, p), log) && FromLog(Apply(b, p), log)
  {
    hide SameShown, FromLog, OneSlotEach, With, Without, ApplyDecoded, ApplySettled, ApplyReplaced, ApplyQueueState,
      Placed, AfterDisplacing;
    if Ends(p).Some? {
      EndingShows(a, p, log);
      EndingShows(b, p, log);
      SameWithout(a, b, Apply(a, p), Apply(b, p), Ends(p).value);
    } else if p.TxReady? || p.TxBlocked? {
      QueueingShows(a, p, log);
      QueueingShows(b, p, log);
      SameWith(a, b, Apply(a, p), Apply(b, p), p.hash, p.sender, p.nonce);
    } else if p.TxDecoded? {
      var tx := p.tx;
      PlacedByEvent(log, p, tx.hash, tx.sender, tx.nonce);
      DecodedShows(a, tx, log);
      DecodedShows(b, tx, log);
      SameDisplacement(a, b, tx, log);
      SameWith(AfterDisplacing(a, tx), AfterDisplacing(b, tx), Apply(a, p), Apply(b, p), tx.hash, tx.sender, tx.nonce);
    }
  }

  // ---------------------------------------------------------------- any prefix, reorgs included

  lemma ReorgFromLog(m: Pool, h: TxHash, block: BlockHash, log: seq<Payload>)
    requires FromLog(m, log) && OneSlotEach(log)
    ensures FromLog(ApplyReorged(m, h, block), log)
  {
    hide OneSlotEach, Recompute, Ensure;
    if h in m.txs && ConfirmedIn(m.txs[h].status, block) {
      var e := m.txs[h];
      var reopened := m.(txs := m.txs[h := e.(status := Pending)]);
      assert FromLog(reopened, log);
      if e.sender.Some? && e.nonce.Some? {
        EnsureShows(reopened, h, e.sender.value, e.nonce.value, log);
        RecomputeShows(Ensure(reopened, h, e.sender.value, e.nonce.value), e.sender.value, log);
      }
    }
  }

  lemma StepFromLog(m: Pool, p: Payload, log: seq<Payload>)
    requires FromLog(m, log) && OneSlotEach(log) && p in log
    ensures FromLog(Apply(m, p), log)
  {
    hide FromLog, OneSlotEach, ApplyReorged, SameShown;
    if p.TxReorged? {
      ReorgFromLog(m, p.hash, p.oldBlockHash, log);
    } else {
      ShowsItself(m);
      StepShowsSame(m, m, p, log);
    }
  }

  lemma ShowsItself(m: Pool)
    ensures SameShown(m, m)
  {
  }

  // ---------------------------------------------------------------- reorgs, exactly

  /** A reorg of the block reopens the transaction. */
  predicate Reopens(m: Pool, h: TxHash, block: BlockHash) {
    h in m.txs && ConfirmedIn(m.txs[h].status, block)
  }

  predicate KnowsSlot(m: Pool, h: TxHash) {
    h in m.txs && m.txs[h].sender.Some? && m.txs[h].nonce.Some?
  }

  /** A reopened transaction is queued: its slot is recorded, or it never left a queue. */
  ghost predicate Lands(m: Pool, h: TxHash) {
    KnowsSlot(m, h) || exists s, n :: SlotHas(m, s, n, h)
  }

  /** The guards of a reorg take the same branches in both states. */
  ghost predicate ReopensAlike(a: Pool, b: Pool, h: TxHash, block: BlockHash) {
    && (Reopens(a, h, block) <==> Reopens(b, h, block))
    && (Reopens(a, h, block) ==> (Lands(a, h) <==> Lands(b, h)))
  }

  /** A hash becomes pending without being queued. */
  ghost predicate Unqueued(m: Pool, m': Pool, h0: TxHash) {
    && (forall h :: IsPending(m'.txs, h) <==> IsPending(m.txs, h) || h == h0)
    && (forall s, n, h :: LiveAt(m', s, n, h) <==> LiveAt(m, s, n, h))
  }

  /** The table part of reopening a transaction. */
  function Reopened(m: Pool, h: TxHash): Pool
    requires h in m.txs
  {
    m.(txs := m.txs[h := m.txs[h].(status := Pending)])
  }

  /** Wherever a log puts a hash that lands, it lands there. */
  lemma LandingShows(m: Pool, h: TxHash, block: BlockHash, s0: Address, n0: U64, log: seq<Payload>)
    requires FromLog(m, log) && OneSlotEach(log) && Reopens(m, h, block)
    requires Lands(m, h) && Placed(log, h, s0, n0)
    ensures With(m, ApplyReorged(m, h, block), h, s0, n0)
  {
    hide Placed, Recompute, Ensure;
    var reopened := Reopened(m, h);
    assert FromLog(reopened, log);
    assert forall s, n :: SlotHas(m, s, n, h) ==> Placed(log, h, s, n);
    if KnowsSlot(m, h) {
      assert Placed(log, h, m.txs[h].sender.value, m.txs[h].nonce.value);
      EnsureShows(reopened, h, s0, n0, log);
      RecomputeShows(Ensure(reopened, h, s0, n0), s0, log);
      assert With(reopened, ApplyReorged(m, h, block), h, s0, n0);
    }
    assert forall s, n, x :: LiveAt(reopened, s, n, x) <==> LiveAt(m, s, n, x) || (x == h && SlotHas(m, s, n, h));
  }

  lemma NotLandingShows(m: Pool, h: TxHash, block: BlockHash)
    requires Reopens(m, h, block) && !Lands(m, h)
    ensures Unqueued(m, ApplyReorged(m, h, block), h)
  {
    hide Recompute, Ensure;
    assert ApplyReorged(m, h, block) == Reopened(m, h);
    forall s, n, x ensures LiveAt(Reopened(m, h), s, n, x) <==> LiveAt(m, s, n, x) {
      assert !SlotHas(m, s, n, h);
    }
  }

  lemma LandingSlot(m: Pool, h: TxHash, log: seq<Payload>) returns (s: Address, n: U64)
    requires FromLog(m, log) && Lands(m, h)
    ensures Placed(log, h, s, n)
  {
    hide Placed;
    if KnowsSlot(m, h) {
      s, n := m.txs[h].sender.value, m.txs[h].nonce.value;
    } else {
      s, n :| SlotHas(m, s, n, h);
    }
  }

  lemma OneReopens(a: Pool, b: Pool, h: TxHash, block: BlockHash, log: seq<Payload>)
    requires SameShown(a, b) && FromLog(a, log) && OneSlotEach(log)
    requires Reopens(a, h, block) && !Reopens(b, h, block)
    ensures !SameShown(ApplyReorged(a, h, block), ApplyReorged(b, h, block))
  {
    hide FromLog, OneSlotEach, LiveAt, ApplyReorged, Lands;
    ReopenedIsPending(a, h, block, log);
    assert !IsPending(b.txs, h);
    NothingReopened(b, h, block);
  }

  lemma NothingReopened(m: Pool, h: TxHash, block: BlockHash)
    requires !Reopens(m, h, block)
    ensures ApplyReorged(m, h, block) == m
  {
  }

  lemma ReopenedIsPending(m: Pool, h: TxHash, block: BlockHash, log: seq<Payload>)
    requires FromLog(m, log) && OneSlotEach(log) && Reopens(m, h, block)
    ensures !IsPending(m.txs, h) && IsPending(ApplyReorged(m, h, block).txs, h)
  {
    hide FromLog, OneSlotEach, LiveAt, ApplyReorged, Lands, Placed;
    if Lands(m, h) {
      var s, n := LandingSlot(m, h, log);
      LandingShows(m, h, block, s, n, log);
    } else {
      NotLandingShows(m, h, block);
    }
  }

  lemma BothReopen(a: Pool, b: Pool, h: TxHash, block: BlockHash, log: seq<Payload>)
    requires SameShown(a, b) && FromLog(a, log) && FromLog(b, log) && OneSlotEach(log)
    requires Reopens(a, h, block) && Reopens(b, h, block) && Lands(a, h)
    ensures SameShown(ApplyReorged(a, h, block), ApplyReorged(b, h, block)) <==> Lands(b, h)
  {
    hide FromLog, OneSlotEach, ApplyReorged, Lands, Placed;
    var s, n := LandingSlot(a, h, log);
    LandingShows(a, h, block, s, n, log);
    if Lands(b, h) {
      LandingShows(b, h, block, s, n, log);
      SameWith(a, b, ApplyReorged(a, h, block), ApplyReorged(b, h, block), h, s, n);
    } else {
      NotLandingShows(b, h, block);
      assert LiveAt(ApplyReorged(a, h, block), s, n, h) && !LiveAt(ApplyReorged(b, h, block), s, n, h);
    }
  }

  lemma SameUnqueued(a: Pool, b: Pool, a': Pool, b': Pool, h: TxHash)
    requires SameShown(a, b) && Unqueued(a, a', h) && Unqueued(b, b', h)
    ensures SameShown(a', b')
  {
    hide LiveAt;
  }

  lemma ShowsBothWays(a: Pool, b: Pool)
    ensures SameShown(a, b) <==> SameShown(b, a)
  {
    hide LiveAt;
  }

  /** A reorg keeps two states showing the same exactly when its guards agree on them. */
  lemma ReorgShowsSameIff(a: Pool, b: Pool, h: TxHash, block: BlockHash, log: seq<Payload>)
    requires SameShown(a, b) && FromLog(a, log) && FromLog(b, log) && OneSlotEach(log)
    ensures SameShown(ApplyReorged(a, h, block), ApplyReorged(b, h, block)) <==> ReopensAlike(a, b, h, block)
  {
    hide SameShown, FromLog, OneSlotEach, ApplyReorged, Lands, Reopens, Unqueued;
    var a', b' := ApplyReorged(a, h, block), ApplyReorged(b, h, block);
    ShowsBothWays(a, b);
    ShowsBothWays(a', b');
    if Reopens(a, h, block) && Reopens(b, h, block) {
      if Lands(a, h) {
        BothReopen(a, b, h, block, log);
      } else if Lands(b, h) {
        BothReopen(b, a, h, block, log);
      } else {
        NotLandingShows(a, h, block);
        NotLandingShows(b, h, block);
        SameUnqueued(a, b, a', b', h);
      }
    } else if Reopens(a, h, block) {
      OneReopens(a, b, h, block, log);
    } else if Reopens(b, h, block) {
      OneReopens(b, a, h, block, log);
    } else {
      NothingReopened(a, h, block);
      NothingReopened(b, h, block);
    }
  }

  /** One event keeps two states showing the same exactly when no reorg tells them apart. */
  ghost predicate Alike(a: Pool, b: Pool, p: Payload) {
    p.TxReorged? ==> ReopensAlike(a, b, p.hash, p.oldBlockHash)
  }

  lemma StepShowsSameIff(a: Pool, b: Pool, p: Payload, log: seq<Payload>)
    requires SameShown(a, b) && FromLog(a, log) && FromLog(b, log) && OneSlotEach(log) && p in log
    ensures SameShown(Apply(a, p), Apply(b, p)) <==> Alike(a, b, p)
  {
    hide SameShown, FromLog, OneSlotEach, ApplyReorged, ReopensAlike;
    if p.TxReorged? {
      ReorgShowsSameIff(a, b, p.hash, p.oldBlockHash, log);
    } else {
      StepShowsSame(a, b, p, log);
    }
  }

  /** Both replays of a tail show the same after each of its first `i` events. */
  ghost predicate SameThroughout(a: Pool, b: Pool, tail: seq<Payload>, i: nat)
    requires i <= |tail|
  {
    forall j :: 0 <= j <= i ==> SameShown(Replay(a, tail, j), Replay(b, tail, j))
  }

  /** None of the first `i` events is a reorg that tells the two replays apart. */
  ghost predicate AlikeThroughout(a: Pool, b: Pool, tail: seq<Payload>, i: nat)
    requires i <= |tail|
  {
    forall j :: 0 <= j < i ==> Alike(Replay(a, tail, j), Replay(b, tail, j), tail[j])
  }

  lemma {:induction false} ReplayShowsSameIff(a: Pool, b: Pool, tail: seq<Payload>, i: nat, log: seq<Payload>)
    requires i <= |tail| && SameShown(a, b) && FromLog(a, log) && FromLog(b, log) && OneSlotEach(log)
    requires forall k :: 0 <= k < |tail| ==> tail[k] in log
    ensures SameThroughout(a, b, tail, i) <==> AlikeThroughout(a, b, tail, i)
    ensures FromLog(Replay(a, tail, i), log) && FromLog(Replay(b, tail, i), log)
  {
    hide SameShown, FromLog, OneSlotEach, Apply, Alike;
    if i > 0 {
      ReplayShowsSameIff(a, b, tail, i - 1, log);
      var a', b' := Replay(a, tail, i - 1), Replay(b, tail, i - 1);
      StepFromLog(a', tail[i - 1], log);
      StepFromLog(b', tail[i - 1], log);
      if SameShown(a', b') {
        StepShowsSameIff(a', b', tail[i - 1], log);
      }
      assert SameThroughout(a, b, tail, i) <==>
        SameThroughout(a, b, tail, i - 1) && SameShown(Replay(a, tail, i), Replay(b, tail, i));
      assert AlikeThroughout(a, b, tail, i) <==> AlikeThroughout(a, b, tail, i - 1) && Alike(a', b', tail[i - 1]);
    }
  }

  lemma {:induction false} ReplayFromLog(log: seq<Payload>, i: nat)
    requires i <= |log| && OneSlotEach(log)
    ensures FromLog(Replay(EMPTY_POOL, log, i), log)
  {
    hide FromLog, OneSlotEach, Apply;
    if i == 0 {
      EmptyFromLog(log);
    } else {
      ReplayFromLog(log, i - 1);
      StepFromLog(Replay(EMPTY_POOL, log, i - 1), log[i - 1], log);
    }
  }

  lemma EmptyFromLog(log: seq<Payload>)
    ensures FromLog(EMPTY_POOL, log)
  {
  }
}
