/**
  What a resumed replay does not keep: the Ready and Blocked labels. A transaction that
  ends with an unknown slot has its queue relabelled in the full replay only.
 */
module ResumeLabels {
  import opened Prelude
  import opened Ordered
  import opened NonceGap
  import opened SchedulerModel
  import opened EventLog
  import opened Mempool
  import opened Resume
  import opened CheckpointResume
  import opened ResumeLog

  /** The label a frame shows for a queued transaction. */
  ghost function ShownLabel(m: Pool, s: Address, n: U64): QueueState
    requires s in m.queues && n in LiveNonces(m.txs, m.queues[s])
  {
    StateOr(m.txs, m.queues[s][n], Label(LiveNonces(m.txs, m.queues[s]), n))
  }

  lemma LogQueueIsInjective(m: Pool, s: Address, log: seq<Payload>)
    requires FromLog(m, log) && OneSlotEach(log) && s in m.queues
    ensures Injective(m.queues[s])
  {
    hide Placed;
  }

  /** A recomputation keeps the live entries of the queue and stores their labels. */
  lemma RecomputedLabel(m: Pool, s: Address, n: U64)
    requires s in m.queues && Injective(m.queues[s]) && n in LiveNonces(m.txs, m.queues[s])
    ensures var m', live := Recompute(m, s), LiveNonces(m.txs, m.queues[s]);
      && LiveAt(m', s, n, m.queues[s][n]) && LiveNonces(m'.txs, m'.queues[s]) == live
      && m'.txs[m.queues[s][n]].queueState == Some(Label(live, n))
  {
    hide Label, Relabel;
    var q := m.queues[s];
    RelabelKeeps(m.txs, q);
    RelabelSets(m.txs, q, n);
    assert n in KeepLive(m.txs, q);
    assert LiveNonces(Relabel(m.txs, q), KeepLive(m.txs, q)) == LiveNonces(m.txs, q);
  }

  /** Where the slot is known, the rest of the queue is labelled as if it had never been there. */
  lemma KnownEndRelabels(m: Pool, h: TxHash, status: Status, s: Address, n: U64, k: U64, log: seq<Payload>)
    requires FromLog(m, log) && OneSlotEach(log) && !status.Pending?
    requires LiveAt(m, s, n, h) && m.txs[h].sender == Some(s) && m.txs[h].nonce == Some(n)
    requires k != n && k in LiveNonces(m.txs, m.queues[s])
    ensures var m' := ApplySettled(m, h, status);
      && LiveAt(m', s, k, m.queues[s][k])
      && ShownLabel(m', s, k) == Label(LiveNonces(m.txs, m.queues[s]) - {n}, k)
  {
    hide Label, Recompute, FromLog, OneSlotEach;
    LogQueueIsInjective(m, s, log);
    var txs, q := Settle(m.txs, h, status), m.queues[s];
    var q' := q - {n};
    assert q[k] != h && k in q';
    assert LiveNonces(txs, q') == LiveNonces(m.txs, q) - {n};
    RecomputedLabel(RemoveEntry(m.(txs := txs), h, s, n), s, k);
  }

  /** Where the slot is unknown, stored labels stay; only computed ones follow. */
  lemma UnknownEndKeepsLabels(m: Pool, h: TxHash, status: Status, s: Address, n: U64, k: U64, log: seq<Payload>)
    requires FromLog(m, log) && OneSlotEach(log) && !status.Pending?
    requires LiveAt(m, s, n, h) && !KnowsSlot(m, h)
    requires k != n && k in LiveNonces(m.txs, m.queues[s])
    ensures var m' := ApplySettled(m, h, status);
      && LiveAt(m', s, k, m.queues[s][k])
      && ShownLabel(m', s, k) ==
        StateOr(m.txs, m.queues[s][k], Label(LiveNonces(m.txs, m.queues[s]) - {n}, k))
  {
    hide Label, FromLog, OneSlotEach;
    LogQueueIsInjective(m, s, log);
    var m', q := ApplySettled(m, h, status), m.queues[s];
    assert q[k] != h;
    assert LiveNonces(m'.txs, q) == LiveNonces(m.txs, q) - {n};
  }

  lemma SameLive(a: Pool, b: Pool, s: Address)
    requires SameShown(a, b) && s in a.queues && s in b.queues
    ensures LiveNonces(a.txs, a.queues[s]) == LiveNonces(b.txs, b.queues[s])
    ensures forall n :: n in LiveNonces(a.txs, a.queues[s]) ==> a.queues[s][n] == b.queues[s][n]
  {
    forall n: U64
      ensures n in LiveNonces(a.txs, a.queues[s]) <==> n in LiveNonces(b.txs, b.queues[s])
      ensures n in LiveNonces(a.txs, a.queues[s]) ==> a.queues[s][n] == b.queues[s][n]
    {
      if n in LiveNonces(a.txs, a.queues[s]) {
        assert LiveAt(a, s, n, a.queues[s][n]) && LiveAt(b, s, n, a.queues[s][n]);
      }
      if n in LiveNonces(b.txs, b.queues[s]) {
        assert LiveAt(b, s, n, b.queues[s][n]) && LiveAt(a, s, n, b.queues[s][n]);
      }
    }
  }

  /**
    Labels after a transaction ends whose slot the full replay knows and the resumed one
    does not: another transaction of the queue shows the same label in both exactly when
    the resumed state stores none for it, or stores what the gap rule gives without the
    ended one.
   */
  lemma LabelsAgreeIff(
      full: Pool, resumed: Pool, h: TxHash, status: Status, s: Address, n: U64, k: U64, log: seq<Payload>)
    requires SameShown(full, resumed) && FromLog(full, log) && FromLog(resumed, log)
    requires OneSlotEach(log) && !status.Pending? && LiveAt(full, s, n, h) && !KnowsSlot(resumed, h)
    requires full.txs[h].sender == Some(s) && full.txs[h].nonce == Some(n)
    requires k != n && k in LiveNonces(full.txs, full.queues[s])
    ensures var full', resumed' := ApplySettled(full, h, status), ApplySettled(resumed, h, status);
      var x, rest := full.queues[s][k], LiveNonces(full.txs, full.queues[s]) - {n};
      && LiveAt(full', s, k, x) && LiveAt(resumed', s, k, x) && x in resumed.txs
      && (ShownLabel(full', s, k) == ShownLabel(resumed', s, k) <==>
          resumed.txs[x].queueState in {None, Some(Label(rest, k))})
  {
    hide Label, ApplySettled, FromLog, OneSlotEach, ShownLabel;
    assert LiveAt(resumed, s, n, h);
    SameLive(full, resumed, s);
    KnownEndRelabels(full, h, status, s, n, k, log);
    UnknownEndKeepsLabels(resumed, h, status, s, n, k, log);
  }

  // ---------------------------------------------------------------- labels in frames

  lemma {:induction false} QueuedEntries(txs: TxTable, q: Queue, i: nat, b: nat)
    requires i <= |q.Keys| && b < |QueuedUpTo(txs, q, i)|
    ensures var p := QueuedUpTo(txs, q, i)[b];
      && p.nonce in LiveNonces(txs, q)
      && p == Position(q[p.nonce], p.nonce, StateOr(txs, q[p.nonce], Label(LiveNonces(txs, q), p.nonce)))
  {
    hide Label, LiveNonces;
    assert Nonces(q.Keys)[i - 1] in q.Keys;
    if b < |QueuedUpTo(txs, q, i - 1)| {
      QueuedEntries(txs, q, i - 1, b);
    }
  }

  lemma {:induction false} ViewEntries(m: Pool, k: nat, a: nat)
    requires k <= |m.queues.Keys| && a < |PoolViewUpTo(m, k)|
    ensures var v := PoolViewUpTo(m, k)[a];
      v.sender in m.queues && v.queued == LiveQueue(m.txs, m.queues[v.sender])
  {
    hide LiveQueue;
    assert Ascending(m.queues.Keys)[k - 1] in m.queues.Keys;
    if a < |PoolViewUpTo(m, k - 1)| {
      ViewEntries(m, k - 1, a);
    }
  }

  /** Every entry of a frame carries the label its queue shows. */
  lemma FrameEntry(m: Pool, a: nat, b: nat)
    requires a < |PoolView(m)| && b < |PoolView(m)[a].queued|
    ensures var s, p := PoolView(m)[a].sender, PoolView(m)[a].queued[b];
      && s in m.queues && p.nonce in LiveNonces(m.txs, m.queues[s])
      && p == Position(m.queues[s][p.nonce], p.nonce, ShownLabel(m, s, p.nonce))
  {
    hide Label, LiveNonces, PoolViewUpTo, QueuedUpTo;
    ViewEntries(m, |m.queues.Keys|, a);
    var q := m.queues[PoolView(m)[a].sender];
    QueuedEntries(m.txs, q, |q.Keys|, b);
  }

  /** Both states show the same label for every queued transaction. */
  ghost predicate SameLabels(a: Pool, b: Pool)
    requires SameShown(a, b)
  {
    forall s, n :: s in a.queues && n in LiveNonces(a.txs, a.queues[s]) ==>
      LiveAt(b, s, n, a.queues[s][n]) && ShownLabel(a, s, n) == ShownLabel(b, s, n)
  }

  lemma SameLabelsGive(a: Pool, b: Pool, x: nat, y: nat)
    requires SameShown(a, b) && SameLabels(a, b) && Unlabelled(PoolView(a)) == Unlabelled(PoolView(b))
    requires x < |PoolView(a)| && y < |PoolView(a)[x].queued|
    ensures x < |PoolView(b)| && y < |PoolView(b)[x].queued| && PoolView(a)[x].sender == PoolView(b)[x].sender
    ensures PoolView(a)[x].queued[y] == PoolView(b)[x].queued[y]
  {
    hide PoolView, ShownLabel, LiveNonces, SameShown;
    var va, vb := Unlabelled(PoolView(a))[x], Unlabelled(PoolView(b))[x];
    assert va.queued[y] == vb.queued[y];
    FrameEntry(a, x, y);
    FrameEntry(b, x, y);
  }

  /** Of states that show the same, the whole frames agree exactly when all labels do. */
  lemma SameViewsIff(a: Pool, b: Pool)
    requires SameShown(a, b)
    ensures PoolView(a) == PoolView(b) <==> SameLabels(a, b)
  {
    hide PoolView, ShownLabel, InView, SameShown;
    SameFrames(a, b);
    if SameLabels(a, b) {
      assert |Unlabelled(PoolView(a))| == |Unlabelled(PoolView(b))|;
      forall x | 0 <= x < |PoolView(a)| ensures PoolView(a)[x] == PoolView(b)[x] {
        SameQueueViews(a, b, x);
      }
    }
    if PoolView(a) == PoolView(b) {
      forall s, n | s in a.queues && n in LiveNonces(a.txs, a.queues[s])
        ensures LiveAt(b, s, n, a.queues[s][n]) && ShownLabel(a, s, n) == ShownLabel(b, s, n)
      {
        SameViewGives(a, b, s, n);
      }
    }
  }

  lemma SameQueueViews(a: Pool, b: Pool, x: nat)
    requires SameShown(a, b) && SameLabels(a, b) && Unlabelled(PoolView(a)) == Unlabelled(PoolView(b))
    requires x < |PoolView(a)| == |PoolView(b)|
    ensures PoolView(a)[x] == PoolView(b)[x]
  {
    hide PoolView, SameShown, SameLabels;
    var va, vb := Unlabelled(PoolView(a))[x], Unlabelled(PoolView(b))[x];
    assert va == vb && |va.queued| == |PoolView(a)[x].queued| && |vb.queued| == |PoolView(b)[x].queued|;
    forall y | 0 <= y < |PoolView(a)[x].queued| ensures PoolView(a)[x].queued[y] == PoolView(b)[x].queued[y] {
      SameLabelsGive(a, b, x, y);
    }
  }

  lemma SameViewGives(a: Pool, b: Pool, s: Address, n: U64)
    requires PoolView(a) == PoolView(b) && s in a.queues && n in LiveNonces(a.txs, a.queues[s])
    ensures LiveAt(b, s, n, a.queues[s][n]) && ShownLabel(a, s, n) == ShownLabel(b, s, n)
  {
    hide PoolViewUpTo, ShownLabel;
    var h := a.queues[s][n];
    ViewListsLive(a, s, n, h);
    var x :| 0 <= x < |PoolView(a)| && PoolView(a)[x].sender == s && InQueueView(PoolView(a)[x].queued, n, h);
    var queued := PoolView(a)[x].queued;
    var y :| 0 <= y < |queued| && queued[y].nonce == n && queued[y].hash == h;
    FrameEntry(a, x, y);
    FrameEntry(b, x, y);
  }

  // ---------------------------------------------------------------- labels at the checkpoint

  /** A stored label, where there is one, is what the gap rule gives among the live entries. */
  ghost predicate LabelSettled(m: Pool, s: Address, n: U64)
    requires s in m.queues && n in LiveNonces(m.txs, m.queues[s])
  {
    m.txs[m.queues[s][n]].queueState in {None, Some(Label(LiveNonces(m.txs, m.queues[s]), n))}
  }

  lemma SeededLabel(m: Pool, log: seq<Payload>, s: Address, n: U64)
    requires FromLog(m, log) && s in m.queues && n in LiveNonces(m.txs, m.queues[s])
    ensures var r := FromCheckpoint(Ascending(PendingHashes(m)), PoolView(m));
      && LiveAt(r, s, n, m.queues[s][n])
      && ShownLabel(r, s, n) == Label(LiveNonces(m.txs, m.queues[s]), n)
  {
    hide PoolView, FromLog, Label, SeedPending;
    var r, hashes := FromCheckpoint(Ascending(PendingHashes(m)), PoolView(m)), Ascending(PendingHashes(m));
    CheckpointShowsSame(m, log);
    assert LiveAt(m, s, n, m.queues[s][n]);
    SameLive(m, r, s);
    SeedPendingIs(hashes, |hashes|, m.queues[s][n]);
  }

  /** A resumed state shows the label of the checkpointed one exactly when that one's stored label is settled. */
  lemma CheckpointLabelIff(m: Pool, log: seq<Payload>, s: Address, n: U64)
    requires FromLog(m, log) && s in m.queues && n in LiveNonces(m.txs, m.queues[s])
    ensures var r := FromCheckpoint(Ascending(PendingHashes(m)), PoolView(m));
      && LiveAt(r, s, n, m.queues[s][n])
      && (ShownLabel(r, s, n) == ShownLabel(m, s, n) <==> LabelSettled(m, s, n))
  {
    hide PoolView, FromLog, Label, FromCheckpoint;
    SeededLabel(m, log, s, n);
  }

  /** The frame at the checkpoint, labels included, is kept exactly when every stored label is settled. */
  lemma CheckpointFrameIff(m: Pool, log: seq<Payload>)
    requires FromLog(m, log)
    ensures PoolView(FromCheckpoint(Ascending(PendingHashes(m)), PoolView(m))) == PoolView(m) <==>
      forall s, n :: s in m.queues && n in LiveNonces(m.txs, m.queues[s]) ==> LabelSettled(m, s, n)
  {
    hide PoolView, FromLog, LabelSettled, ShownLabel, FromCheckpoint, SameShown, SeedPending, Label;
    var r := FromCheckpoint(Ascending(PendingHashes(m)), PoolView(m));
    CheckpointShowsSame(m, log);
    SameViewsIff(m, r);
    forall s, n | s in m.queues && n in LiveNonces(m.txs, m.queues[s])
      ensures LiveAt(r, s, n, m.queues[s][n]) && (ShownLabel(m, s, n) == ShownLabel(r, s, n) <==> LabelSettled(m, s, n))
    {
      CheckpointLabelIff(m, log, s, n);
    }
  }

  /**
    A label reported against the gap rule is forgotten: resuming right after a TxReady for
    a transaction the rule blocks shows it Blocked, where the full replay shows it Ready.
   */
  lemma ReportedLabelIsForgotten(m: Pool, h: TxHash, s: Address, n: U64, log: seq<Payload>)
    requires FromLog(m, log) && OneSlotEach(log) && Placed(log, h, s, n)
    requires LiveAt(m, s, n, h) && Label(LiveNonces(m.txs, m.queues[s]), n).Blocked?
    ensures var m' := Apply(m, TxReady(h, s, n));
      var r := FromCheckpoint(Ascending(PendingHashes(m')), PoolView(m'));
      && FromLog(m', log) && LiveAt(m', s, n, h) && LiveAt(r, s, n, h)
      && ShownLabel(m', s, n) == Ready && ShownLabel(r, s, n).Blocked?
  {
    hide Label, FromLog, OneSlotEach, Placed, FromCheckpoint, PoolView, ApplyQueueState;
    var m' := Apply(m, TxReady(h, s, n));
    QueueStateShows(m, h, s, n, Some(Ready), log);
    ReadyStores(m, h, s, n);
    LiveStaysLive(m, m', h, s, n);
    SeededLabel(m', log, s, n);
  }

  lemma ReadyStores(m: Pool, h: TxHash, s: Address, n: U64)
    ensures var m' := ApplyQueueState(m, h, s, n, Some(Ready)); h in m'.txs && m'.txs[h].queueState == Some(Ready)
  {
    hide Relabel;
    RelabelKeeps(Ensure(m, h, s, n).txs, Ensure(m, h, s, n).queues[s]);
  }

  lemma LiveStaysLive(m: Pool, m': Pool, h: TxHash, s: Address, n: U64)
    requires LiveAt(m, s, n, h) && With(m, m', h, s, n)
    ensures s in m'.queues && LiveNonces(m'.txs, m'.queues[s]) == LiveNonces(m.txs, m.queues[s])
    ensures LiveAt(m', s, n, h)
  {
    assert LiveAt(m', s, n, h);
    forall k: U64 ensures k in LiveNonces(m'.txs, m'.queues[s]) <==> k in LiveNonces(m.txs, m.queues[s]) {
      if k in LiveNonces(m'.txs, m'.queues[s]) {
        assert LiveAt(m', s, k, m'.queues[s][k]);
      }
      if k in LiveNonces(m.txs, m.queues[s]) {
        assert LiveAt(m, s, k, m.queues[s][k]);
      }
    }
  }

  // ---------------------------------------------------------------- an instance

  predicate SameSlot(m: Pool, m': Pool, h: TxHash)
    requires h in m.txs
  {
    h in m'.txs && m'.txs[h].sender == m.txs[h].sender && m'.txs[h].nonce == m.txs[h].nonce
  }

  /** What a decoded transaction leaves in the table. */
  lemma DecodedStores(m: Pool, tx: Tx, log: seq<Payload>)
    requires FromLog(m, log) && OneSlotEach(log) && Placed(log, tx.hash, tx.sender, tx.nonce)
    ensures var m' := ApplyDecoded(m, tx);
      && LiveAt(m', tx.sender, tx.nonce, tx.hash)
      && m'.txs[tx.hash].queueState == Some(Label(LiveNonces(m'.txs, m'.queues[tx.sender]), tx.nonce))
      && m'.txs[tx.hash].sender == Some(tx.sender) && m'.txs[tx.hash].nonce == Some(tx.nonce)
    ensures forall h :: h in m.txs && h != tx.hash ==> SameSlot(m, ApplyDecoded(m, tx), h)
  {
    hide Label, Recompute, OneSlotEach, FromLog, Placed, Apply, Injective, LiveNonces;
    var displaced := AfterDisplacing(m, tx);
    var placed := Ensure(displaced, tx.hash, tx.sender, tx.nonce);
    DisplacingShows(m, tx, log);
    EnsureShows(displaced, tx.hash, tx.sender, tx.nonce, log);
    LogQueueIsInjective(placed, tx.sender, log);
    EnsuredIsLive(displaced, tx.hash, tx.sender, tx.nonce);
    RecomputedLabel(placed, tx.sender, tx.nonce);
    DecodedIsRecomputed(m, tx);
    forall h ensures var m' := ApplyDecoded(m, tx);
      (h == tx.hash ==> SlotIs(m', h, tx.sender, tx.nonce)) && (h in m.txs && h != tx.hash ==> SameSlot(m, m', h))
    {
      SlotAfter(m, TxDecoded(tx), h);
      DecodedApplies(m, tx);
    }
  }

  lemma EnsuredIsLive(m: Pool, h: TxHash, s: Address, n: U64)
    ensures var m' := Ensure(m, h, s, n);
      s in m'.queues && n in LiveNonces(m'.txs, m'.queues[s]) && m'.queues[s][n] == h
  {
  }

  lemma DecodedIsRecomputed(m: Pool, tx: Tx)
    ensures ApplyDecoded(m, tx) ==
      Recompute(Ensure(AfterDisplacing(m, tx), tx.hash, tx.sender, tx.nonce), tx.sender)
  {
  }

  lemma DecodedApplies(m: Pool, tx: Tx)
    ensures Apply(m, TxDecoded(tx)) == ApplyDecoded(m, tx)
  {
  }

  lemma FreeSlotShows(m: Pool, tx: Tx, log: seq<Payload>)
    requires FromLog(m, log) && OneSlotEach(log) && Placed(log, tx.hash, tx.sender, tx.nonce)
    requires forall h :: Placed(log, h, tx.sender, tx.nonce) ==> h == tx.hash
    ensures With(m, ApplyDecoded(m, tx), tx.hash, tx.sender, tx.nonce) && FromLog(ApplyDecoded(m, tx), log)
  {
    hide Placed, OneSlotEach, ApplyDecoded;
    assert AfterDisplacing(m, tx) == m;
    DecodedShows(m, tx, log);
  }

  /** Transactions 1, 2 and 3 of sender 0, at nonces 7, 8 and 9. */
  function Nth(k: U64): Tx
    requires 1 <= k <= 3
  {
    Tx(k, 0, 0, 6 + k, Some(1), None)
  }

  const LAGGING_LOG: seq<Payload> :=
    [TxDecoded(Nth(1)), TxDecoded(Nth(2)), TxDecoded(Nth(3)), TxDropped(2, "nonce gap")]

  lemma LoggedSlots(h: TxHash, s: Address, n: U64)
    ensures Placed(LAGGING_LOG, h, s, n) <==> 1 <= h <= 3 && s == 0 && n == 6 + h
  {
    assert LAGGING_LOG[0].tx == Nth(1) && LAGGING_LOG[1].tx == Nth(2) && LAGGING_LOG[2].tx == Nth(3);
    if 1 <= h <= 3 && s == 0 && n == 6 + h {
      assert Places(LAGGING_LOG[h - 1], h, s, n);
    }
  }

  /** The first `k` transactions, and no others, are pending, each in its slot. */
  ghost predicate HoldsFirst(m: Pool, k: nat) {
    && FromLog(m, LAGGING_LOG)
    && (forall h: TxHash :: IsPending(m.txs, h) <==> 1 <= h <= k)
    && (forall s: Address, n: U64, h: TxHash :: LiveAt(m, s, n, h) <==> 1 <= h <= k && s == 0 && n == 6 + h)
  }

  lemma DecodeNext(m: Pool, k: U64)
    requires k < 3 && HoldsFirst(m, k)
    ensures HoldsFirst(ApplyDecoded(m, Nth(k + 1)), k + 1)
    ensures OneSlotEach(LAGGING_LOG) && Placed(LAGGING_LOG, k + 1, 0, 7 + k)
  {
    hide Placed, FromLog, ApplyDecoded, LiveAt;
    forall h, s, n ensures Placed(LAGGING_LOG, h, s, n) <==> 1 <= h <= 3 && s == 0 && n == 6 + h {
      LoggedSlots(h, s, n);
    }
    FreeSlotShows(m, Nth(k + 1), LAGGING_LOG);
  }

  lemma ThreeAreReady(m: Pool)
    requires HoldsFirst(m, 3)
    ensures 0 in m.queues && LiveNonces(m.txs, m.queues[0]) == {7, 8, 9}
    ensures LiveAt(m, 0, 8, 2)
  {
    assert LiveAt(m, 0, 7, 1) && LiveAt(m, 0, 8, 2) && LiveAt(m, 0, 9, 3);
    forall n | n in LiveNonces(m.txs, m.queues[0]) ensures n in {7, 8, 9} {
      assert LiveAt(m, 0, n, m.queues[0][n]);
    }
  }

  lemma GapAtEight()
    ensures Label({7, 8, 9}, 9) == Ready && Label({7, 9}, 9) == Blocked(8)
  {
    FirstGapIsUnique({7, 8, 9}, 10);
    FirstGapIsUnique({7, 9}, 8);
  }

  lemma TwoDecoded()
    ensures var m := Replay(EMPTY_POOL, LAGGING_LOG, 2);
      && HoldsFirst(m, 2) && OneSlotEach(LAGGING_LOG)
      && 2 in m.txs && m.txs[2].sender == Some(0) && m.txs[2].nonce == Some(8)
  {
    hide ApplyDecoded, Label, FromLog, Placed;
    EmptyFromLog(LAGGING_LOG);
    var m1 := ApplyDecoded(EMPTY_POOL, Nth(1));
    DecodeNext(EMPTY_POOL, 0);
    DecodeNext(m1, 1);
    DecodedStores(m1, Nth(2), LAGGING_LOG);
    assert Replay(EMPTY_POOL, LAGGING_LOG, 1) == Apply(Replay(EMPTY_POOL, LAGGING_LOG, 0), LAGGING_LOG[0]) == m1;
  }

  lemma ThirdStored(m: Pool)
    requires HoldsFirst(m, 2)
    ensures var m' := ApplyDecoded(m, Nth(3));
      && LiveAt(m', 0, 9, 3)
      && m'.txs[3].queueState == Some(Label(LiveNonces(m'.txs, m'.queues[0]), 9))
      && 2 in m.txs && SameSlot(m, m', 2)
  {
    hide ApplyDecoded, Label, FromLog, OneSlotEach, Placed, LiveNonces;
    DecodeNext(m, 2);
    assert IsPending(m.txs, 2);
    DecodedStores(m, Nth(3), LAGGING_LOG);
  }

  lemma ThirdDecoded(m: Pool)
    requires HoldsFirst(m, 2)
    ensures var m' := ApplyDecoded(m, Nth(3));
      && HoldsFirst(m', 3) && LiveAt(m', 0, 8, 2) && LiveAt(m', 0, 9, 3)
      && LiveNonces(m'.txs, m'.queues[0]) == {7, 8, 9}
      && m'.txs[3].queueState == Some(Ready) && 2 in m.txs && SameSlot(m, m', 2)
  {
    hide ApplyDecoded, Label, HoldsFirst, LiveAt, LiveNonces, OneSlotEach, Placed;
    DecodeNext(m, 2);
    ThirdStored(m);
    ThreeAreReady(ApplyDecoded(m, Nth(3)));
    GapAtEight();
  }

  lemma TailReplays(r: Pool)
    ensures ReplayAll(EMPTY_POOL, LAGGING_LOG) ==
      ApplySettled(ApplyDecoded(Replay(EMPTY_POOL, LAGGING_LOG, 2), Nth(3)), 2, Dropped("nonce gap"))
    ensures ReplayAll(r, LAGGING_LOG[2..]) == ApplySettled(ApplyDecoded(r, Nth(3)), 2, Dropped("nonce gap"))
  {
    hide ApplyDecoded, ApplySettled;
    var tail := LAGGING_LOG[2..];
    assert tail[0] == LAGGING_LOG[2] && tail[1] == LAGGING_LOG[3] && |tail| == 2;
    assert Replay(r, tail, 1) == Apply(Replay(r, tail, 0), tail[0]);
    assert Replay(EMPTY_POOL, LAGGING_LOG, 3) == Apply(Replay(EMPTY_POOL, LAGGING_LOG, 2), LAGGING_LOG[2]);
  }

  lemma SameHolds(m: Pool, r: Pool)
    requires HoldsFirst(m, 2) && SameShown(m, r) && FromLog(r, LAGGING_LOG)
    ensures HoldsFirst(r, 2)
  {
    hide FromLog, LiveAt;
  }

  /** Dropping transaction 2 blocks transaction 3 only where the slot of 2 is known. */
  lemma SecondDropped(m: Pool)
    requires HoldsFirst(m, 3) && OneSlotEach(LAGGING_LOG) && LiveAt(m, 0, 8, 2) && LiveAt(m, 0, 9, 3)
    requires LiveNonces(m.txs, m.queues[0]) == {7, 8, 9} && m.txs[3].queueState == Some(Ready)
    requires KnowsSlot(m, 2) ==> m.txs[2].sender == Some(0) && m.txs[2].nonce == Some(8)
    ensures var m' := ApplySettled(m, 2, Dropped("nonce gap"));
      LiveAt(m', 0, 9, 3) && ShownLabel(m', 0, 9) == if KnowsSlot(m, 2) then Blocked(8) else Ready
  {
    hide ApplySettled, Label, FromLog, OneSlotEach, ShownLabel;
    GapAtEight();
    assert {7, 8, 9} - {8} == {7, 9};
    if KnowsSlot(m, 2) {
      KnownEndRelabels(m, 2, Dropped("nonce gap"), 0, 8, 9, LAGGING_LOG);
    } else {
      UnknownEndKeepsLabels(m, 2, Dropped("nonce gap"), 0, 8, 9, LAGGING_LOG);
    }
  }

  /**
    Labels do lag: queue nonces 7 and 8, resume there, then decode nonce 9 and drop 8.
    The full replay blocks nonce 9; the resumed one still shows it as Ready.
   */
  lemma LabelsMayLag()
    ensures var atCheckpoint := Replay(EMPTY_POOL, LAGGING_LOG, 2);
      var seeded := FromCheckpoint(Ascending(PendingHashes(atCheckpoint)), PoolView(atCheckpoint));
      var full, resumed := ReplayAll(EMPTY_POOL, LAGGING_LOG), ReplayAll(seeded, LAGGING_LOG[2..]);
      && LiveAt(full, 0, 9, 3) && LiveAt(resumed, 0, 9, 3)
      && ShownLabel(full, 0, 9) == Blocked(8) && ShownLabel(resumed, 0, 9) == Ready
  {
    hide ApplyDecoded, ApplySettled, LiveAt, FromLog, OneSlotEach, ShownLabel, FromCheckpoint, PoolView, Replay,
      SameShown, Placed, LiveNonces;
    var m := Replay(EMPTY_POOL, LAGGING_LOG, 2);
    var r := FromCheckpoint(Ascending(PendingHashes(m)), PoolView(m));
    TwoDecoded();
    CheckpointShowsSame(m, LAGGING_LOG);
    SeedPendingIs(Ascending(PendingHashes(m)), |PendingHashes(m)|, 2);
    SameHolds(m, r);
    ThirdDecoded(m);
    ThirdDecoded(r);
    TailReplays(r);
    SecondDropped(ApplyDecoded(m, Nth(3)));
    SecondDropped(ApplyDecoded(r, Nth(3)));
  }
}
