/**
  Resuming the log of a run of admissions. Here labels do come right: only between the two
  events of a replacement can a resumed frame differ from the full one.
 */
module ResumeAdmissions {
  import opened Prelude
  import opened Ordered
  import opened NonceGap
  import opened SchedulerModel
  import opened EventLog
  import opened EventOrder
  import opened Mempool
  import opened LogRefinement
  import opened Rehydration
  import opened ReplayFrames
  import History
  import opened Resume
  import opened CheckpointResume
  import opened ResumeLabels
  import opened ResumeLog

  // ---------------------------------------------------------------- what a resumed state may not know

  /** A pending transaction of which the resumed state knows the right slot, or part of it, or none. */
  ghost predicate Known(c: Core, r: Pool, h: TxHash)
    requires h in c.pending
  {
    && h in r.txs && r.txs[h].status.Pending?
    && r.txs[h].sender in {None, Some(c.pending[h].sender)}
    && r.txs[h].nonce in {None, Some(c.pending[h].nonce)}
  }

  /** Its stored label, if any, is the right one. */
  ghost predicate MayLabel(c: Core, r: Pool, h: TxHash)
    requires h in c.pending && Known(c, r, h)
  {
    && Queued(c, c.pending[h])
    && r.txs[h].queueState in {None, Some(Label(c.queues[c.pending[h].sender].Keys, c.pending[h].nonce))}
  }

  /** The resumed state has the scheduler's queues; labels of the senders in `stale` may be off. */
  ghost predicate ShadowsExcept(c: Core, r: Pool, stale: set<Address>) {
    && Bijective(c)
    && r.queues == c.queues
    && (forall h :: h in c.pending ==> Known(c, r, h))
    && (forall h :: IsPending(r.txs, h) ==> h in c.pending)
    && (forall h :: h in c.pending && c.pending[h].sender !in stale ==> MayLabel(c, r, h))
  }

  ghost predicate Shadows(c: Core, r: Pool) {
    ShadowsExcept(c, r, {})
  }

  lemma ShadowIsBijective(c: Core, r: Pool, stale: set<Address>)
    requires ShadowsExcept(c, r, stale)
    ensures Bijective(c) && r.queues == c.queues
  {
  }

  lemma ShadowQueueIsLive(c: Core, r: Pool, stale: set<Address>, s: Address)
    requires ShadowsExcept(c, r, stale) && s in c.queues
    ensures Injective(c.queues[s])
    ensures LiveNonces(r.txs, c.queues[s]) == c.queues[s].Keys
    ensures KeepLive(r.txs, c.queues[s]) == c.queues[s]
    ensures PutQueue(c.queues, s, c.queues[s]) == c.queues
    ensures forall n :: n in c.queues[s] ==> FillsSlot(c, c.queues[s][n], s, n)
  {
    var q := c.queues[s];
    forall n | n in q ensures FillsSlot(c, q[n], s, n) && IsPending(r.txs, q[n]) {
      assert FillsSlot(c, q[n], s, n);
      assert Known(c, r, q[n]);
    }
  }

  lemma ShadowRecomputeSets(c: Core, r: Pool, s: Address, h: TxHash)
    requires ShadowsExcept(c, r, {s}) && s in c.queues && h in c.pending
    ensures Known(c, Recompute(r, s), h) && MayLabel(c, Recompute(r, s), h)
  {
    hide Relabel, Label, Bijective, KeepLive;
    ShadowIsBijective(c, r, {s});
    var q := c.queues[s];
    ShadowQueueIsLive(c, r, {s}, s);
    RelabelKeeps(r.txs, q);
    assert Known(c, r, h);
    PendingIsQueued(c, h);
    if c.pending[h].sender == s {
      RelabelSets(r.txs, q, c.pending[h].nonce);
    } else {
      assert MayLabel(c, r, h);
    }
  }

  /** Recomputing a sender's queue brings its labels up to date here too. */
  lemma ShadowRecompute(c: Core, r: Pool, s: Address)
    requires ShadowsExcept(c, r, {s})
    ensures Shadows(c, Recompute(r, s))
  {
    hide Bijective, Relabel, WellFormed, MayLabel, Label, KeepLive;
    ShadowIsBijective(c, r, {s});
    if s in c.queues {
      ShadowQueueIsLive(c, r, {s}, s);
      RelabelKeeps(r.txs, c.queues[s]);
      forall h | h in c.pending ensures Known(c, Recompute(r, s), h) && MayLabel(c, Recompute(r, s), h) {
        ShadowRecomputeSets(c, r, s, h);
      }
    } else {
      forall h | h in c.pending ensures c.pending[h].sender != s {
        SenderHasQueue(c, h);
      }
    }
  }

  lemma ShadowLoosely(c: Core, r: Pool, s: Address)
    requires Shadows(c, r)
    ensures ShadowsExcept(c, r, {s})
  {
  }

  // ---------------------------------------------------------------- one event

  lemma ShadowSettlingElse(c: Core, r: Pool, h: TxHash, status: Status)
    requires Shadows(c, r) && h !in c.pending && !status.Pending?
    ensures Shadows(c, r.(txs := Settle(r.txs, h, status)))
  {
    hide Label, Bijective;
    var r' := r.(txs := Settle(r.txs, h, status));
    forall g | g in c.pending ensures Known(c, r', g) && MayLabel(c, r', g) {
      assert Known(c, r, g) && MayLabel(c, r, g);
    }
  }

  lemma ShadowRemoveMissing(c: Core, r: Pool, h: TxHash, s: Address, n: U64)
    requires Shadows(c, r) && h !in c.pending
    ensures RemoveEntry(r, h, s, n) == r
  {
    if s in c.queues {
      ShadowQueueIsLive(c, r, {}, s);
    }
  }

  /** The end of a transaction that is not pending is as harmless as in the full replay. */
  lemma ShadowRefused(c: Core, r: Pool, h: TxHash, status: Status)
    requires Shadows(c, r) && h !in c.pending && !status.Pending?
    ensures Shadows(c, ApplySettled(r, h, status))
  {
    hide ShadowsExcept, Recompute;
    var r' := r.(txs := Settle(r.txs, h, status));
    ShadowSettlingElse(c, r, h, status);
    if KnowsSlot(r, h) {
      var s, n := r.txs[h].sender.value, r.txs[h].nonce.value;
      ShadowRemoveMissing(c, r', h, s, n);
      ShadowLoosely(c, r', s);
      ShadowRecompute(c, r', s);
    }
  }

  lemma ShadowPutKnows(c: Core, r: Pool, tx: Tx, g: TxHash)
    requires Shadows(c, r) && tx.hash !in c.pending && g in Put(c, tx).pending
    ensures var c', r' := Put(c, tx), Ensure(r, tx.hash, tx.sender, tx.nonce);
      Known(c', r', g) && (c'.pending[g].sender != tx.sender ==> MayLabel(c', r', g))
  {
    hide Label, Bijective;
    if g != tx.hash {
      assert Known(c, r, g) && MayLabel(c, r, g);
    }
  }

  lemma ShadowPutExceptLabels(c: Core, r: Pool, tx: Tx)
    requires Shadows(c, r) && tx.hash !in c.pending && Bijective(Put(c, tx))
    ensures ShadowsExcept(Put(c, tx), Ensure(r, tx.hash, tx.sender, tx.nonce), {tx.sender})
  {
    hide Label, Bijective, Known, MayLabel;
    forall g | g in Put(c, tx).pending
      ensures var c', r' := Put(c, tx), Ensure(r, tx.hash, tx.sender, tx.nonce);
        Known(c', r', g) && (c'.pending[g].sender != tx.sender ==> MayLabel(c', r', g))
    {
      ShadowPutKnows(c, r, tx, g);
    }
  }

  lemma FreeInShadow(c: Core, r: Pool, tx: Tx)
    requires Shadows(c, r) && !Occupied(c, tx.sender, tx.nonce)
    ensures !(tx.sender in r.queues && tx.nonce in r.queues[tx.sender])
  {
  }

  /** Decoding a transaction for a free slot puts it there. */
  lemma ShadowDecodedPuts(c: Core, r: Pool, tx: Tx)
    requires Shadows(c, r) && tx.hash !in c.pending && !Occupied(c, tx.sender, tx.nonce)
    ensures Shadows(Put(c, tx), ApplyDecoded(r, tx))
  {
    hide ShadowsExcept, Recompute;
    ShadowIsBijective(c, r, {});
    PutKeepsQueued(c, {}, tx);
    assert c.pending - {} == c.pending;
    FreeInShadow(c, r, tx);
    assert r.(txs := r.txs) == r;
    ShadowPutExceptLabels(c, r, tx);
    ShadowRecompute(Put(c, tx), Ensure(r, tx.hash, tx.sender, tx.nonce), tx.sender);
  }

  // ---------------------------------------------------------------- a replacement

  lemma ShadowOthersStay(c: Core, r: Pool, h: TxHash, status: Status, g: TxHash)
    requires Shadows(c, r) && h in c.pending && Queued(c, c.pending[h]) && g in c.pending && g != h
    ensures g in Evict(c, h).pending && Evict(c, h).pending[g] == c.pending[g]
    ensures var c', r' := Evict(c, h), Pool(Settle(r.txs, h, status), Evict(c, h).queues);
      Known(c', r', g) && (c.pending[g].sender != c.pending[h].sender ==> MayLabel(c', r', g))
  {
    hide Label, Bijective;
    assert Known(c, r, g) && MayLabel(c, r, g);
    EvictKeepsQueued(c, h, g);
  }

  /** Ending a pending transaction evicts it, but for the labels of its sender. */
  lemma ShadowSettledExceptLabels(c: Core, r: Pool, h: TxHash, status: Status)
    requires Shadows(c, r) && h in c.pending && Queued(c, c.pending[h]) && !status.Pending?
    ensures ShadowsExcept(Evict(c, h), Pool(Settle(r.txs, h, status), Evict(c, h).queues), {c.pending[h].sender})
  {
    hide Label, Known, MayLabel, Bijective;
    EvictKeepsBijection(c, h);
    forall g | g in c.pending && g != h
      ensures var c', r' := Evict(c, h), Pool(Settle(r.txs, h, status), Evict(c, h).queues);
        Known(c', r', g) && (c.pending[g].sender != c.pending[h].sender ==> MayLabel(c', r', g))
    {
      ShadowOthersStay(c, r, h, status, g);
    }
  }

  lemma ShadowKnows(c: Core, r: Pool, h: TxHash)
    requires Shadows(c, r) && h in c.pending
    ensures Queued(c, c.pending[h]) && Known(c, r, h) && c.pending[h].hash == h && r.queues == c.queues
  {
  }

  /** With its slot known, an ending transaction is evicted and its queue relabelled. */
  lemma ShadowSettledEvicts(c: Core, r: Pool, h: TxHash, status: Status)
    requires Shadows(c, r) && h in c.pending && KnowsSlot(r, h) && !status.Pending?
    ensures Queued(c, c.pending[h]) && Shadows(Evict(c, h), ApplySettled(r, h, status))
  {
    hide Label, MayLabel, ShadowsExcept, Recompute;
    ShadowKnows(c, r, h);
    var tx := c.pending[h];
    ShadowSettledExceptLabels(c, r, h, status);
    var r' := Pool(Settle(r.txs, h, status), Evict(c, h).queues);
    ShadowRecompute(Evict(c, h), r', tx.sender);
    assert RemoveEntry(r.(txs := Settle(r.txs, h, status)), h, tx.sender, tx.nonce) == r';
  }

  /** With its slot unknown, the incumbent of a replacement stays in the queue until the newcomer takes its slot. */
  lemma ShadowUnknownReplaced(c: ValidCore, r: Pool, tx: Tx, cfg: Config)
    requires Shadows(c, r) && Decide(c, tx, cfg).Replaced? && !KnowsSlot(r, Decide(c, tx, cfg).replacedHash)
    ensures Shadows(Admit(c, tx, cfg), ApplyDecoded(ApplyReplaced(r, Decide(c, tx, cfg).replacedHash, tx.hash), tx))
  {
    hide ShadowsExcept, Recompute, Bijective, Evict, Put, Admit, MayLabel;
    var incumbent := Decide(c, tx, cfg).replacedHash;
    ShadowIsBijective(c, r, {});
    ReplaceIsEvictAndPut(c, tx, cfg);
    ShadowKnows(c, r, incumbent);
    IncumbentSlot(c, tx, cfg);
    var evicted := Evict(c, incumbent);
    var settled := Settle(r.txs, incumbent, ReplacedBy(tx.hash));
    ShadowSettledExceptLabels(c, r, incumbent, ReplacedBy(tx.hash));
    ShadowPutStale(evicted, Pool(settled, evicted.queues), tx);
    assert Settle(settled, incumbent, ReplacedBy(tx.hash)) == settled;
    EvictedPut(c, incumbent, tx);
    assert ApplyReplaced(r, incumbent, tx.hash) == r.(txs := settled);
    assert Ensure(r.(txs := settled), tx.hash, tx.sender, tx.nonce) ==
      Ensure(Pool(settled, evicted.queues), tx.hash, tx.sender, tx.nonce);
    ShadowRecompute(Put(evicted, tx), Ensure(r.(txs := settled), tx.hash, tx.sender, tx.nonce), tx.sender);
  }

  lemma IncumbentSlot(c: ValidCore, tx: Tx, cfg: Config)
    requires Bijective(c) && Decide(c, tx, cfg).Replaced?
    ensures var h := Decide(c, tx, cfg).replacedHash;
      && h in c.pending && h != tx.hash && c.pending[h].sender == tx.sender && c.pending[h].nonce == tx.nonce
      && tx.sender in c.queues && tx.nonce in c.queues[tx.sender] && c.queues[tx.sender][tx.nonce] == h
  {
    assert FillsSlot(c, c.queues[tx.sender][tx.nonce], tx.sender, tx.nonce);
  }

  /** Emptying a slot and filling it is overwriting it. */
  lemma EvictedPut(c: Core, h: TxHash, tx: Tx)
    requires h in c.pending && Queued(c, c.pending[h])
    requires c.pending[h].sender == tx.sender && c.pending[h].nonce == tx.nonce
    ensures var left: Queue := if tx.sender in Evict(c, h).queues then Evict(c, h).queues[tx.sender] else map[];
      var filled: Queue, refilled: Queue := c.queues[tx.sender][tx.nonce := tx.hash], left[tx.nonce := tx.hash];
      Evict(c, h).queues[tx.sender := refilled] == c.queues[tx.sender := filled]
  {
    var q := c.queues[tx.sender];
    assert (q - {tx.nonce})[tx.nonce := tx.hash] == q[tx.nonce := tx.hash];
    if q - {tx.nonce} == map[] {
      assert q[tx.nonce := tx.hash] == map[tx.nonce := tx.hash];
    }
  }

  lemma StalePutKnows(c: Core, r: Pool, tx: Tx, g: TxHash)
    requires ShadowsExcept(c, r, {tx.sender}) && tx.hash !in c.pending && g in Put(c, tx).pending
    ensures var c', r' := Put(c, tx), Ensure(r, tx.hash, tx.sender, tx.nonce);
      Known(c', r', g) && (c'.pending[g].sender != tx.sender ==> MayLabel(c', r', g))
  {
    hide Label, Bijective;
    if g != tx.hash {
      assert Known(c, r, g);
      assert c.pending[g].sender != tx.sender ==> MayLabel(c, r, g);
    }
  }

  lemma ShadowPutStale(c: Core, r: Pool, tx: Tx)
    requires ShadowsExcept(c, r, {tx.sender}) && tx.hash !in c.pending && !Occupied(c, tx.sender, tx.nonce)
    ensures ShadowsExcept(Put(c, tx), Ensure(r, tx.hash, tx.sender, tx.nonce), {tx.sender})
  {
    hide Label, Bijective, Known, MayLabel;
    ShadowIsBijective(c, r, {tx.sender});
    PutKeepsQueued(c, {}, tx);
    assert c.pending - {} == c.pending;
    forall g | g in Put(c, tx).pending
      ensures var c', r' := Put(c, tx), Ensure(r, tx.hash, tx.sender, tx.nonce);
        Known(c', r', g) && (c'.pending[g].sender != tx.sender ==> MayLabel(c', r', g))
    {
      StalePutKnows(c, r, tx, g);
    }
  }

  /** Both events of a replacement together lead to the admitted state, whatever the resumed state knew. */
  lemma ShadowReplaced(c: ValidCore, r: Pool, tx: Tx, cfg: Config)
    requires Shadows(c, r) && Decide(c, tx, cfg).Replaced?
    ensures Shadows(Admit(c, tx, cfg), ApplyDecoded(ApplyReplaced(r, Decide(c, tx, cfg).replacedHash, tx.hash), tx))
  {
    hide ShadowsExcept, ApplyDecoded, ApplySettled, Admit, Put, Evict, Bijective;
    var incumbent := Decide(c, tx, cfg).replacedHash;
    ShadowIsBijective(c, r, {});
    ReplaceIsEvictAndPut(c, tx, cfg);
    ShadowKnows(c, r, incumbent);
    if KnowsSlot(r, incumbent) {
      ShadowSettledEvicts(c, r, incumbent, ReplacedBy(tx.hash));
      ShadowDecodedPuts(Evict(c, incumbent), ApplySettled(r, incumbent, ReplacedBy(tx.hash)), tx);
    } else {
      ShadowUnknownReplaced(c, r, tx, cfg);
    }
  }

  // ---------------------------------------------------------------- queue transitions

  lemma ShadowEnsureKnows(c: Core, r: Pool, h: TxHash, g: TxHash)
    requires Shadows(c, r) && h in c.pending && g in c.pending
    ensures var r' := Ensure(r, h, c.pending[h].sender, c.pending[h].nonce); Known(c, r', g) && MayLabel(c, r', g)
  {
    hide Label, Bijective;
    assert Known(c, r, g) && MayLabel(c, r, g) && Known(c, r, h);
  }

  lemma ShadowEnsured(c: Core, r: Pool, h: TxHash)
    requires Shadows(c, r) && h in c.pending
    ensures Shadows(c, Ensure(r, h, c.pending[h].sender, c.pending[h].nonce))
  {
    hide Label, Bijective, Known, MayLabel;
    ShadowKnows(c, r, h);
    var tx, r' := c.pending[h], Ensure(r, h, c.pending[h].sender, c.pending[h].nonce);
    assert r.queues[tx.sender][tx.nonce := h] == r.queues[tx.sender];
    assert r'.queues == r.queues;
    forall g | g in c.pending ensures Known(c, r', g) && MayLabel(c, r', g) {
      ShadowEnsureKnows(c, r, h, g);
    }
  }

  lemma ShadowStateSet(c: Core, r: Pool, h: TxHash, state: QueueState)
    requires Shadows(c, r) && h in c.pending
    requires Queued(c, c.pending[h]) && state == Label(c.queues[c.pending[h].sender].Keys, c.pending[h].nonce)
    ensures Shadows(c, r.(txs := SetQueueState(r.txs, h, Some(state))))
  {
    hide Label, Bijective;
    var r' := r.(txs := SetQueueState(r.txs, h, Some(state)));
    forall g | g in c.pending ensures Known(c, r', g) && MayLabel(c, r', g) {
      assert Known(c, r, g) && MayLabel(c, r, g);
    }
  }

  /** A queue transition that repeats the current label teaches the resumed state slot and label, and nothing wrong. */
  lemma ShadowTransition(c: Core, r: Pool, t: Transition)
    requires Shadows(c, r) && Current(c, t)
    ensures Shadows(c, Apply(r, TransitionEvent(t)))
  {
    hide Recompute, Ensure, ShadowsExcept, Label;
    ShadowKnows(c, r, t.hash);
    var ensured := Ensure(r, t.hash, t.sender, t.nonce);
    ShadowEnsured(c, r, t.hash);
    ShadowLoosely(c, ensured, t.sender);
    ShadowRecompute(c, ensured, t.sender);
    ShadowStateSet(c, Recompute(ensured, t.sender), t.hash, t.state);
  }

  // ---------------------------------------------------------------- what it shows, and where it starts

  lemma ShadowLabel(c: Core, r: Pool, s: Address, n: U64)
    requires Shadows(c, r) && s in c.queues && n in c.queues[s]
    ensures LiveNonces(r.txs, c.queues[s]) == c.queues[s].Keys
    ensures StateOr(r.txs, c.queues[s][n], Label(c.queues[s].Keys, n)) == Label(c.queues[s].Keys, n)
  {
    ShadowQueueIsLive(c, r, {}, s);
    var h := c.queues[s][n];
    assert FillsSlot(c, h, s, n);
    assert Known(c, r, h) && MayLabel(c, r, h);
  }

  lemma {:induction false} ShadowEntries(c: Core, r: Pool, s: Address, i: nat)
    requires Shadows(c, r) && s in c.queues && i <= |c.queues[s].Keys|
    ensures QueuedUpTo(r.txs, c.queues[s], i) == PositionsUpTo(c.queues[s], i)
  {
    hide Label, ShadowsExcept, Bijective, LiveNonces, StateOr;
    if i > 0 {
      ShadowEntries(c, r, s, i - 1);
      var n := Nonces(c.queues[s].Keys)[i - 1];
      assert n in c.queues[s].Keys;
      ShadowLabel(c, r, s, n);
    }
  }

  lemma ShadowQueues(c: Core, r: Pool)
    requires Shadows(c, r)
    ensures r.queues == c.queues && forall s :: s in c.queues ==> |c.queues[s].Keys| > 0
  {
  }

  lemma {:induction false} ShadowViewUpTo(c: Core, r: Pool, k: nat)
    requires Shadows(c, r) && k <= |c.queues.Keys|
    ensures r.queues == c.queues && PoolViewUpTo(r, k) == SchedulerViewUpTo(c, k)
  {
    hide ShadowsExcept, Bijective, Label, PositionsUpTo, QueuedUpTo;
    ShadowQueues(c, r);
    if k > 0 {
      ShadowViewUpTo(c, r, k - 1);
      var s := Ascending(c.queues.Keys)[k - 1];
      assert s in c.queues.Keys;
      ShadowEntries(c, r, s, |c.queues[s].Keys|);
    }
  }

  /** Such a state shows exactly what the scheduler shows, labels included. */
  lemma ShadowViews(c: Core, r: Pool)
    requires Shadows(c, r)
    ensures PendingHashes(r) == c.pending.Keys && PoolView(r) == SchedulerView(c)
  {
    ShadowViewUpTo(c, r, |c.queues.Keys|);
    forall h | h in c.pending ensures IsPending(r.txs, h) {
      assert Known(c, r, h);
    }
  }

  predicate NoEmptyQueue(r: Pool) {
    forall s :: s in r.queues ==> r.queues[s] != map[]
  }

  lemma SeededEntryFilled(r: Pool, sender: Address, entry: Position)
    requires NoEmptyQueue(r)
    ensures NoEmptyQueue(SeedEntry(r, sender, entry))
  {
    assert entry.nonce in SeedEntry(r, sender, entry).queues[sender];
  }

  lemma {:induction false} SeededQueueFilled(r: Pool, sender: Address, queued: seq<Position>, i: nat)
    requires i <= |queued| && NoEmptyQueue(r)
    ensures NoEmptyQueue(SeedQueue(r, sender, queued, i))
  {
    if i > 0 {
      SeededQueueFilled(r, sender, queued, i - 1);
      SeededEntryFilled(SeedQueue(r, sender, queued, i - 1), sender, queued[i - 1]);
    }
  }

  lemma {:induction false} SeededQueuesFilled(r: Pool, view: seq<QueueView>, k: nat)
    requires k <= |view| && NoEmptyQueue(r)
    ensures NoEmptyQueue(SeedQueues(r, view, k))
  {
    hide NoEmptyQueue, SeedQueue;
    if k > 0 {
      SeededQueuesFilled(r, view, k - 1);
      var v := view[k - 1];
      SeededQueueFilled(SeedQueues(r, view, k - 1), v.sender, v.queued, |v.queued|);
    }
  }

  /** The state a replay resumes with after `m`. */
  ghost function Resumed(m: Pool): Pool {
    FromCheckpoint(Ascending(PendingHashes(m)), PoolView(m))
  }

  lemma SameSlots(a: Pool, b: Pool)
    requires NoEmptyQueue(a) && NoEmptyQueue(b)
    requires forall s, n, h :: SlotHas(a, s, n, h) <==> SlotHas(b, s, n, h)
    ensures a.queues == b.queues
  {
    forall s: Address ensures s in a.queues <==> s in b.queues {
      if s in a.queues {
        var n :| n in a.queues[s];
        assert SlotHas(a, s, n, a.queues[s][n]);
      }
      if s in b.queues {
        var n :| n in b.queues[s];
        assert SlotHas(b, s, n, b.queues[s][n]);
      }
    }
    forall s | s in a.queues ensures a.queues[s] == b.queues[s] {
      forall n: U64
        ensures n in a.queues[s] <==> n in b.queues[s]
        ensures n in a.queues[s] ==> a.queues[s][n] == b.queues[s][n]
      {
        if n in a.queues[s] {
          assert SlotHas(a, s, n, a.queues[s][n]);
        }
        if n in b.queues[s] {
          assert SlotHas(b, s, n, b.queues[s][n]);
        }
      }
    }
  }

  lemma AgreeingIsLive(c: Core, m: Pool, s: Address, n: U64, h: TxHash)
    requires Agrees(c, m) && SlotHas(m, s, n, h)
    ensures LiveAt(m, s, n, h)
  {
    QueueIsLive(c, m, {}, s);
    assert FillsSlot(c, h, s, n);
    assert KnownPending(c, m, h);
  }

  lemma ResumedQueues(c: Core, m: Pool, log: seq<Payload>)
    requires Agrees(c, m) && FromLog(m, log)
    ensures Resumed(m).queues == m.queues
  {
    hide PoolView, PendingHashes, FromLog, AgreesExcept, SlotHas, LiveAt, SeedPending, SeedQueues;
    var r := Resumed(m);
    CheckpointShowsSame(m, log);
    AgreesQueues(c, m);
    StartsUnqueued(Ascending(PendingHashes(m)));
    SeededQueuesFilled(Mempool.FromPendingHashes(Ascending(PendingHashes(m))), PoolView(m), |PoolView(m)|);
    forall s, n, h ensures SlotHas(m, s, n, h) <==> SlotHas(r, s, n, h) {
      if SlotHas(m, s, n, h) {
        AgreeingIsLive(c, m, s, n, h);
        LiveHasSlot(r, s, n, h);
      }
    }
    SameSlots(m, r);
  }

  lemma StartsUnqueued(hashes: seq<TxHash>)
    ensures NoEmptyQueue(Mempool.FromPendingHashes(hashes))
  {
  }

  lemma LiveHasSlot(m: Pool, s: Address, n: U64, h: TxHash)
    ensures LiveAt(m, s, n, h) ==> SlotHas(m, s, n, h)
  {
  }

  lemma ResumedKnows(c: Core, m: Pool, log: seq<Payload>, h: TxHash)
    requires Agrees(c, m) && FromLog(m, log) && h in c.pending
    ensures Known(c, Resumed(m), h) && MayLabel(c, Resumed(m), h)
  {
    hide PoolView, FromLog, AgreesExcept, SeedPending, FromCheckpoint, Label, Bijective, SameShown;
    CheckpointShowsSame(m, log);
    SettledKnows(c, m, h);
    var hashes := Ascending(PendingHashes(m));
    assert h in PendingHashes(m) && h in hashes;
    SeedPendingIs(hashes, |hashes|, h);
  }

  /** Resuming where the full replay agrees with the scheduler loses slots and labels, but gets none wrong. */
  lemma ResumedShadows(c: Core, m: Pool, log: seq<Payload>)
    requires Agrees(c, m) && FromLog(m, log)
    ensures Shadows(c, Resumed(m))
  {
    hide PoolView, PendingHashes, FromLog, SeedPending, FromCheckpoint, Known, MayLabel, Bijective, KnownPending,
      SameLabel;
    var r := Resumed(m);
    CheckpointShowsSame(m, log);
    ResumedQueues(c, m, log);
    forall h | h in c.pending ensures Known(c, r, h) && MayLabel(c, r, h) {
      ResumedKnows(c, m, log, h);
    }
  }

  // ---------------------------------------------------------------- within one admission

  /** The scheduler state the replay has reached after `d` of an admission's events. */
  ghost function CoreAfter(c: ValidCore, tx: Tx, cfg: Config, d: nat): Core {
    if d == 0 then c
    else if Decide(c, tx, cfg).Replaced? && d == 1 then
      var h := Decide(c, tx, cfg).replacedHash;
      if h in c.pending && Queued(c, c.pending[h]) then Evict(c, h) else c
    else Admit(c, tx, cfg)
  }

  /** The events of one admission. */
  ghost function AdmissionEvents(c: ValidCore, tx: Tx, cfg: Config): seq<Payload> {
    OutcomeEvents(tx, AdmitOutcome(c, tx, cfg))
  }

  lemma EventsOfAdmission(c: ValidCore, tx: Tx, cfg: Config)
    ensures var events, decision, ts :=
      AdmissionEvents(c, tx, cfg), DecisionEvents(tx, Decide(c, tx, cfg)), AdmitOutcome(c, tx, cfg).transitions;
      && |events| == |decision| + |ts| && events[..|decision|] == decision
      && (forall k :: |decision| <= k < |events| ==> events[k] == TransitionEvent(ts[k - |decision|]))
      && (forall k :: 0 <= k < |ts| ==> Current(Admit(c, tx, cfg), ts[k]))
      && (Decide(c, tx, cfg).Duplicate? ==> ts == [])
  {
    hide Current, Admit, Decide, TransitionEvent;
    OutcomeDecision(c, tx, cfg);
    ReportedAreCurrent(c, tx, cfg);
    TransitionEventAt(AdmitOutcome(c, tx, cfg).transitions, |AdmitOutcome(c, tx, cfg).transitions|);
    DuplicateReportsNothing(c, tx, cfg);
  }

  lemma DuplicateReportsNothing(c: ValidCore, tx: Tx, cfg: Config)
    ensures Decide(c, tx, cfg).Duplicate? ==> AdmitOutcome(c, tx, cfg).transitions == []
  {
  }

  /** The full replay agrees with that state at every point of the admission. */
  lemma {:induction false} FullWithin(c: ValidCore, m: Pool, tx: Tx, cfg: Config, d: nat)
    requires Agrees(c, m) && d <= |AdmissionEvents(c, tx, cfg)|
    ensures Agrees(CoreAfter(c, tx, cfg, d), Replay(m, AdmissionEvents(c, tx, cfg), d))
  {
    hide Agrees, Apply, Current, Admit, Decide, AdmissionEvents, CoreAfter, AdmitOutcome, TransitionEvent;
    var events, decision := AdmissionEvents(c, tx, cfg), DecisionEvents(tx, Decide(c, tx, cfg));
    EventsOfAdmission(c, tx, cfg);
    CoreWithin(c, tx, cfg, d);
    if d > |decision| {
      FullWithin(c, m, tx, cfg, d - 1);
      CoreWithin(c, tx, cfg, d - 1);
      var ts := AdmitOutcome(c, tx, cfg).transitions;
      CurrentIsIdle(Admit(c, tx, cfg), Replay(m, events, d - 1), ts[d - 1 - |decision|]);
    } else if d == |decision| {
      DecisionAgrees(c, m, tx, cfg);
      ReplaySame(m, events, decision, d);
    } else if d == 1 {
      HalfReplaced(c, m, tx, cfg);
      ReplaySame(m, events, decision, d);
    }
  }

  lemma {:induction false} ReplaySame(m: Pool, a: seq<Payload>, b: seq<Payload>, i: nat)
    requires i <= |a| && i <= |b| && a[..i] == b[..i]
    ensures Replay(m, a, i) == Replay(m, b, i)
  {
    hide Apply;
    if i > 0 {
      assert a[..i - 1] == a[..i][..i - 1] && b[..i - 1] == b[..i][..i - 1];
      ReplaySame(m, a, b, i - 1);
      assert a[i - 1] == a[..i][i - 1] && b[i - 1] == b[..i][i - 1];
    }
  }

  lemma CoreWithin(c: ValidCore, tx: Tx, cfg: Config, d: nat)
    ensures var n := |DecisionEvents(tx, Decide(c, tx, cfg))|;
      && (d >= n ==> CoreAfter(c, tx, cfg, d) == Admit(c, tx, cfg)) && (d == 0 ==> CoreAfter(c, tx, cfg, d) == c)
      && (0 < d < n ==> d == 1 && Decide(c, tx, cfg).Replaced?)
  {
  }

  lemma HalfReplaced(c: ValidCore, m: Pool, tx: Tx, cfg: Config)
    requires Agrees(c, m) && Decide(c, tx, cfg).Replaced?
    ensures Agrees(CoreAfter(c, tx, cfg, 1), Replay(m, DecisionEvents(tx, Decide(c, tx, cfg)), 1))
  {
    hide Agrees, ApplySettled, Admit, Evict, Put;
    var decision, h := DecisionEvents(tx, Decide(c, tx, cfg)), Decide(c, tx, cfg).replacedHash;
    AgreesBijective(c, m);
    ReplaceIsEvictAndPut(c, tx, cfg);
    KnownToPool(c, m, h);
    SettledEvicts(c, m, h, ReplacedBy(tx.hash));
    assert Replay(m, decision, 0) == m;
  }

  /** Position `d` follows the first event of a replacement. */
  predicate Between(events: seq<Payload>, d: nat)
    requires d <= |events|
  {
    d > 0 && events[d - 1].TxReplaced?
  }

  lemma BetweenIs(c: ValidCore, tx: Tx, cfg: Config, d: nat)
    requires d <= |AdmissionEvents(c, tx, cfg)|
    ensures Between(AdmissionEvents(c, tx, cfg), d) <==> d == 1 && Decide(c, tx, cfg).Replaced?
  {
    hide Current, Admit, Decide, AdmissionEvents;
    EventsOfAdmission(c, tx, cfg);
    var decision, events := DecisionEvents(tx, Decide(c, tx, cfg)), AdmissionEvents(c, tx, cfg);
    if 0 < d <= |decision| {
      assert events[d - 1] == events[..|decision|][d - 1] == decision[d - 1];
    }
  }

  /** What one decision event, or the two of a replacement, make of a resumed state. */
  lemma ShadowDecision(c: ValidCore, r: Pool, tx: Tx, cfg: Config)
    requires Shadows(c, r) && !Decide(c, tx, cfg).Duplicate?
    ensures Shadows(Admit(c, tx, cfg), ReplayAll(r, DecisionEvents(tx, Decide(c, tx, cfg))))
  {
    hide Shadows, ApplyDecoded, ApplySettled, ApplyReplaced, Put, Evict;
    ShadowFacts(c, r);
    var events := DecisionEvents(tx, Decide(c, tx, cfg));
    match Decide(c, tx, cfg)
    case Admitted =>
      ReplayOne(r, events);
      ShadowDecodedPuts(c, r, tx);
    case Replaced(incumbent) =>
      ReplayTwo(r, events);
      ShadowReplaced(c, r, tx, cfg);
    case UnderpricedReplacement =>
      ReplayOne(r, events);
      ShadowRefused(c, r, tx.hash, Dropped(UNDERPRICED));
    case SenderLimitReached =>
      ReplayOne(r, events);
      ShadowRefused(c, r, tx.hash, Dropped(SENDER_LIMIT));
    case Duplicate =>
  }

  lemma ShadowFacts(c: Core, r: Pool)
    requires Shadows(c, r)
    ensures Bijective(c) && r.queues == c.queues
  {
  }

  /** The second event of a replacement, where the first came before the checkpoint. */
  lemma ShadowSecondHalf(c: ValidCore, r: Pool, tx: Tx, cfg: Config)
    requires Bijective(c) && Decide(c, tx, cfg).Replaced? && Shadows(CoreAfter(c, tx, cfg, 1), r)
    ensures Shadows(Admit(c, tx, cfg), ApplyDecoded(r, tx))
  {
    hide Shadows, ApplyDecoded, Put, Evict, Admit, Bijective;
    ReplaceIsEvictAndPut(c, tx, cfg);
    ShadowDecodedPuts(Evict(c, Decide(c, tx, cfg).replacedHash), r, tx);
  }

  /** Queue transitions that report the current state keep it. */
  lemma {:induction false} ShadowOverTransitions(
      c: Core, r: Pool, tail: seq<Payload>, x: nat, y: nat, ts: seq<Transition>)
    requires x <= y <= |tail| && Shadows(c, Replay(r, tail, x)) && |tail| == x + |ts|
    requires forall k :: 0 <= k < |ts| ==> tail[x + k] == TransitionEvent(ts[k]) && Current(c, ts[k])
    ensures Shadows(c, Replay(r, tail, y))
    decreases y
  {
    hide Shadows, Apply, Current, TransitionEvent;
    if x < y {
      ShadowOverTransitions(c, r, tail, x, y - 1, ts);
      assert tail[x + (y - 1 - x)] == TransitionEvent(ts[y - 1 - x]) && Current(c, ts[y - 1 - x]);
      ShadowTransition(c, Replay(r, tail, y - 1), ts[y - 1 - x]);
    }
  }

  lemma DecisionSize(tx: Tx, a: Admission)
    ensures |DecisionEvents(tx, a)| == match a case Duplicate => 0 case Replaced(_) => 2 case _ => 1
  {
  }

  /** The decision events from any of them on. */
  lemma ShadowOverDecision(c: ValidCore, r: Pool, tx: Tx, cfg: Config, from: nat)
    requires Bijective(c) && Shadows(CoreAfter(c, tx, cfg, from), r)
    requires from < |DecisionEvents(tx, Decide(c, tx, cfg))| <= |AdmissionEvents(c, tx, cfg)|
    ensures var decision := DecisionEvents(tx, Decide(c, tx, cfg));
      Shadows(Admit(c, tx, cfg), Replay(r, AdmissionEvents(c, tx, cfg)[from..], |decision| - from))
  {
    hide Shadows, Replay, Current, Admit, Decide, AdmissionEvents, CoreAfter, Bijective, DecisionEvents;
    DecisionSize(tx, Decide(c, tx, cfg));
    CoreWithin(c, tx, cfg, from);
    if from == 0 {
      ShadowFromFirst(c, r, tx, cfg);
    } else {
      ShadowFromSecond(c, r, tx, cfg);
    }
  }

  lemma ShadowFromFirst(c: ValidCore, r: Pool, tx: Tx, cfg: Config)
    requires Shadows(c, r) && 0 < |DecisionEvents(tx, Decide(c, tx, cfg))| <= |AdmissionEvents(c, tx, cfg)|
    ensures var decision := DecisionEvents(tx, Decide(c, tx, cfg));
      Shadows(Admit(c, tx, cfg), Replay(r, AdmissionEvents(c, tx, cfg)[0..], |decision|))
  {
    hide Shadows, Apply, Current, Admit, Decide, AdmissionEvents, DecisionEvents, AdmitOutcome, TransitionEvent;
    var events, decision := AdmissionEvents(c, tx, cfg), DecisionEvents(tx, Decide(c, tx, cfg));
    EventsOfAdmission(c, tx, cfg);
    DecisionSize(tx, Decide(c, tx, cfg));
    assert events[0..] == events;
    ShadowDecision(c, r, tx, cfg);
    ReplaySame(r, events, decision, |decision|);
  }

  lemma ShadowFromSecond(c: ValidCore, r: Pool, tx: Tx, cfg: Config)
    requires Bijective(c) && Decide(c, tx, cfg).Replaced? && Shadows(CoreAfter(c, tx, cfg, 1), r)
    requires |AdmissionEvents(c, tx, cfg)| >= 2
    ensures Shadows(Admit(c, tx, cfg), Replay(r, AdmissionEvents(c, tx, cfg)[1..], 1))
  {
    hide Shadows, Apply, Current, Admit, Decide, AdmissionEvents, CoreAfter, Bijective, AdmitOutcome, TransitionEvent;
    var events, decision := AdmissionEvents(c, tx, cfg), DecisionEvents(tx, Decide(c, tx, cfg));
    EventsOfAdmission(c, tx, cfg);
    assert events[..|decision|][1] == decision[1];
    SecondIsDecoded(c, r, tx, cfg, events[1..]);
    ShadowSecondHalf(c, r, tx, cfg);
  }

  /** A resumed state follows an admission from any event of it to any later one but the middle of a replacement. */
  lemma ShadowWithin(c: ValidCore, r: Pool, tx: Tx, cfg: Config, from: nat, d: nat)
    requires Bijective(c) && from <= d <= |AdmissionEvents(c, tx, cfg)| && Shadows(CoreAfter(c, tx, cfg, from), r)
    requires from == d || !Between(AdmissionEvents(c, tx, cfg), d)
    ensures Shadows(CoreAfter(c, tx, cfg, d), Replay(r, AdmissionEvents(c, tx, cfg)[from..], d - from))
  {
    hide Shadows, Apply, Current, Admit, Decide, AdmissionEvents, CoreAfter, Bijective, TransitionEvent, Between;
    var n := |DecisionEvents(tx, Decide(c, tx, cfg))|;
    if from < d {
      EventsOfAdmission(c, tx, cfg);
      BetweenIs(c, tx, cfg, d);
      CoreWithin(c, tx, cfg, d);
      CoreWithin(c, tx, cfg, from);
      if from < n {
        ShadowOverDecision(c, r, tx, cfg, from);
        ShadowRest(c, r, tx, cfg, from, n, d);
      } else {
        ShadowRest(c, r, tx, cfg, from, from, d);
      }
    }
  }

  lemma ShadowRest(c: ValidCore, r: Pool, tx: Tx, cfg: Config, from: nat, done: nat, d: nat)
    requires from <= done <= d <= |AdmissionEvents(c, tx, cfg)|
    requires done >= |DecisionEvents(tx, Decide(c, tx, cfg))|
    requires Shadows(Admit(c, tx, cfg), Replay(r, AdmissionEvents(c, tx, cfg)[from..], done - from))
    ensures Shadows(Admit(c, tx, cfg), Replay(r, AdmissionEvents(c, tx, cfg)[from..], d - from))
  {
    hide Shadows, Apply, Current, Admit, Decide, AdmissionEvents, TransitionEvent, DecisionEvents, AdmitOutcome;
    var n, events := |DecisionEvents(tx, Decide(c, tx, cfg))|, AdmissionEvents(c, tx, cfg);
    var ts := AdmitOutcome(c, tx, cfg).transitions;
    EventsOfAdmission(c, tx, cfg);
    var tail, left := events[from..], ts[done - n..];
    forall k | 0 <= k < |left|
      ensures tail[done - from + k] == TransitionEvent(left[k]) && Current(Admit(c, tx, cfg), left[k])
    {
      assert left[k] == ts[done - n + k];
    }
    ShadowOverTransitions(Admit(c, tx, cfg), r, tail, done - from, d - from, left);
  }

  lemma SecondIsDecoded(c: ValidCore, r: Pool, tx: Tx, cfg: Config, tail: seq<Payload>)
    requires Decide(c, tx, cfg).Replaced? && |tail| > 0 && tail[0] == DecisionEvents(tx, Decide(c, tx, cfg))[1]
    ensures Replay(r, tail, 1) == ApplyDecoded(r, tx)
  {
    assert Replay(r, tail, 0) == r;
  }

  // ---------------------------------------------------------------- along the whole run

  /** The scheduler state the replay has reached after `g` of the recorded events of `n` submissions. */
  ghost function CoreAt(txs: seq<Tx>, cfg: Config, n: nat, g: nat): Core
    requires n <= |txs|
  {
    if n == 0 then EMPTY
    else if g <= |Recorded(txs, cfg, n - 1)| then CoreAt(txs, cfg, n - 1, g)
    else CoreWithinStep(txs, cfg, n - 1, g - |Recorded(txs, cfg, n - 1)|)
  }

  ghost function CoreWithinStep(txs: seq<Tx>, cfg: Config, j: nat, d: nat): Core
    requires j < |txs|
  {
    CoreAfter(Run(EMPTY, txs, j, cfg), txs[j], cfg, d)
  }

  lemma StepIsAdmission(txs: seq<Tx>, cfg: Config, j: nat)
    requires j < |txs|
    ensures StepEvents(txs, cfg, j) == AdmissionEvents(Run(EMPTY, txs, j, cfg), txs[j], cfg)
  {
  }

  lemma AdmittedAtEnd(c: ValidCore, tx: Tx, cfg: Config)
    ensures CoreAfter(c, tx, cfg, |AdmissionEvents(c, tx, cfg)|) == Admit(c, tx, cfg)
    ensures |AdmissionEvents(c, tx, cfg)| == 0 ==> Admit(c, tx, cfg) == c
  {
    hide Current, Admit, Decide, AdmissionEvents, CoreAfter;
    EventsOfAdmission(c, tx, cfg);
    CoreWithin(c, tx, cfg, |AdmissionEvents(c, tx, cfg)|);
  }

  lemma {:induction false} CoreAtEnd(txs: seq<Tx>, cfg: Config, n: nat)
    requires n <= |txs|
    ensures CoreAt(txs, cfg, n, |Recorded(txs, cfg, n)|) == Run(EMPTY, txs, n, cfg)
  {
    hide StepEvents, AdmissionEvents, CoreAfter, Admit;
    if n > 0 {
      CoreAtEnd(txs, cfg, n - 1);
      StepIsAdmission(txs, cfg, n - 1);
      AdmittedAtEnd(Run(EMPTY, txs, n - 1, cfg), txs[n - 1], cfg);
    }
  }

  /** At every recorded event the full replay agrees with some state of the scheduler, mid-replacement included. */
  lemma {:induction false} FullAt(txs: seq<Tx>, cfg: Config, n: nat, g: nat)
    requires n <= |txs| && g <= |Recorded(txs, cfg, n)|
    ensures Agrees(CoreAt(txs, cfg, n, g), Replay(EMPTY_POOL, Recorded(txs, cfg, n), g))
  {
    hide StepEvents, AdmissionEvents, CoreAfter, Admit, Apply, Agrees;
    if n == 0 {
      EmptyAgrees();
    } else {
      var earlier, step := Recorded(txs, cfg, n - 1), StepEvents(txs, cfg, n - 1);
      if g <= |earlier| {
        FullAt(txs, cfg, n - 1, g);
        ReplayPrefix(EMPTY_POOL, earlier, step, g);
      } else {
        FullAt(txs, cfg, n - 1, |earlier|);
        CoreAtEnd(txs, cfg, n - 1);
        StepIsAdmission(txs, cfg, n - 1);
        ReplayConcat(EMPTY_POOL, earlier, step, g - |earlier|);
        FullWithin(Run(EMPTY, txs, n - 1, cfg), ReplayAll(EMPTY_POOL, earlier), txs[n - 1], cfg, g - |earlier|);
      }
    }
  }

  lemma LastNotReplaced(txs: seq<Tx>, cfg: Config, n: nat)
    requires n <= |txs|
    ensures !Between(Recorded(txs, cfg, n), |Recorded(txs, cfg, n)|)
  {
    hide StepEvents, AdmissionEvents, Run;
    if n > 0 {
      LastNotReplaced(txs, cfg, n - 1);
      StepIsAdmission(txs, cfg, n - 1);
      LastOfAdmission(Run(EMPTY, txs, n - 1, cfg), txs[n - 1], cfg);
    }
  }

  lemma LastOfAdmission(c: ValidCore, tx: Tx, cfg: Config)
    ensures !Between(AdmissionEvents(c, tx, cfg), |AdmissionEvents(c, tx, cfg)|)
  {
    hide AdmissionEvents, Admit, Decide, Current, AdmitOutcome, Between;
    EventsOfAdmission(c, tx, cfg);
    BetweenIs(c, tx, cfg, |AdmissionEvents(c, tx, cfg)|);
  }

  lemma RunIsBijective(txs: seq<Tx>, cfg: Config, i: nat)
    requires i <= |txs|
    ensures Bijective(Run(EMPTY, txs, i, cfg))
  {
    History.EmptyIsBijective();
    RunKeepsBijection(EMPTY, txs, i, cfg);
  }

  /** A resumed state follows the run from any recorded event to any later one but the middle of a replacement. */
  lemma {:induction false} ShadowAlong(txs: seq<Tx>, cfg: Config, n: nat, f: nat, g: nat, r: Pool)
    requires n <= |txs| && f <= g <= |Recorded(txs, cfg, n)| && Shadows(CoreAt(txs, cfg, n, f), r)
    requires f == g || !Between(Recorded(txs, cfg, n), g)
    ensures Shadows(CoreAt(txs, cfg, n, g), Replay(r, Recorded(txs, cfg, n)[f..], g - f))
    decreases n
  {
    hide StepEvents, AdmissionEvents, CoreAfter, Admit, Apply, Shadows, Bijective, Run;
    if f < g {
      var earlier, step := Recorded(txs, cfg, n - 1), StepEvents(txs, cfg, n - 1);
      var e := |earlier|;
      if g <= e {
        ShadowAlong(txs, cfg, n - 1, f, g, r);
        assert Recorded(txs, cfg, n)[f..] == earlier[f..] + step;
        ReplayPrefix(r, earlier[f..], step, g - f);
      } else {
        ShadowIntoStep(txs, cfg, n, f, g, r);
      }
    }
  }

  lemma {:induction false} ShadowIntoStep(txs: seq<Tx>, cfg: Config, n: nat, f: nat, g: nat, r: Pool)
    requires 0 < n <= |txs| && f < g <= |Recorded(txs, cfg, n)| && g > |Recorded(txs, cfg, n - 1)|
    requires Shadows(CoreAt(txs, cfg, n, f), r) && !Between(Recorded(txs, cfg, n), g)
    ensures Shadows(CoreAt(txs, cfg, n, g), Replay(r, Recorded(txs, cfg, n)[f..], g - f))
    decreases n, 0
  {
    hide StepEvents, AdmissionEvents, CoreWithinStep, Admit, Apply, Shadows, Bijective, Run, Replay;
    var earlier, step := Recorded(txs, cfg, n - 1), StepEvents(txs, cfg, n - 1);
    var e := |earlier|;
    CoreAtEnd(txs, cfg, n - 1);
    assert !Between(step, g - e) by {
      assert Recorded(txs, cfg, n)[g - 1] == step[g - e - 1];
    }
    if f >= e {
      assert Recorded(txs, cfg, n)[f..] == step[f - e..];
      StepStart(txs, cfg, n - 1);
      ShadowStep(txs, cfg, n - 1, r, f - e, g - e);
    } else {
      LastNotReplaced(txs, cfg, n - 1);
      ShadowAlong(txs, cfg, n - 1, f, e, r);
      assert Recorded(txs, cfg, n)[f..] == earlier[f..] + step && step[0..] == step;
      StepStart(txs, cfg, n - 1);
      ShadowStep(txs, cfg, n - 1, ReplayAll(r, earlier[f..]), 0, g - e);
      ReplayConcat(r, earlier[f..], step, g - e);
    }
  }

  lemma StepStart(txs: seq<Tx>, cfg: Config, j: nat)
    requires j < |txs|
    ensures CoreWithinStep(txs, cfg, j, 0) == Run(EMPTY, txs, j, cfg)
  {
  }

  lemma ShadowStep(txs: seq<Tx>, cfg: Config, j: nat, r: Pool, from: nat, d: nat)
    requires j < |txs| && from <= d <= |StepEvents(txs, cfg, j)| && !Between(StepEvents(txs, cfg, j), d)
    requires Shadows(CoreWithinStep(txs, cfg, j, from), r)
    ensures Shadows(CoreWithinStep(txs, cfg, j, d), Replay(r, StepEvents(txs, cfg, j)[from..], d - from))
  {
    hide StepEvents, AdmissionEvents, CoreAfter, Admit, Apply, Shadows, Bijective, Run, Replay;
    StepIsAdmission(txs, cfg, j);
    RunIsBijective(txs, cfg, j);
    ShadowWithin(Run(EMPTY, txs, j, cfg), r, txs[j], cfg, from, d);
  }

  // ---------------------------------------------------------------- on any log of the run

  /** The last event of a log that can change the replayed state is the first of a replacement. */
  predicate AwaitsDecode(log: seq<Payload>) {
    Between(Loud(log), |Loud(log)|)
  }

  /** The full replay after `p` events. */
  ghost function FullState(log: seq<Payload>, p: nat): Pool
    requires p <= |log|
  {
    Replay(EMPTY_POOL, log, p)
  }

  /** The replay resumed at a checkpoint after `k` events, at position `p`. */
  ghost function ResumedState(log: seq<Payload>, k: nat, p: nat): Pool
    requires k <= p <= |log|
  {
    Replay(Resumed(FullState(log, k)), log[k..], p - k)
  }

  lemma LoudSplit(log: seq<Payload>, k: nat, p: nat)
    requires k <= p <= |log|
    ensures LoudUpTo(log, p) == LoudUpTo(log, k) + LoudUpTo(log[k..], p - k)
  {
    var a, b := log[..k], log[k..];
    assert log == a + b;
    LoudConcat(a, b, p - k);
    LoudPrefix(a, b, k);
  }

  lemma LoudTake(log: seq<Payload>, p: nat)
    requires p <= |log|
    ensures Loud(log[..p]) == LoudUpTo(log, p)
  {
    assert log == log[..p] + log[p..];
    LoudPrefix(log[..p], log[p..], p);
  }

  /** Positions of the log as positions of the record. */
  lemma Positions(txs: seq<Tx>, i: nat, cfg: Config, log: seq<Payload>, k: nat, p: nat)
    requires i <= |txs| && k <= p <= |log| && Loud(log) == Loud(Log(EMPTY, txs, i, cfg))
    ensures var all, f, g := Recorded(txs, cfg, i), |LoudUpTo(log, k)|, |LoudUpTo(log, p)|;
      && f <= g <= |all| && Loud(log[..p]) == all[..g]
      && LoudUpTo(log[k..], p - k) == all[f..g]
      && FullState(log, p) == Replay(EMPTY_POOL, all, g)
  {
    hide LoudUpTo, Recorded, Log, Apply, Replay;
    var all, f, g := Recorded(txs, cfg, i), |LoudUpTo(log, k)|, |LoudUpTo(log, p)|;
    LoudOfLog(txs, cfg, i);
    LoudSplit(log, k, p);
    LoudSplit(log, p, |log|);
    LoudTake(log, p);
    LoudIsWhole(log);
    assert all[..g] == LoudUpTo(log, p);
    assert all[f..g] == LoudUpTo(log[k..], p - k);
    QuietEventsIgnored(EMPTY_POOL, log, p);
    ReplaySame(EMPTY_POOL, LoudUpTo(log, p), all, g);
  }

  lemma ResumedStateIs(txs: seq<Tx>, i: nat, cfg: Config, log: seq<Payload>, k: nat, p: nat)
    requires i <= |txs| && k <= p <= |log| && Loud(log) == Loud(Log(EMPTY, txs, i, cfg))
    requires |LoudUpTo(log, k)| <= |LoudUpTo(log, p)| <= |Recorded(txs, cfg, i)|
    ensures var f, g := |LoudUpTo(log, k)|, |LoudUpTo(log, p)|;
      ResumedState(log, k, p) == Replay(Resumed(FullState(log, k)), Recorded(txs, cfg, i)[f..], g - f)
  {
    hide LoudUpTo, Recorded, Log, Apply, Replay, Resumed, FullState;
    var all, f, g := Recorded(txs, cfg, i), |LoudUpTo(log, k)|, |LoudUpTo(log, p)|;
    Positions(txs, i, cfg, log, k, p);
    QuietEventsIgnored(Resumed(FullState(log, k)), log[k..], p - k);
    assert all[f..g] == all[f..][..g - f];
    ReplaySame(Resumed(FullState(log, k)), LoudUpTo(log[k..], p - k), all[f..], g - f);
  }

  lemma BothStates(txs: seq<Tx>, i: nat, cfg: Config, log: seq<Payload>, k: nat, p: nat)
    requires i <= |txs| && k <= p <= |log| && Loud(log) == Loud(Log(EMPTY, txs, i, cfg))
    requires Loud(log[k..p]) == [] || !AwaitsDecode(log[..p])
    ensures |LoudUpTo(log, p)| <= |Recorded(txs, cfg, i)|
    ensures var core := CoreAt(txs, cfg, i, |LoudUpTo(log, p)|);
      Agrees(core, FullState(log, p)) && Shadows(core, ResumedState(log, k, p))
  {
    hide LoudUpTo, Recorded, Log, Apply, Replay, Resumed, FullState, Agrees, Shadows, CoreAt, FromLog;
    var all, f, g := Recorded(txs, cfg, i), |LoudUpTo(log, k)|, |LoudUpTo(log, p)|;
    Positions(txs, i, cfg, log, k, p);
    Positions(txs, i, cfg, log, k, k);
    LoudTake(log[k..], p - k);
    assert log[k..][..p - k] == log[k..p];
    assert Loud(log[k..p]) == [] ==> f == g;
    FullAt(txs, cfg, i, g);
    FullAt(txs, cfg, i, f);
    ReplayFromAnyLog(all, f);
    ResumedShadows(CoreAt(txs, cfg, i, f), FullState(log, k), all);
    ShadowAlong(txs, cfg, i, f, g, Resumed(FullState(log, k)));
    ResumedStateIs(txs, i, cfg, log, k, p);
  }

  /**
    Labels come right on the logs of admissions. Take any run and any log that records it,
    any checkpoint, and any later position that is not between the two events of a
    replacement begun after the checkpoint. The resumed replay then shows exactly what the
    full replay shows: the same pending hashes and queues, and the same labels.
   */
  lemma ResumedFramesOfRun(txs: seq<Tx>, i: nat, cfg: Config, log: seq<Payload>, k: nat, p: nat)
    requires i <= |txs| && k <= p <= |log| && Loud(log) == Loud(Log(EMPTY, txs, i, cfg))
    requires Loud(log[k..p]) == [] || !AwaitsDecode(log[..p])
    ensures PendingHashes(ResumedState(log, k, p)) == PendingHashes(FullState(log, p))
    ensures PoolView(ResumedState(log, k, p)) == PoolView(FullState(log, p))
  {
    hide LoudUpTo, Recorded, Log, Replay, Resumed, FullState, ResumedState, Agrees, Shadows, CoreAt, PoolView,
      PendingHashes;
    BothStates(txs, i, cfg, log, k, p);
    var core := CoreAt(txs, cfg, i, |LoudUpTo(log, p)|);
    AgreeingViews(core, FullState(log, p));
    ShadowViews(core, ResumedState(log, k, p));
  }

  /**
    The same for the frames a resumed replay emits: all of each frame but those in the
    middle of a replacement is the full replay's frame of the same event.
   */
  lemma ResumedReplayOfRun(txs: seq<Tx>, i: nat, cfg: Config, events: seq<Envelope>, k: nat, p: nat)
    requires UniqueSequence(events) && 0 < k < p <= |SortDeterministic(events)| && i <= |txs|
    requires var log := Payloads(SortDeterministic(events));
      Loud(log) == Loud(Log(EMPTY, txs, i, cfg)) && (Loud(log[k..p]) == [] || !AwaitsDecode(log[..p]))
    ensures var sorted := SortDeterministic(events);
      var checkpoint := CheckpointAfter(sorted, k);
      && TailOf(events, checkpoint.seqId) == sorted[k..]
      && FrameAfter(SeededState(checkpoint), sorted[k..], p - k) == FrameAfter(EMPTY_POOL, sorted, p)
  {
    hide LoudUpTo, Log, Replay, PoolView, PendingHashes, FromCheckpoint, AwaitsDecode;
    var sorted := SortDeterministic(events);
    SortedIsUnique(events);
    TailIsSuffix(sorted, k);
    ResumedFramesOfRun(txs, i, cfg, Payloads(sorted), k, p);
    assert Payloads(sorted[k..]) == Payloads(sorted)[k..];
  }

  /** At the end of any admission after the checkpoint, the resumed replay shows what the scheduler shows then. */
  lemma ResumedFrameIsScheduler(txs: seq<Tx>, i: nat, cfg: Config, log: seq<Payload>, k: nat, p: nat, j: nat)
    requires i <= |txs| && k <= p <= |log| && Loud(log) == Loud(Log(EMPTY, txs, i, cfg))
    requires j <= i && Loud(log[..p]) == Loud(Log(EMPTY, txs, j, cfg))
    ensures PendingHashes(ResumedState(log, k, p)) == Run(EMPTY, txs, j, cfg).pending.Keys
    ensures PoolView(ResumedState(log, k, p)) == SchedulerView(Run(EMPTY, txs, j, cfg))
  {
    hide LoudUpTo, Recorded, Log, Replay, Resumed, ResumedState, PoolView, PendingHashes, Run;
    LoudOfLog(txs, cfg, j);
    LastNotReplaced(txs, cfg, j);
    ResumedFramesOfRun(txs, i, cfg, log, k, p);
    ReplayRebuildsScheduler(txs, j, cfg, log[..p]);
    assert FullState(log, p) == ReplayAll(EMPTY_POOL, log[..p]) by {
      assert log[..p][..p] == log[..p];
      ReplaySame(EMPTY_POOL, log, log[..p], p);
    }
  }

  // ---------------------------------------------------------------- between the two events of a replacement

  lemma AgreeingLiveIff(c: Core, m: Pool, s: Address, n: U64, h: TxHash)
    requires Agrees(c, m)
    ensures LiveAt(m, s, n, h) <==> s in c.queues && n in c.queues[s] && c.queues[s][n] == h
  {
    if s in c.queues && n in c.queues[s] && c.queues[s][n] == h {
      AgreeingIsLive(c, m, s, n, h);
    }
  }

  lemma ShadowLiveIff(c: Core, r: Pool, s: Address, n: U64, h: TxHash)
    requires Shadows(c, r)
    ensures LiveAt(r, s, n, h) <==> s in c.queues && n in c.queues[s] && c.queues[s][n] == h
  {
    if s in c.queues && n in c.queues[s] && c.queues[s][n] == h {
      ShadowQueueIsLive(c, r, {}, s);
      assert FillsSlot(c, h, s, n);
      assert Known(c, r, h);
    }
  }

  /** Where the incumbent of a replacement stood. */
  ghost predicate StoodAt(c: Core, h: TxHash, s: Address, n: U64) {
    h in c.pending && c.pending[h].sender == s && c.pending[h].nonce == n && Queued(c, c.pending[h])
  }

  lemma EvictedSlots(c: Core, h: TxHash, s: Address, n: U64, s': Address, k: U64)
    requires Bijective(c) && StoodAt(c, h, s, n)
    ensures s' in Evict(c, h).queues && k in Evict(c, h).queues[s'] <==>
      s' in c.queues && k in c.queues[s'] && !(s' == s && k == n)
    ensures s' in Evict(c, h).queues && k in Evict(c, h).queues[s'] ==>
      Evict(c, h).queues[s'][k] == c.queues[s'][k] && c.queues[s'][k] != h
  {
    var left := c.queues[s] - {n};
    assert s' == s && k in c.queues[s] && k != n ==> k in left;
    if s' in c.queues && k in c.queues[s'] {
      assert FillsSlot(c, c.queues[s'][k], s', k);
    }
  }

  lemma HalfReplacedShows(c: Core, m': Pool, r: Pool, h: TxHash, s: Address, n: U64, status: Status)
    requires Shadows(c, r) && StoodAt(c, h, s, n) && Agrees(Evict(c, h), m') && !status.Pending?
    ensures SameShown(m', r.(txs := Settle(r.txs, h, status)))
  {
    hide Bijective, AgreesExcept, ShadowsExcept, LiveAt, Evict, PoolView, SchedulerView, Settle;
    var r' := r.(txs := Settle(r.txs, h, status));
    ShadowFacts(c, r);
    forall g ensures IsPending(m'.txs, g) <==> IsPending(r'.txs, g) {
      HalfReplacedPending(c, m', r, h, status, g);
    }
    forall s', k, g ensures LiveAt(m', s', k, g) <==> LiveAt(r', s', k, g) {
      AgreeingLiveIff(Evict(c, h), m', s', k, g);
      ShadowLiveIff(c, r, s', k, g);
      EvictedSlots(c, h, s, n, s', k);
      SettledLive(r, h, status, s', k, g);
      IncumbentOnlyThere(c, h, s, n, s', k);
    }
  }

  lemma HalfReplacedPending(c: Core, m': Pool, r: Pool, h: TxHash, status: Status, g: TxHash)
    requires Shadows(c, r) && h in c.pending && Queued(c, c.pending[h]) && Agrees(Evict(c, h), m') && !status.Pending?
    ensures IsPending(m'.txs, g) <==> IsPending(Settle(r.txs, h, status), g)
  {
    hide Bijective, AgreesExcept, ShadowsExcept, Evict, PoolView, SchedulerView;
    AgreeingViews(Evict(c, h), m');
    ShadowViews(c, r);
    assert g in PendingHashes(m') <==> g in Evict(c, h).pending;
    assert g in PendingHashes(r) <==> g in c.pending;
    EvictPending(c, h, g);
  }

  lemma EvictPending(c: Core, h: TxHash, g: TxHash)
    requires h in c.pending && Queued(c, c.pending[h])
    ensures g in Evict(c, h).pending <==> g in c.pending && g != h
  {
  }

  lemma IncumbentOnlyThere(c: Core, h: TxHash, s: Address, n: U64, s': Address, k: U64)
    requires Bijective(c) && StoodAt(c, h, s, n)
    ensures s' in c.queues && k in c.queues[s'] && s' == s && k == n ==> c.queues[s'][k] == h
  {
    if s' in c.queues && k in c.queues[s'] {
      assert FillsSlot(c, c.queues[s'][k], s', k);
    }
  }

  lemma SettledLive(r: Pool, h: TxHash, status: Status, s: Address, k: U64, g: TxHash)
    requires !status.Pending?
    ensures LiveAt(r.(txs := Settle(r.txs, h, status)), s, k, g) <==> LiveAt(r, s, k, g) && g != h
  {
  }

  /** The label the full replay shows of an entry that stays: the gap rule without the incumbent. */
  lemma FullHalfLabel(c: Core, m': Pool, h: TxHash, s: Address, n: U64, s': Address, k: U64)
    requires Bijective(c) && StoodAt(c, h, s, n) && Agrees(Evict(c, h), m')
    requires s' in c.queues && k in c.queues[s'] && !(s' == s && k == n)
    ensures s' in m'.queues && k in LiveNonces(m'.txs, m'.queues[s'])
    ensures ShownLabel(m', s', k) == Label(c.queues[s'].Keys - (if s' == s then {n} else {}), k)
  {
    hide Bijective, AgreesExcept, Label, Evict;
    EvictedSlots(c, h, s, n, s', k);
    AgreesQueues(Evict(c, h), m');
    EntryLabel(Evict(c, h), m', s', k);
    var rest := c.queues[s'].Keys - (if s' == s then {n} else {});
    forall x: U64 ensures x in Evict(c, h).queues[s'].Keys <==> x in rest {
      EvictedSlots(c, h, s, n, s', x);
    }
    assert Evict(c, h).queues[s'].Keys == rest;
  }

  /** The label the resumed replay shows of it: the stored one, or the same. */
  lemma ResumedHalfLabel(c: Core, r: Pool, h: TxHash, status: Status, s: Address, n: U64, s': Address, k: U64)
    requires Shadows(c, r) && StoodAt(c, h, s, n) && !status.Pending?
    requires s' in c.queues && k in c.queues[s'] && !(s' == s && k == n)
    ensures var r', rest := r.(txs := Settle(r.txs, h, status)), c.queues[s'].Keys - (if s' == s then {n} else {});
      && s' in r'.queues && k in LiveNonces(r'.txs, r'.queues[s']) && c.queues[s'][k] in r.txs
      && ShownLabel(r', s', k) == StateOr(r.txs, c.queues[s'][k], Label(rest, k))
      && r.txs[c.queues[s'][k]].queueState in {None, Some(Label(c.queues[s'].Keys, k))}
  {
    hide Bijective, Label;
    var r', q := r.(txs := Settle(r.txs, h, status)), c.queues[s'];
    ShadowFacts(c, r);
    ShadowQueueIsLive(c, r, {}, s');
    forall x: U64 | x in q ensures q[x] == h <==> s' == s && x == n {
      EvictedSlots(c, h, s, n, s', x);
      IncumbentOnlyThere(c, h, s, n, s', x);
    }
    assert LiveNonces(r'.txs, q) == q.Keys - (if s' == s then {n} else {});
    assert FillsSlot(c, q[k], s', k);
    assert Known(c, r, q[k]) && MayLabel(c, r, q[k]);
  }

  /** An entry has no stored label in the resumed state, or one that holds without nonce `n` too. */
  ghost predicate LabelSurvives(c: Core, r: Pool, s: Address, n: U64, k: U64)
    requires s in c.queues && k in c.queues[s] && k != n
  {
    c.queues[s][k] in r.txs && r.txs[c.queues[s][k]].queueState.Some? ==>
      Label(c.queues[s].Keys - {n}, k) == Label(c.queues[s].Keys, k)
  }

  /**
    After the first event of a replacement the pending lists agree, and the queues exactly
    when the resumed state knows the incumbent's slot, or stores no label for an entry that
    the incumbent's absence blocks.
   */
  lemma HalfReplacedViewsIff(c: Core, m: Pool, r: Pool, h: TxHash, newHash: TxHash, s: Address, n: U64)
    requires Agrees(c, m) && Shadows(c, r) && StoodAt(c, h, s, n)
    ensures PendingHashes(ApplyReplaced(r, h, newHash)) == PendingHashes(ApplyReplaced(m, h, newHash))
    ensures PoolView(ApplyReplaced(r, h, newHash)) == PoolView(ApplyReplaced(m, h, newHash)) <==>
      KnowsSlot(r, h) || forall k :: k in c.queues[s] && k != n ==> LabelSurvives(c, r, s, n, k)
  {
    hide AgreesExcept, ShadowsExcept, ApplySettled, PoolView, PendingHashes, Label, Bijective, Evict;
    var m', r', status := ApplyReplaced(m, h, newHash), ApplyReplaced(r, h, newHash), ReplacedBy(newHash);
    ShadowFacts(c, r);
    ShadowKnows(c, r, h);
    KnownToPool(c, m, h);
    SettledEvicts(c, m, h, status);
    if KnowsSlot(r, h) {
      ShadowSettledEvicts(c, r, h, status);
      AgreeingViews(Evict(c, h), m');
      ShadowViews(Evict(c, h), r');
    } else {
      UnknownJustSettles(r, h, status);
      HalfReplacedShows(c, m', r, h, s, n, status);
      SameFrames(m', r');
      SameViewsIff(m', r');
      HalfLabelsIff(c, m', r, h, status, s, n);
      SamePoolViewBothWays(m', r');
    }
  }

  lemma SamePoolViewBothWays(a: Pool, b: Pool)
    ensures PoolView(a) == PoolView(b) <==> PoolView(b) == PoolView(a)
  {
  }

  lemma UnknownJustSettles(r: Pool, h: TxHash, status: Status)
    requires !KnowsSlot(r, h)
    ensures ApplySettled(r, h, status) == r.(txs := Settle(r.txs, h, status))
  {
  }

  lemma HalfLabelsIff(c: Core, m': Pool, r: Pool, h: TxHash, status: Status, s: Address, n: U64)
    requires Shadows(c, r) && StoodAt(c, h, s, n) && Agrees(Evict(c, h), m') && !status.Pending?
    requires SameShown(m', r.(txs := Settle(r.txs, h, status)))
    ensures SameLabels(m', r.(txs := Settle(r.txs, h, status))) <==>
      forall k :: k in c.queues[s] && k != n ==> LabelSurvives(c, r, s, n, k)
  {
    hide AgreesExcept, ShadowsExcept, Label, Bijective, Evict, ShownLabel, SameShown, LabelSurvives;
    var r' := r.(txs := Settle(r.txs, h, status));
    ShadowFacts(c, r);
    AgreesQueues(Evict(c, h), m');
    if SameLabels(m', r') {
      forall k | k in c.queues[s] && k != n ensures LabelSurvives(c, r, s, n, k) {
        FullHalfLabel(c, m', h, s, n, s, k);
        HalfEntry(c, m', r, h, status, s, n, s, k);
      }
    }
    if forall k :: k in c.queues[s] && k != n ==> LabelSurvives(c, r, s, n, k) {
      forall s', k | s' in m'.queues && k in LiveNonces(m'.txs, m'.queues[s'])
        ensures LiveAt(r', s', k, m'.queues[s'][k]) && ShownLabel(m', s', k) == ShownLabel(r', s', k)
      {
        HalfEntry(c, m', r, h, status, s, n, s', k);
      }
    }
  }

  lemma HalfEntry(c: Core, m': Pool, r: Pool, h: TxHash, status: Status, s: Address, n: U64, s': Address, k: U64)
    requires Shadows(c, r) && StoodAt(c, h, s, n) && Agrees(Evict(c, h), m') && !status.Pending?
    requires SameShown(m', r.(txs := Settle(r.txs, h, status)))
    requires s' in m'.queues && k in LiveNonces(m'.txs, m'.queues[s'])
    ensures var r' := r.(txs := Settle(r.txs, h, status));
      && s' in c.queues && k in c.queues[s'] && !(s' == s && k == n)
      && LiveAt(r', s', k, m'.queues[s'][k])
      && (ShownLabel(m', s', k) == ShownLabel(r', s', k) <==>
          (s' == s ==> LabelSurvives(c, r, s, n, k)))
  {
    hide AgreesExcept, ShadowsExcept, Label, Bijective, Evict;
    ShadowFacts(c, r);
    AgreesQueues(Evict(c, h), m');
    EvictedSlots(c, h, s, n, s', k);
    assert LiveAt(m', s', k, m'.queues[s'][k]);
    FullHalfLabel(c, m', h, s, n, s', k);
    ResumedHalfLabel(c, r, h, status, s, n, s', k);
    assert c.queues[s'].Keys - {} == c.queues[s'].Keys;
  }

  /** A replacement event in the record opens the events of the submission that replaces. */
  lemma {:induction false} ReplacementOpens(txs: seq<Tx>, cfg: Config, n: nat, g: nat) returns (j: nat)
    requires n <= |txs| && g < |Recorded(txs, cfg, n)| && Recorded(txs, cfg, n)[g].TxReplaced?
    ensures j < n && g == |Recorded(txs, cfg, j)|
    ensures Decide(Run(EMPTY, txs, j, cfg), txs[j], cfg) == Replaced(Recorded(txs, cfg, n)[g].hash)
  {
    hide StepEvents, AdmissionEvents, Run, Decide, Admit, Current, TransitionEvent;
    var earlier, step := Recorded(txs, cfg, n - 1), StepEvents(txs, cfg, n - 1);
    if g < |earlier| {
      j := ReplacementOpens(txs, cfg, n - 1, g);
    } else {
      j := n - 1;
      var c, d := Run(EMPTY, txs, j, cfg), g - |earlier|;
      StepIsAdmission(txs, cfg, j);
      EventsOfAdmission(c, txs[j], cfg);
      BetweenIs(c, txs[j], cfg, d + 1);
      assert step[d] == Recorded(txs, cfg, n)[g];
      var decision := DecisionEvents(txs[j], Decide(c, txs[j], cfg));
      assert step[..|decision|][0] == decision[0];
    }
  }

  lemma {:induction false} CoreAtStart(txs: seq<Tx>, cfg: Config, n: nat, j: nat)
    requires j <= n <= |txs|
    ensures CoreAt(txs, cfg, n, |Recorded(txs, cfg, j)|) == Run(EMPTY, txs, j, cfg)
    decreases n
  {
    hide StepEvents, CoreWithinStep, Run;
    if j == n {
      CoreAtEnd(txs, cfg, n);
    } else {
      CoreAtStart(txs, cfg, n - 1, j);
      RecordedGrows(txs, cfg, j, n - 1);
    }
  }

  lemma NextStates(log: seq<Payload>, k: nat, p: nat)
    requires k <= p < |log|
    ensures FullState(log, p + 1) == Apply(FullState(log, p), log[p])
    ensures ResumedState(log, k, p + 1) == Apply(ResumedState(log, k, p), log[p])
  {
    hide Apply, Resumed;
    assert log[k..][p - k] == log[p];
  }

  lemma ReplacementInRecord(txs: seq<Tx>, i: nat, cfg: Config, log: seq<Payload>, p: nat) returns (j: nat)
    requires i <= |txs| && p < |log| && Loud(log) == Loud(Log(EMPTY, txs, i, cfg)) && log[p].TxReplaced?
    ensures j < i && Decide(Run(EMPTY, txs, j, cfg), txs[j], cfg) == Replaced(log[p].hash)
    ensures CoreAt(txs, cfg, i, |LoudUpTo(log, p)|) == Run(EMPTY, txs, j, cfg) && !AwaitsDecode(log[..p])
  {
    hide Recorded, Log, Run, Decide, CoreAt, FullState;
    var all, g := Recorded(txs, cfg, i), |LoudUpTo(log, p)|;
    Positions(txs, i, cfg, log, p, p);
    Positions(txs, i, cfg, log, p, p + 1);
    LoudTake(log, p + 1);
    assert all[g] == all[..g + 1][g] == log[p];
    j := ReplacementOpens(txs, cfg, i, g);
    CoreAtStart(txs, cfg, i, j);
    RecordedGrows(txs, cfg, j, i);
    LastNotReplaced(txs, cfg, j);
  }

  /**
    The one exception, exactly. Right after the first event of a replacement, met anywhere
    after the checkpoint, the pending lists agree, and the whole frames do if and only if the
    resumed state knows the incumbent's slot, or has stored no label that the gap in its
    place makes wrong.
   */
  lemma MidReplacementIff(txs: seq<Tx>, i: nat, cfg: Config, log: seq<Payload>, k: nat, p: nat) returns (j: nat)
    requires i <= |txs| && k <= p < |log| && Loud(log) == Loud(Log(EMPTY, txs, i, cfg)) && log[p].TxReplaced?
    ensures j < i && Decide(Run(EMPTY, txs, j, cfg), txs[j], cfg) == Replaced(log[p].hash)
    ensures PendingHashes(ResumedState(log, k, p + 1)) == PendingHashes(FullState(log, p + 1))
    ensures var c, r, s, n := Run(EMPTY, txs, j, cfg), ResumedState(log, k, p), txs[j].sender, txs[j].nonce;
      && s in c.queues
      && (PoolView(ResumedState(log, k, p + 1)) == PoolView(FullState(log, p + 1)) <==>
          KnowsSlot(r, log[p].hash) || forall x :: x in c.queues[s] && x != n ==> LabelSurvives(c, r, s, n, x))
  {
    hide LoudUpTo, Log, Run, CoreAt, FullState, ResumedState, PoolView, PendingHashes, LabelSurvives, Agrees, Shadows,
      Bijective, AwaitsDecode;
    j := ReplacementInRecord(txs, i, cfg, log, p);
    BothStates(txs, i, cfg, log, k, p);
    NextStates(log, k, p);
    var c, tx := Run(EMPTY, txs, j, cfg), txs[j];
    RunIsBijective(txs, cfg, j);
    IncumbentSlot(c, tx, cfg);
    PendingIsQueued(c, log[p].hash);
    var m, r := FullState(log, p), ResumedState(log, k, p);
    HalfReplacedViewsIff(c, m, r, log[p].hash, log[p].replacedBy, tx.sender, tx.nonce);
  }
}
