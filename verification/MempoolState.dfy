/** The replay state as its methods mutate it. */
module MempoolMachine {
  import opened Prelude
  import opened Ordered
  import opened NonceGap
  import opened SchedulerModel
  import opened EventLog
  import opened Mempool

  datatype Update = Update(hash: TxHash, state: QueueState)

  // ---------------------------------------------------------------- the loops of a recomputation

  method ClearQueueStates(txs: TxTable, queue: Queue) returns (r: TxTable)
    ensures r == ClearUpTo(txs, queue, |queue.Keys|)
  {
    r := txs;
    var nonces := NonceKeys(queue.Keys);
    for i := 0 to |nonces|
      invariant r == ClearUpTo(txs, queue, i)
    {
      assert nonces[i] in queue.Keys;
      r := SetQueueState(r, queue[nonces[i]], None);
    }
  }

  ghost function UpdatesUpTo(q: Queue, live: set<U64>, i: nat): seq<Update>
    requires i <= |q.Keys|
  {
    if i == 0 then []
    else
      var n := Nonces(q.Keys)[i - 1];
      assert n in q.Keys;
      UpdatesUpTo(q, live, i - 1) + if n in live then [Update(q[n], Label(live, n))] else []
  }

  ghost function StaleUpTo(q: Queue, live: set<U64>, i: nat): seq<U64>
    requires i <= |q.Keys|
  {
    if i == 0 then []
    else
      var n := Nonces(q.Keys)[i - 1];
      StaleUpTo(q, live, i - 1) + if n in live then [] else [n]
  }

  /** Splits a queue into labelled live entries and stale nonces. */
  method ClassifyLive(txs: TxTable, queue: Queue) returns (updates: seq<Update>, stale: seq<U64>)
    ensures updates == UpdatesUpTo(queue, LiveNonces(txs, queue), |queue.Keys|)
    ensures stale == StaleUpTo(queue, LiveNonces(txs, queue), |queue.Keys|)
  {
    ghost var live := LiveNonces(txs, queue);
    SkipStart(queue.Keys, live);
    updates, stale := [], [];
    var cursor := START;
    var nonces := NonceKeys(queue.Keys);
    for i := 0 to |nonces|
      invariant Skipping(queue.Keys, live, i, cursor)
      invariant updates == UpdatesUpTo(queue, live, i) && stale == StaleUpTo(queue, live, i)
    {
      SkipNext(queue.Keys, live, i, cursor);
      var nonce, hash := nonces[i], queue[nonces[i]];
      if !IsPending(txs, hash) {
        stale := stale + [nonce];
      } else {
        var (state, advanced) := QueueEntryState(cursor, nonce);
        cursor := advanced;
        updates := updates + [Update(hash, state)];
      }
    }
  }

  function RemoveUpTo(q: Queue, nonces: seq<U64>, i: nat): Queue
    requires i <= |nonces|
  {
    if i == 0 then q else RemoveUpTo(q, nonces, i - 1) - {nonces[i - 1]}
  }

  method RemoveNonces(queue: Queue, nonces: seq<U64>) returns (r: Queue)
    ensures r == RemoveUpTo(queue, nonces, |nonces|)
  {
    r := queue;
    for i := 0 to |nonces|
      invariant r == RemoveUpTo(queue, nonces, i)
    {
      r := r - {nonces[i]};
    }
  }

  lemma {:induction false} RemovedEntries(q: Queue, nonces: seq<U64>, i: nat, n: U64)
    requires i <= |nonces|
    ensures n in RemoveUpTo(q, nonces, i) <==> n in q && forall k :: 0 <= k < i ==> nonces[k] != n
    ensures n in RemoveUpTo(q, nonces, i) ==> RemoveUpTo(q, nonces, i)[n] == q[n]
  {
    if i > 0 {
      RemovedEntries(q, nonces, i - 1, n);
    }
  }

  lemma {:induction false} StaleEntries(q: Queue, live: set<U64>, i: nat, n: U64)
    requires i <= |q.Keys|
    ensures n in StaleUpTo(q, live, i) <==> n !in live && exists k :: 0 <= k < i && Nonces(q.Keys)[k] == n
  {
    if i > 0 {
      StaleEntries(q, live, i - 1, n);
    }
  }

  /** Removing the stale nonces keeps exactly the live entries. */
  lemma RemovingStaleKeepsLive(txs: TxTable, q: Queue)
    ensures var stale := StaleUpTo(q, LiveNonces(txs, q), |q.Keys|);
      RemoveUpTo(q, stale, |stale|) == KeepLive(txs, q)
  {
    hide RemoveUpTo, StaleUpTo;
    var live := LiveNonces(txs, q);
    var stale := StaleUpTo(q, live, |q.Keys|);
    forall n: U64
      ensures n in RemoveUpTo(q, stale, |stale|) <==> n in live
      ensures n in RemoveUpTo(q, stale, |stale|) ==> RemoveUpTo(q, stale, |stale|)[n] == q[n]
    {
      RemainsIffLive(q, live, n);
    }
  }

  lemma RemainsIffLive(q: Queue, live: set<U64>, n: U64)
    requires live <= q.Keys
    ensures var stale := StaleUpTo(q, live, |q.Keys|);
      && (n in RemoveUpTo(q, stale, |stale|) <==> n in live)
      && (n in RemoveUpTo(q, stale, |stale|) ==> RemoveUpTo(q, stale, |stale|)[n] == q[n])
  {
    var stale := StaleUpTo(q, live, |q.Keys|);
    RemovedEntries(q, stale, |stale|, n);
    StaleEntries(q, live, |q.Keys|, n);
    if n in q {
      assert n in Nonces(q.Keys);
    }
    assert n in stale <==> exists k :: 0 <= k < |stale| && stale[k] == n;
  }

  function StoreUpTo(txs: TxTable, updates: seq<Update>, i: nat): TxTable
    requires i <= |updates|
  {
    if i == 0 then txs
    else SetQueueState(StoreUpTo(txs, updates, i - 1), updates[i - 1].hash, Some(updates[i - 1].state))
  }

  method StoreStates(txs: TxTable, updates: seq<Update>) returns (r: TxTable)
    ensures r == StoreUpTo(txs, updates, |updates|)
  {
    r := txs;
    for i := 0 to |updates|
      invariant r == StoreUpTo(txs, updates, i)
    {
      r := SetQueueState(r, updates[i].hash, Some(updates[i].state));
    }
  }

  lemma {:induction false} StorePrefix(txs: TxTable, a: seq<Update>, b: seq<Update>, i: nat)
    requires i <= |a|
    ensures StoreUpTo(txs, a + b, i) == StoreUpTo(txs, a, i)
  {
    if i > 0 {
      StorePrefix(txs, a, b, i - 1);
    }
  }

  /** Storing the collected updates is labelling entry by entry. */
  lemma {:induction false} StoringLabels(txs: TxTable, q: Queue, live: set<U64>, i: nat)
    requires i <= |q.Keys|
    ensures var updates := UpdatesUpTo(q, live, i);
      StoreUpTo(txs, updates, |updates|) == LabelUpTo(txs, q, live, i)
  {
    if i > 0 {
      var n := Nonces(q.Keys)[i - 1];
      assert n in q.Keys;
      var earlier := UpdatesUpTo(q, live, i - 1);
      StoringLabels(txs, q, live, i - 1);
      if n in live {
        StorePrefix(txs, earlier, [Update(q[n], Label(live, n))], |earlier|);
      } else {
        assert earlier + [] == earlier;
      }
    }
  }

  lemma ClearedSameLive(txs: TxTable, q: Queue)
    ensures LiveNonces(ClearUpTo(txs, q, |q.Keys|), q) == LiveNonces(txs, q)
  {
    ClearKeeps(txs, q, |q.Keys|);
  }

  /** Relabels one queue and drops its stale entries. */
  method RecomputeQueue(txs: TxTable, queue: Queue) returns (table: TxTable, kept: Queue)
    ensures table == Relabel(txs, queue) && kept == KeepLive(txs, queue)
  {
    ClearedSameLive(txs, queue);
    RemovingStaleKeepsLive(txs, queue);
    var cleared := ClearQueueStates(txs, queue);
    var updates, stale := ClassifyLive(cleared, queue);
    StoringLabels(cleared, queue, LiveNonces(txs, queue), |queue.Keys|);
    kept := RemoveNonces(queue, stale);
    table := StoreStates(cleared, updates);
  }

  /** The live entries of one queue, as a frame lists them. */
  method ListQueue(txs: TxTable, queue: Queue) returns (queued: seq<Position>)
    ensures queued == LiveQueue(txs, queue)
  {
    ghost var live := LiveNonces(txs, queue);
    SkipStart(queue.Keys, live);
    queued := [];
    var cursor := START;
    var nonces := NonceKeys(queue.Keys);
    for i := 0 to |nonces|
      invariant Skipping(queue.Keys, live, i, cursor)
      invariant queued == QueuedUpTo(txs, queue, i)
    {
      SkipNext(queue.Keys, live, i, cursor);
      var nonce, hash := nonces[i], queue[nonces[i]];
      if IsPending(txs, hash) {
        var (computed, advanced) := QueueEntryState(cursor, nonce);
        cursor := advanced;
        queued := queued + [Position(hash, nonce, StateOr(txs, hash, computed))];
      }
    }
  }

  method ListSenders(m: Pool) returns (view: seq<QueueView>)
    ensures view == PoolView(m)
  {
    hide LiveQueue;
    view := [];
    var senders := AscendingKeys(m.queues.Keys);
    for k := 0 to |senders|
      invariant view == PoolViewUpTo(m, k)
    {
      assert senders[k] in m.queues.Keys;
      var queued := ListQueue(m.txs, m.queues[senders[k]]);
      if queued != [] {
        view := view + [QueueView(senders[k], queued)];
      }
    }
  }

  class MempoolState {
    var txs: TxTable
    var senderQueues: map<Address, Queue>

    ghost function Model(): Pool
      reads this
    {
      Pool(txs, senderQueues)
    }

    constructor ()
      ensures Model() == EMPTY_POOL
    {
      txs, senderQueues := map[], map[];
    }

    constructor FromPendingHashes(hashes: seq<TxHash>)
      ensures Model() == Mempool.FromPendingHashes(hashes)
    {
      txs, senderQueues := map[], map[];
      new;
      for i := 0 to |hashes|
        invariant txs == SeedPending(hashes, i) && senderQueues == map[]
      {
        txs := txs[hashes[i] := TxEntry(None, None, Pending, None)];
      }
    }

    constructor FromCheckpoint(hashes: seq<TxHash>, view: seq<QueueView>)
      ensures Model() == Mempool.FromCheckpoint(hashes, view)
    {
      txs, senderQueues := map[], map[];
      new;
      for i := 0 to |hashes|
        invariant txs == SeedPending(hashes, i) && senderQueues == map[]
      {
        txs := txs[hashes[i] := TxEntry(None, None, Pending, None)];
      }
      for k := 0 to |view|
        invariant Model() == SeedQueues(Mempool.FromPendingHashes(hashes), view, k)
      {
        InsertCheckpointQueue(view[k]);
      }
    }

    method InsertCheckpointQueue(queue: QueueView)
      modifies this
      ensures Model() == SeedQueue(old(Model()), queue.sender, queue.queued, |queue.queued|)
    {
      for i := 0 to |queue.queued|
        invariant Model() == SeedQueue(old(Model()), queue.sender, queue.queued, i)
      {
        var entry := queue.queued[i];
        if entry.hash !in txs {
          txs := txs[entry.hash := TxEntry(Some(queue.sender), Some(entry.nonce), Pending, Some(entry.state))];
        }
        var q: Queue := if queue.sender in senderQueues then senderQueues[queue.sender] else map[];
        senderQueues := senderQueues[queue.sender := q[entry.nonce := entry.hash]];
      }
    }

    /** The pending hashes in the order every caller sorts them into. */
    method SortedPendingHashes() returns (pending: seq<TxHash>)
      ensures pending == Ascending(PendingHashes(Model()))
    {
      pending := AscendingKeys(set h | h in txs && IsPending(txs, h));
    }

    method SenderQueues() returns (view: seq<QueueView>)
      ensures view == PoolView(Model())
    {
      view := ListSenders(Pool(txs, senderQueues));
    }

    method ApplyEvent(p: Payload)
      modifies this
      ensures Model() == Apply(old(Model()), p)
    {
      match p {
        case TxDecoded(tx) => ApplyDecodedEvent(tx);
        case TxDropped(h, reason) => SettleAndLeave(h, Dropped(reason));
        case TxReady(h, s, n) => ApplyStateEvent(h, s, n, Some(Ready));
        case TxBlocked(h, s, n, expected) =>
          ApplyStateEvent(h, s, n, if expected.Some? then Some(Blocked(expected.value)) else None);
        case TxConfirmedProvisional(h, number, block) => SettleAndLeave(h, ConfirmedProvisional(number, block));
        case TxConfirmedFinal(h, number, block) => SettleAndLeave(h, ConfirmedFinal(number, block));
        case TxReorged(h, oldBlock, _) => ApplyReorgedEvent(h, oldBlock);
        case TxReplaced(h, newHash) =>
          if h in txs {
            SettleAndLeave(h, ReplacedBy(newHash));
          }
        case _ =>
      }
    }

    method ApplyDecodedEvent(tx: Tx)
      modifies this
      ensures Model() == ApplyDecoded(old(Model()), tx)
    {
      if tx.sender in senderQueues && tx.nonce in senderQueues[tx.sender] {
        var oldHash := senderQueues[tx.sender][tx.nonce];
        if oldHash != tx.hash && oldHash in txs {
          txs := Settle(txs, oldHash, ReplacedBy(tx.hash));
        }
      }
      EnsureSenderQueueEntry(tx.hash, tx.sender, tx.nonce);
      RecomputeSenderQueueStates(tx.sender);
    }

    /** Dropped, confirmed and replaced transactions take this path. */
    method SettleAndLeave(hash: TxHash, status: Status)
      modifies this
      ensures Model() == ApplySettled(old(Model()), hash, status)
    {
      var sender, nonce := None, None;
      if hash in txs {
        sender, nonce := txs[hash].sender, txs[hash].nonce;
      }
      txs := Settle(txs, hash, status);
      if sender.Some? && nonce.Some? {
        RemoveSenderQueueEntry(hash, sender.value, nonce.value);
        RecomputeSenderQueueStates(sender.value);
      }
    }

    method ApplyStateEvent(hash: TxHash, sender: Address, nonce: U64, state: Option<QueueState>)
      modifies this
      ensures Model() == ApplyQueueState(old(Model()), hash, sender, nonce, state)
    {
      EnsureSenderQueueEntry(hash, sender, nonce);
      RecomputeSenderQueueStates(sender);
      if state.Some? {
        txs := SetQueueState(txs, hash, state);
      }
    }

    method ApplyReorgedEvent(hash: TxHash, oldBlockHash: BlockHash)
      modifies this
      ensures Model() == ApplyReorged(old(Model()), hash, oldBlockHash)
    {
      if hash !in txs || !ConfirmedIn(txs[hash].status, oldBlockHash) {
        return;
      }
      var sender, nonce := txs[hash].sender, txs[hash].nonce;
      txs := txs[hash := txs[hash].(status := Pending)];
      if sender.Some? && nonce.Some? {
        EnsureSenderQueueEntry(hash, sender.value, nonce.value);
        RecomputeSenderQueueStates(sender.value);
      }
    }

    method EnsureSenderQueueEntry(hash: TxHash, sender: Address, nonce: U64)
      modifies this
      ensures Model() == Ensure(old(Model()), hash, sender, nonce)
    {
      if hash !in txs {
        txs := txs[hash := TxEntry(Some(sender), Some(nonce), Pending, None)];
      }
      txs := txs[hash := txs[hash].(sender := Some(sender), nonce := Some(nonce), status := Pending)];
      var queue: Queue := if sender in senderQueues then senderQueues[sender] else map[];
      senderQueues := senderQueues[sender := queue[nonce := hash]];
    }

    method RemoveSenderQueueEntry(hash: TxHash, sender: Address, nonce: U64)
      modifies this`senderQueues
      ensures Model() == RemoveEntry(old(Model()), hash, sender, nonce)
    {
      if sender !in senderQueues {
        return;
      }
      var queue: Queue := senderQueues[sender];
      if nonce in queue && queue[nonce] == hash {
        queue := queue - {nonce};
      }
      senderQueues := senderQueues[sender := queue];
      if queue == map[] {
        senderQueues := senderQueues - {sender};
      }
    }

    method RecomputeSenderQueueStates(sender: Address)
      modifies this
      ensures Model() == Recompute(old(Model()), sender)
    {
      if sender !in senderQueues {
        return;
      }
      var table, kept := RecomputeQueue(txs, senderQueues[sender]);
      senderQueues := senderQueues[sender := kept];
      if kept == map[] {
        senderQueues := senderQueues - {sender};
      }
      txs := table;
    }
  }
}
