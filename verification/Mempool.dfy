/**
  The replay state machine: what one event does to the transaction table and to the
  sender queues. Written in the repository independently of the scheduler.
 */
module Mempool {
  import opened Prelude
  import opened Ordered
  import opened NonceGap
  import opened SchedulerModel
  import opened EventLog

  datatype Status =
    | Pending
    | ReplacedBy(newHash: TxHash)
    | Dropped(reason: string)
    | ConfirmedProvisional(blockNumber: U64, blockHash: BlockHash)
    | ConfirmedFinal(blockNumber: U64, blockHash: BlockHash)

  datatype TxEntry = TxEntry(
    sender: Option<Address>, nonce: Option<U64>, status: Status, queueState: Option<QueueState>)

  type TxTable = map<TxHash, TxEntry>

  datatype Pool = Pool(txs: TxTable, queues: map<Address, Queue>)

  const EMPTY_POOL := Pool(map[], map[])

  predicate IsPending(txs: TxTable, h: TxHash) {
    h in txs && txs[h].status.Pending?
  }

  /** The nonces of a queue whose occupant is pending. */
  function LiveNonces(txs: TxTable, q: Queue): set<U64> {
    set n | n in q && IsPending(txs, q[n])
  }

  // ---------------------------------------------------------------- queue maintenance

  function Ensure(m: Pool, hash: TxHash, sender: Address, nonce: U64): Pool {
    var state := if hash in m.txs then m.txs[hash].queueState else None;
    var q: Queue := if sender in m.queues then m.queues[sender] else map[];
    Pool(m.txs[hash := TxEntry(Some(sender), Some(nonce), Pending, state)],
            m.queues[sender := q[nonce := hash]])
  }

  function PutQueue(queues: map<Address, Queue>, sender: Address, q: Queue): map<Address, Queue> {
    if q == map[] then queues - {sender} else queues[sender := q]
  }

  /** Empties the slot if the hash still holds it; a queue left empty is dropped. */
  function RemoveEntry(m: Pool, hash: TxHash, sender: Address, nonce: U64): Pool {
    if sender !in m.queues then m
    else
      var q := m.queues[sender];
      var q' := if nonce in q && q[nonce] == hash then q - {nonce} else q;
      m.(queues := PutQueue(m.queues, sender, q'))
  }

  function SetQueueState(txs: TxTable, h: TxHash, state: Option<QueueState>): TxTable {
    if h in txs then txs[h := txs[h].(queueState := state)] else txs
  }

  /** The table after clearing the state of the first `i` queued hashes. */
  ghost function ClearUpTo(txs: TxTable, q: Queue, i: nat): TxTable
    requires i <= |q.Keys|
  {
    if i == 0 then txs
    else
      var n := Nonces(q.Keys)[i - 1];
      assert n in q.Keys;
      SetQueueState(ClearUpTo(txs, q, i - 1), q[n], None)
  }

  /** The table after storing the labels of the live ones among the first `i` queued hashes. */
  ghost function LabelUpTo(txs: TxTable, q: Queue, live: set<U64>, i: nat): TxTable
    requires i <= |q.Keys|
  {
    if i == 0 then txs
    else
      var n := Nonces(q.Keys)[i - 1];
      assert n in q.Keys;
      var earlier := LabelUpTo(txs, q, live, i - 1);
      if n in live then SetQueueState(earlier, q[n], Some(Label(live, n))) else earlier
  }

  ghost function Relabel(txs: TxTable, q: Queue): TxTable {
    LabelUpTo(ClearUpTo(txs, q, |q.Keys|), q, LiveNonces(txs, q), |q.Keys|)
  }

  function KeepLive(txs: TxTable, q: Queue): Queue {
    map n | n in q && IsPending(txs, q[n]) :: q[n]
  }

  /** Drops the stale entries of one queue and relabels the live ones. */
  ghost function Recompute(m: Pool, sender: Address): Pool {
    if sender !in m.queues then m
    else
      var q := m.queues[sender];
      Pool(Relabel(m.txs, q), PutQueue(m.queues, sender, KeepLive(m.txs, q)))
  }

  // ---------------------------------------------------------------- events

  /** Ends a pending spell: sets the status and clears the queue state. */
  function Settle(txs: TxTable, hash: TxHash, status: Status): TxTable {
    if hash in txs then txs[hash := txs[hash].(status := status, queueState := None)]
    else txs[hash := TxEntry(None, None, status, None)]
  }

  /** Leaves the recorded slot of a hash, if one was recorded before the event. */
  ghost function LeaveSlot(m: Pool, before: TxTable, hash: TxHash): Pool {
    if hash in before && before[hash].sender.Some? && before[hash].nonce.Some? then
      Recompute(RemoveEntry(m, hash, before[hash].sender.value, before[hash].nonce.value), before[hash].sender.value)
    else m
  }

  ghost function ApplyDecoded(m: Pool, tx: Tx): Pool {
    var q: Queue := if tx.sender in m.queues then m.queues[tx.sender] else map[];
    var txs :=
      if tx.nonce in q && q[tx.nonce] != tx.hash && q[tx.nonce] in m.txs then
        Settle(m.txs, q[tx.nonce], ReplacedBy(tx.hash))
      else m.txs;
    Recompute(Ensure(m.(txs := txs), tx.hash, tx.sender, tx.nonce), tx.sender)
  }

  ghost function ApplySettled(m: Pool, hash: TxHash, status: Status): Pool {
    LeaveSlot(m.(txs := Settle(m.txs, hash, status)), m.txs, hash)
  }

  ghost function ApplyReplaced(m: Pool, hash: TxHash, newHash: TxHash): Pool {
    if hash in m.txs then ApplySettled(m, hash, ReplacedBy(newHash)) else m
  }

  ghost function ApplyQueueState(m: Pool, hash: TxHash, sender: Address, nonce: U64, state: Option<QueueState>): Pool {
    var m' := Recompute(Ensure(m, hash, sender, nonce), sender);
    if state.Some? then m'.(txs := SetQueueState(m'.txs, hash, state)) else m'
  }

  predicate ConfirmedIn(status: Status, blockHash: BlockHash) {
    || (status.ConfirmedProvisional? && status.blockHash == blockHash)
    || (status.ConfirmedFinal? && status.blockHash == blockHash)
  }

  ghost function ApplyReorged(m: Pool, hash: TxHash, oldBlockHash: BlockHash): Pool {
    if hash in m.txs && ConfirmedIn(m.txs[hash].status, oldBlockHash) then
      var e := m.txs[hash];
      var reopened := m.(txs := m.txs[hash := e.(status := Pending)]);
      if e.sender.Some? && e.nonce.Some? then
        Recompute(Ensure(reopened, hash, e.sender.value, e.nonce.value), e.sender.value)
      else reopened
    else m
  }

  ghost function Apply(m: Pool, p: Payload): Pool {
    match p
    case TxDecoded(tx) => ApplyDecoded(m, tx)
    case TxDropped(h, reason) => ApplySettled(m, h, Dropped(reason))
    case TxReady(h, s, n) => ApplyQueueState(m, h, s, n, Some(Ready))
    case TxBlocked(h, s, n, expected) =>
      ApplyQueueState(m, h, s, n, if expected.Some? then Some(Blocked(expected.value)) else None)
    case TxConfirmedProvisional(h, number, block) => ApplySettled(m, h, ConfirmedProvisional(number, block))
    case TxConfirmedFinal(h, number, block) => ApplySettled(m, h, ConfirmedFinal(number, block))
    case TxReorged(h, oldBlock, _) => ApplyReorged(m, h, oldBlock)
    case TxReplaced(h, newHash) => ApplyReplaced(m, h, newHash)
    case TxSeen(_) => m
    case TxFetched(_) => m
    case Downstream(_) => m
  }

  /** The state after the first `i` events of a log. */
  ghost function Replay(m: Pool, log: seq<Payload>, i: nat): Pool
    requires i <= |log|
  {
    if i == 0 then m else Apply(Replay(m, log, i - 1), log[i - 1])
  }

  ghost function ReplayAll(m: Pool, log: seq<Payload>): Pool {
    Replay(m, log, |log|)
  }

  lemma {:induction false} ReplayConcat(m: Pool, a: seq<Payload>, b: seq<Payload>, i: nat)
    requires i <= |b|
    ensures Replay(m, a + b, |a| + i) == Replay(ReplayAll(m, a), b, i)
  {
    hide Apply;
    if i == 0 {
      ReplayPrefix(m, a, b, |a|);
    } else {
      ReplayConcat(m, a, b, i - 1);
      assert (a + b)[|a| + i - 1] == b[i - 1];
    }
  }

  lemma {:induction false} ReplayPrefix(m: Pool, a: seq<Payload>, b: seq<Payload>, i: nat)
    requires i <= |a|
    ensures Replay(m, a + b, i) == Replay(m, a, i)
  {
    hide Apply;
    if i > 0 {
      ReplayPrefix(m, a, b, i - 1);
    }
  }

  // ---------------------------------------------------------------- what a recomputation keeps

  /** Tables that differ at most in queue states. */
  ghost predicate SameButStates(a: TxTable, b: TxTable) {
    && a.Keys == b.Keys
    && forall h :: h in a ==> b[h] == a[h].(queueState := b[h].queueState)
  }

  lemma {:induction false} ClearKeeps(txs: TxTable, q: Queue, i: nat)
    requires i <= |q.Keys|
    ensures SameButStates(txs, ClearUpTo(txs, q, i))
    ensures forall h :: h in txs && (forall n :: n in q ==> q[n] != h) ==> ClearUpTo(txs, q, i)[h] == txs[h]
  {
    if i > 0 {
      ClearKeeps(txs, q, i - 1);
      assert Nonces(q.Keys)[i - 1] in q.Keys;
    }
  }

  lemma {:induction false} LabelKeeps(txs: TxTable, q: Queue, live: set<U64>, i: nat)
    requires i <= |q.Keys|
    ensures SameButStates(txs, LabelUpTo(txs, q, live, i))
    ensures forall h :: h in txs && (forall n :: n in q ==> q[n] != h) ==> LabelUpTo(txs, q, live, i)[h] == txs[h]
  {
    if i > 0 {
      LabelKeeps(txs, q, live, i - 1);
      assert Nonces(q.Keys)[i - 1] in q.Keys;
    }
  }

  /** A recomputation touches only queue states, and only of hashes in the queue. */
  lemma RelabelKeeps(txs: TxTable, q: Queue)
    ensures SameButStates(txs, Relabel(txs, q))
    ensures forall h :: h in txs && (forall n :: n in q ==> q[n] != h) ==> Relabel(txs, q)[h] == txs[h]
  {
    ClearKeeps(txs, q, |q.Keys|);
    LabelKeeps(ClearUpTo(txs, q, |q.Keys|), q, LiveNonces(txs, q), |q.Keys|);
  }

  /** A queue in which no hash holds two slots. */
  ghost predicate Injective(q: Queue) {
    forall a, b :: a in q && b in q && q[a] == q[b] ==> a == b
  }

  lemma {:induction false} LabelSets(txs: TxTable, q: Queue, live: set<U64>, i: nat, k: nat)
    requires k < i <= |q.Keys| && Injective(q)
    requires Nonces(q.Keys)[k] in q && Nonces(q.Keys)[k] in live && q[Nonces(q.Keys)[k]] in txs
    ensures var h := q[Nonces(q.Keys)[k]];
      && h in LabelUpTo(txs, q, live, i)
      && LabelUpTo(txs, q, live, i)[h].queueState == Some(Label(live, Nonces(q.Keys)[k]))
  {
    LabelKeeps(txs, q, live, i - 1);
    assert Nonces(q.Keys)[i - 1] in q.Keys;
    if k < i - 1 {
      LabelSets(txs, q, live, i - 1, k);
      assert Nonces(q.Keys)[i - 1] != Nonces(q.Keys)[k];
    }
  }

  /** After a recomputation every live entry carries its label among the live entries. */
  lemma RelabelSets(txs: TxTable, q: Queue, n: U64)
    requires Injective(q) && n in LiveNonces(txs, q)
    ensures q[n] in Relabel(txs, q) && Relabel(txs, q)[q[n]].queueState == Some(Label(LiveNonces(txs, q), n))
  {
    ClearKeeps(txs, q, |q.Keys|);
    assert n in Nonces(q.Keys);
    var k :| 0 <= k < |q.Keys| && Nonces(q.Keys)[k] == n;
    LabelSets(ClearUpTo(txs, q, |q.Keys|), q, LiveNonces(txs, q), |q.Keys|, k);
  }

  // ---------------------------------------------------------------- what a replay frame shows

  datatype QueueView = QueueView(sender: Address, queued: seq<Position>)

  ghost function PendingHashes(m: Pool): set<TxHash> {
    set h | h in m.txs && IsPending(m.txs, h)
  }

  /** The stored state of a queued hash, or the state its nonce gives it when none is stored. */
  function StateOr(txs: TxTable, h: TxHash, computed: QueueState): QueueState {
    if h in txs && txs[h].queueState.Some? then txs[h].queueState.value else computed
  }

  /** The live ones among the first `i` entries of a queue. */
  ghost function QueuedUpTo(txs: TxTable, q: Queue, i: nat): seq<Position>
    requires i <= |q.Keys|
  {
    if i == 0 then []
    else
      var n := Nonces(q.Keys)[i - 1];
      assert n in q.Keys;
      QueuedUpTo(txs, q, i - 1) +
      if n in LiveNonces(txs, q) then [Position(q[n], n, StateOr(txs, q[n], Label(LiveNonces(txs, q), n)))] else []
  }

  ghost function LiveQueue(txs: TxTable, q: Queue): seq<Position> {
    QueuedUpTo(txs, q, |q.Keys|)
  }

  /** The non-empty live queues of the first `k` senders. */
  ghost function PoolViewUpTo(m: Pool, k: nat): seq<QueueView>
    requires k <= |m.queues.Keys|
  {
    if k == 0 then []
    else
      var s := Ascending(m.queues.Keys)[k - 1];
      assert s in m.queues.Keys;
      PoolViewUpTo(m, k - 1) +
      if LiveQueue(m.txs, m.queues[s]) != [] then [QueueView(s, LiveQueue(m.txs, m.queues[s]))] else []
  }

  ghost function PoolView(m: Pool): seq<QueueView> {
    PoolViewUpTo(m, |m.queues.Keys|)
  }

  // ---------------------------------------------------------------- seeding from a checkpoint

  /** Pending hashes about which nothing else is known. */
  function SeedPending(hashes: seq<TxHash>, i: nat): TxTable
    requires i <= |hashes|
  {
    if i == 0 then map[] else SeedPending(hashes, i - 1)[hashes[i - 1] := TxEntry(None, None, Pending, None)]
  }

  /** Queues one checkpoint entry; an entry already in the table keeps its unknown slot. */
  function SeedEntry(m: Pool, sender: Address, entry: Position): Pool {
    var txs :=
      if entry.hash in m.txs then m.txs
      else m.txs[entry.hash := TxEntry(Some(sender), Some(entry.nonce), Pending, Some(entry.state))];
    var q: Queue := if sender in m.queues then m.queues[sender] else map[];
    Pool(txs, m.queues[sender := q[entry.nonce := entry.hash]])
  }

  function SeedQueue(m: Pool, sender: Address, queued: seq<Position>, i: nat): Pool
    requires i <= |queued|
  {
    if i == 0 then m else SeedEntry(SeedQueue(m, sender, queued, i - 1), sender, queued[i - 1])
  }

  function SeedQueues(m: Pool, view: seq<QueueView>, k: nat): Pool
    requires k <= |view|
  {
    if k == 0 then m
    else SeedQueue(SeedQueues(m, view, k - 1), view[k - 1].sender, view[k - 1].queued, |view[k - 1].queued|)
  }

  function FromPendingHashes(hashes: seq<TxHash>): Pool {
    Pool(SeedPending(hashes, |hashes|), map[])
  }

  function FromCheckpoint(hashes: seq<TxHash>, view: seq<QueueView>): Pool {
    SeedQueues(FromPendingHashes(hashes), view, |view|)
  }

  // ---------------------------------------------------------------- what the table keeps of one hash

  lemma RecomputedEntry(m: Pool, s: Address, h: TxHash)
    requires h in m.txs
    ensures h in Recompute(m, s).txs
    ensures var e := Recompute(m, s).txs[h]; e == m.txs[h].(queueState := e.queueState)
    ensures (forall n :: s in m.queues && n in m.queues[s] ==> m.queues[s][n] != h) ==>
      Recompute(m, s).txs[h] == m.txs[h]
  {
    hide Relabel;
    if s in m.queues {
      RelabelKeeps(m.txs, m.queues[s]);
    }
  }

  lemma {:induction false} DeadStateCleared(txs: TxTable, q: Queue, i: nat, h: TxHash)
    requires i <= |q.Keys| && h in txs && txs[h].queueState == None
    ensures h in ClearUpTo(txs, q, i) && ClearUpTo(txs, q, i)[h].queueState == None
  {
    if i > 0 {
      DeadStateCleared(txs, q, i - 1, h);
    }
  }

  lemma {:induction false} DeadNotLabelled(txs: TxTable, q: Queue, live: set<U64>, i: nat, h: TxHash)
    requires i <= |q.Keys| && h in txs && txs[h].queueState == None
    requires forall n :: n in live && n in q ==> q[n] != h
    ensures h in LabelUpTo(txs, q, live, i) && LabelUpTo(txs, q, live, i)[h].queueState == None
  {
    if i > 0 {
      DeadNotLabelled(txs, q, live, i - 1, h);
      assert Nonces(q.Keys)[i - 1] in q.Keys;
    }
  }

  /** A hash that is not pending and has no label gets none from a recomputation. */
  lemma DeadStaysUnlabelled(m: Pool, s: Address, h: TxHash)
    requires h in m.txs && !IsPending(m.txs, h) && m.txs[h].queueState == None
    ensures h in Recompute(m, s).txs && Recompute(m, s).txs[h] == m.txs[h]
  {
    RecomputedEntry(m, s, h);
    if s in m.queues {
      var q := m.queues[s];
      DeadStateCleared(m.txs, q, |q.Keys|, h);
      DeadNotLabelled(ClearUpTo(m.txs, q, |q.Keys|), q, LiveNonces(m.txs, q), |q.Keys|, h);
    }
  }

  /** A transaction whose spell ends keeps what is known of its slot and loses its label. */
  lemma EndedEntry(m: Pool, h: TxHash, status: Status)
    requires !status.Pending?
    ensures var m' := ApplySettled(m, h, status);
      && h in m'.txs
      && m'.txs[h] ==
         if h in m.txs then TxEntry(m.txs[h].sender, m.txs[h].nonce, status, None)
         else TxEntry(None, None, status, None)
  {
    hide Recompute;
    var settled := m.(txs := Settle(m.txs, h, status));
    if h in m.txs && m.txs[h].sender.Some? && m.txs[h].nonce.Some? {
      var s, n := m.txs[h].sender.value, m.txs[h].nonce.value;
      DeadStaysUnlabelled(RemoveEntry(settled, h, s, n), s, h);
    }
  }

  // ---------------------------------------------------------------- what a seeded table knows

  lemma {:induction false} SeededQueueTable(m: Pool, sender: Address, queued: seq<Position>, i: nat, h: TxHash)
    requires i <= |queued|
    ensures h in m.txs ==>
      h in SeedQueue(m, sender, queued, i).txs && SeedQueue(m, sender, queued, i).txs[h] == m.txs[h]
    ensures h !in m.txs && (forall b :: 0 <= b < i ==> queued[b].hash != h) ==>
      h !in SeedQueue(m, sender, queued, i).txs
  {
    if i > 0 {
      SeededQueueTable(m, sender, queued, i - 1, h);
    }
  }

  lemma {:induction false} FirstInQueue(m: Pool, sender: Address, queued: seq<Position>, i: nat, b: nat)
    requires b < i <= |queued| && queued[b].hash !in m.txs
    requires forall x :: 0 <= x < b ==> queued[x].hash != queued[b].hash
    ensures var h := queued[b].hash;
      && h in SeedQueue(m, sender, queued, i).txs
      && SeedQueue(m, sender, queued, i).txs[h] ==
         TxEntry(Some(sender), Some(queued[b].nonce), Pending, Some(queued[b].state))
  {
    if i - 1 == b {
      SeededQueueTable(m, sender, queued, b, queued[b].hash);
    } else {
      FirstInQueue(m, sender, queued, i - 1, b);
    }
  }

  lemma {:induction false} SeededQueuesTable(m: Pool, view: seq<QueueView>, k: nat, h: TxHash)
    requires k <= |view|
    ensures h in m.txs ==> h in SeedQueues(m, view, k).txs && SeedQueues(m, view, k).txs[h] == m.txs[h]
    ensures h !in m.txs && (forall a, b :: 0 <= a < k && 0 <= b < |view[a].queued| ==> view[a].queued[b].hash != h) ==>
      h !in SeedQueues(m, view, k).txs
  {
    hide SeedQueue;
    if k > 0 {
      SeededQueuesTable(m, view, k - 1, h);
      var v := view[k - 1];
      SeededQueueTable(SeedQueues(m, view, k - 1), v.sender, v.queued, |v.queued|, h);
    }
  }

  lemma {:induction false} FirstInQueues(m: Pool, view: seq<QueueView>, k: nat, a: nat, b: nat)
    requires a < k <= |view| && b < |view[a].queued| && view[a].queued[b].hash !in m.txs
    requires forall x, y :: 0 <= x < a && 0 <= y < |view[x].queued| ==> view[x].queued[y].hash != view[a].queued[b].hash
    requires forall y :: 0 <= y < b ==> view[a].queued[y].hash != view[a].queued[b].hash
    ensures var p := view[a].queued[b];
      && p.hash in SeedQueues(m, view, k).txs
      && SeedQueues(m, view, k).txs[p.hash] == TxEntry(Some(view[a].sender), Some(p.nonce), Pending, Some(p.state))
    decreases k
  {
    hide SeedQueue;
    var earlier, v := SeedQueues(m, view, k - 1), view[k - 1];
    if k - 1 == a {
      SeededQueuesTable(m, view, a, v.queued[b].hash);
      FirstInQueue(earlier, v.sender, v.queued, |v.queued|, b);
    } else {
      FirstInQueues(m, view, k - 1, a, b);
      SeededQueueTable(earlier, v.sender, v.queued, |v.queued|, view[a].queued[b].hash);
    }
  }

  /** A listed pending hash is seeded as pending, with nothing known of its slot, queued or not. */
  lemma SeededPending(hashes: seq<TxHash>, view: seq<QueueView>, i: nat)
    requires i < |hashes|
    ensures var m := FromCheckpoint(hashes, view);
      hashes[i] in m.txs && m.txs[hashes[i]] == TxEntry(None, None, Pending, None)
  {
    SeedPendingHolds(hashes, |hashes|, i);
    SeededQueuesTable(FromPendingHashes(hashes), view, |view|, hashes[i]);
  }

  lemma {:induction false} SeedPendingHolds(hashes: seq<TxHash>, n: nat, i: nat)
    requires i < n <= |hashes|
    ensures hashes[i] in SeedPending(hashes, n)
    ensures SeedPending(hashes, n)[hashes[i]] == TxEntry(None, None, Pending, None)
  {
    if i < n - 1 {
      SeedPendingHolds(hashes, n - 1, i);
    }
  }

  /** Any other queued hash is seeded with the slot and the label of its first entry. */
  lemma SeededQueued(hashes: seq<TxHash>, view: seq<QueueView>, a: nat, b: nat)
    requires a < |view| && b < |view[a].queued| && view[a].queued[b].hash !in hashes
    requires forall x, y :: 0 <= x < a && 0 <= y < |view[x].queued| ==> view[x].queued[y].hash != view[a].queued[b].hash
    requires forall y :: 0 <= y < b ==> view[a].queued[y].hash != view[a].queued[b].hash
    ensures var m, p := FromCheckpoint(hashes, view), view[a].queued[b];
      p.hash in m.txs && m.txs[p.hash] == TxEntry(Some(view[a].sender), Some(p.nonce), Pending, Some(p.state))
  {
    if view[a].queued[b].hash in SeedPending(hashes, |hashes|) {
      OnlyListedSeeded(hashes, |hashes|, view[a].queued[b].hash);
    }
    FirstInQueues(FromPendingHashes(hashes), view, |view|, a, b);
  }

  lemma {:induction false} OnlyListedSeeded(hashes: seq<TxHash>, n: nat, h: TxHash)
    requires n <= |hashes| && h in SeedPending(hashes, n)
    ensures h in hashes
  {
    if h != hashes[n - 1] {
      OnlyListedSeeded(hashes, n - 1, h);
    }
  }

  lemma {:induction false} SeededQueueSlot(m: Pool, sender: Address, queued: seq<Position>, i: nat, b: nat)
    requires b < i <= |queued| && forall y :: b < y < i ==> queued[y].nonce != queued[b].nonce
    ensures var m', n := SeedQueue(m, sender, queued, i), queued[b].nonce;
      sender in m'.queues && n in m'.queues[sender] && m'.queues[sender][n] == queued[b].hash
  {
    if b < i - 1 {
      SeededQueueSlot(m, sender, queued, i - 1, b);
    }
  }

  lemma {:induction false} SeedQueueKeepsSlot(
      m: Pool, sender: Address, queued: seq<Position>, i: nat, s: Address, n: U64, h: TxHash)
    requires i <= |queued| && s in m.queues && n in m.queues[s] && m.queues[s][n] == h
    requires s == sender ==> forall y :: 0 <= y < i ==> queued[y].nonce != n
    ensures var m' := SeedQueue(m, sender, queued, i);
      s in m'.queues && n in m'.queues[s] && m'.queues[s][n] == h
  {
    if i > 0 {
      SeedQueueKeepsSlot(m, sender, queued, i - 1, s, n, h);
    }
  }

  /** Every slot of a checkpoint is seeded with its last entry, known before or not. */
  lemma {:induction false} SeededSlot(m: Pool, view: seq<QueueView>, k: nat, a: nat, b: nat)
    requires a < k <= |view| && b < |view[a].queued|
    requires forall y :: b < y < |view[a].queued| ==> view[a].queued[y].nonce != view[a].queued[b].nonce
    requires forall x, y :: a < x < k && view[x].sender == view[a].sender && 0 <= y < |view[x].queued| ==>
      view[x].queued[y].nonce != view[a].queued[b].nonce
    ensures var m', s, p := SeedQueues(m, view, k), view[a].sender, view[a].queued[b];
      s in m'.queues && p.nonce in m'.queues[s] && m'.queues[s][p.nonce] == p.hash
    decreases k
  {
    hide SeedQueue;
    var earlier, v := SeedQueues(m, view, k - 1), view[k - 1];
    if a == k - 1 {
      SeededQueueSlot(earlier, v.sender, v.queued, |v.queued|, b);
    } else {
      SeededSlot(m, view, k - 1, a, b);
      SeedQueueKeepsSlot(
        earlier, v.sender, v.queued, |v.queued|, view[a].sender, view[a].queued[b].nonce, view[a].queued[b].hash);
    }
  }
}
