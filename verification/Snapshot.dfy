/**
  Persisted scheduler snapshots: what a live state writes, what a restart accepts, and
  the round trip between the two.
 */
module Snapshot {
  import opened Prelude
  import opened Ordered
  import opened NonceGap
  import opened SchedulerModel

  type Queues = map<Address, Queue>

  datatype PersistedEntry = PersistedEntry(nonce: U64, hash: TxHash)

  datatype PersistedQueue = PersistedQueue(sender: Address, queued: seq<PersistedEntry>)

  datatype PersistedSnapshot = PersistedSnapshot(
    eventSeqHi: U64, pending: seq<Tx>, frontier: seq<TxHash>, senderQueues: seq<PersistedQueue>)

  datatype SnapshotError =
    | DuplicatePendingHash(hash: TxHash)
    | MissingPendingTransaction(hash: TxHash)
    | DuplicateSenderNonce(sender: Address, nonce: U64)
    | QueueEntryMismatch(hash: TxHash)
    | ExecutableFrontierMismatch

  // ---------------------------------------------------------------- writing
  // A last argument `i` restricts a list to its first `i` elements.

  ghost function PendingUpTo(pending: map<TxHash, Tx>, i: nat): (r: seq<Tx>)
    requires i <= |pending.Keys|
    ensures |r| == i
  {
    if i == 0 then []
    else
      var h := Ascending(pending.Keys)[i - 1];
      assert h in pending.Keys;
      PendingUpTo(pending, i - 1) + [pending[h]]
  }

  ghost function PendingList(pending: map<TxHash, Tx>): seq<Tx> {
    PendingUpTo(pending, |pending.Keys|)
  }

  ghost function EntriesUpTo(q: Queue, i: nat): (r: seq<PersistedEntry>)
    requires i <= |q.Keys|
    ensures |r| == i
  {
    if i == 0 then []
    else
      var n := Nonces(q.Keys)[i - 1];
      assert n in q.Keys;
      EntriesUpTo(q, i - 1) + [PersistedEntry(n, q[n])]
  }

  ghost function EntriesOf(q: Queue): seq<PersistedEntry> {
    EntriesUpTo(q, |q.Keys|)
  }

  ghost function QueuesUpTo(queues: Queues, i: nat): (r: seq<PersistedQueue>)
    requires i <= |queues.Keys|
    ensures |r| == i
  {
    if i == 0 then []
    else
      var s := Ascending(queues.Keys)[i - 1];
      assert s in queues.Keys;
      QueuesUpTo(queues, i - 1) + [PersistedQueue(s, EntriesOf(queues[s]))]
  }

  ghost function QueueList(queues: Queues): seq<PersistedQueue> {
    QueuesUpTo(queues, |queues.Keys|)
  }

  /** The hashes of one kind among the first `i` entries of a queue. */
  ghost function KindUpTo(q: Queue, ready: bool, i: nat): seq<TxHash>
    requires i <= |q.Keys|
  {
    if i == 0 then []
    else
      var n := Nonces(q.Keys)[i - 1];
      assert n in q.Keys;
      KindUpTo(q, ready, i - 1) + if Label(q.Keys, n).Ready? == ready then [q[n]] else []
  }

  ghost function KindOf(q: Queue, ready: bool): seq<TxHash> {
    KindUpTo(q, ready, |q.Keys|)
  }

  /** The queued hashes of one kind, by sender and then by nonce. */
  ghost function ListingUpTo(queues: Queues, ready: bool, i: nat): seq<TxHash>
    requires i <= |queues.Keys|
  {
    if i == 0 then []
    else
      var s := Ascending(queues.Keys)[i - 1];
      assert s in queues.Keys;
      ListingUpTo(queues, ready, i - 1) + KindOf(queues[s], ready)
  }

  ghost function Listing(queues: Queues, ready: bool): seq<TxHash> {
    ListingUpTo(queues, ready, |queues.Keys|)
  }

  /** The executable frontier: the ready hashes. */
  ghost function Frontier(queues: Queues): seq<TxHash> {
    Listing(queues, true)
  }

  ghost function Persist(c: Core): PersistedSnapshot {
    PersistedSnapshot(0, PendingList(c.pending), Frontier(c.queues), QueueList(c.queues))
  }

  // ---------------------------------------------------------------- restoring

  function LoadPending(txs: seq<Tx>, i: nat): Result<map<TxHash, Tx>, SnapshotError>
    requires i <= |txs|
  {
    if i == 0 then Success(map[])
    else
      var earlier, tx := LoadPending(txs, i - 1), txs[i - 1];
      if earlier.Failure? then earlier
      else if tx.hash in earlier.value then Failure(DuplicatePendingHash(tx.hash))
      else Success(earlier.value[tx.hash := tx])
  }

  function InsertEntry(queues: Queues, sender: Address, nonce: U64, hash: TxHash): Result<Queues, SnapshotError> {
    var q := if sender in queues then queues[sender] else map[];
    if nonce in q then Failure(DuplicateSenderNonce(sender, nonce)) else Success(queues[sender := q[nonce := hash]])
  }

  ghost function BuildFromPending(pending: map<TxHash, Tx>, i: nat): Result<Queues, SnapshotError>
    requires i <= |pending.Keys|
  {
    if i == 0 then Success(map[])
    else
      var h := Ascending(pending.Keys)[i - 1];
      assert h in pending.Keys;
      var earlier := BuildFromPending(pending, i - 1);
      if earlier.Failure? then earlier
      else InsertEntry(earlier.value, pending[h].sender, pending[h].nonce, pending[h].hash)
  }

  function LoadEntry(queues: Queues, sender: Address, entry: PersistedEntry, pending: map<TxHash, Tx>)
    : Result<Queues, SnapshotError>
  {
    if entry.hash !in pending then Failure(MissingPendingTransaction(entry.hash))
    else if pending[entry.hash].sender != sender || pending[entry.hash].nonce != entry.nonce then
      Failure(QueueEntryMismatch(entry.hash))
    else InsertEntry(queues, sender, entry.nonce, entry.hash)
  }

  function LoadEntries(queues: Queues, sender: Address, entries: seq<PersistedEntry>, pending: map<TxHash, Tx>, i: nat):
    Result<Queues, SnapshotError>
    requires i <= |entries|
  {
    if i == 0 then Success(queues)
    else
      var earlier := LoadEntries(queues, sender, entries, pending, i - 1);
      if earlier.Failure? then earlier else LoadEntry(earlier.value, sender, entries[i - 1], pending)
  }

  function BuildFromSnapshot(queues: seq<PersistedQueue>, pending: map<TxHash, Tx>, i: nat)
    : Result<Queues, SnapshotError>
    requires i <= |queues|
  {
    if i == 0 then Success(map[])
    else
      var earlier, q := BuildFromSnapshot(queues, pending, i - 1), queues[i - 1];
      if earlier.Failure? then earlier
      else LoadEntries(earlier.value, q.sender, q.queued, pending, |q.queued|)
  }

  /** An empty queue list means "not recorded": the queues are then rebuilt from the pending list. */
  ghost function BuildQueues(recorded: seq<PersistedQueue>, pending: map<TxHash, Tx>): Result<Queues, SnapshotError> {
    if recorded == [] then BuildFromPending(pending, |pending.Keys|)
    else BuildFromSnapshot(recorded, pending, |recorded|)
  }

  ghost function Restore(snapshot: PersistedSnapshot): Result<Core, SnapshotError> {
    match LoadPending(snapshot.pending, |snapshot.pending|)
    case Failure(e) => Failure(e)
    case Success(pending) =>
      match BuildQueues(snapshot.senderQueues, pending)
      case Failure(e) => Failure(e)
      case Success(queues) =>
        if snapshot.frontier != [] && Frontier(queues) != snapshot.frontier then Failure(ExecutableFrontierMismatch)
        else Success(Core(pending, queues))
  }

  // ---------------------------------------------------------------- restored states are well formed

  ghost predicate QueuesFit(queues: Queues, pending: map<TxHash, Tx>) {
    && (forall s :: s in queues ==> queues[s].Keys != {})
    && (forall s, n :: s in queues && n in queues[s] ==> FillsSlot(Core(pending, map[]), queues[s][n], s, n))
  }

  lemma InsertFits(queues: Queues, pending: map<TxHash, Tx>, sender: Address, nonce: U64, hash: TxHash)
    requires QueuesFit(queues, pending)
    requires hash in pending && pending[hash].sender == sender && pending[hash].nonce == nonce
    ensures var r := InsertEntry(queues, sender, nonce, hash); r.Success? ==> QueuesFit(r.value, pending)
  {
    var r := InsertEntry(queues, sender, nonce, hash);
    if r.Success? {
      assert nonce in r.value[sender];
    }
  }

  lemma {:induction false} LoadKeysByHash(txs: seq<Tx>, i: nat)
    requires i <= |txs|
    ensures var r := LoadPending(txs, i);
      r.Success? ==> |r.value| <= i && forall h :: h in r.value ==> r.value[h].hash == h
  {
    if i > 0 {
      LoadKeysByHash(txs, i - 1);
    }
  }

  lemma {:induction false} BuildFromPendingFits(pending: map<TxHash, Tx>, i: nat)
    requires forall h :: h in pending ==> pending[h].hash == h
    requires i <= |pending.Keys|
    ensures var r := BuildFromPending(pending, i); r.Success? ==> QueuesFit(r.value, pending)
  {
    if i > 0 {
      BuildFromPendingFits(pending, i - 1);
      var r := BuildFromPending(pending, i - 1);
      var h := Ascending(pending.Keys)[i - 1];
      assert h in pending.Keys;
      if r.Success? {
        InsertFits(r.value, pending, pending[h].sender, pending[h].nonce, h);
      }
    }
  }

  lemma {:induction false} LoadEntriesFits(
      queues: Queues, sender: Address, entries: seq<PersistedEntry>, pending: map<TxHash, Tx>, i: nat)
    requires QueuesFit(queues, pending) && i <= |entries|
    ensures var r := LoadEntries(queues, sender, entries, pending, i); r.Success? ==> QueuesFit(r.value, pending)
  {
    if i > 0 {
      LoadEntriesFits(queues, sender, entries, pending, i - 1);
      var r := LoadEntries(queues, sender, entries, pending, i - 1);
      var entry := entries[i - 1];
      if r.Success? && LoadEntry(r.value, sender, entry, pending).Success? {
        InsertFits(r.value, pending, sender, entry.nonce, entry.hash);
      }
    }
  }

  lemma {:induction false} BuildFromSnapshotFits(queues: seq<PersistedQueue>, pending: map<TxHash, Tx>, i: nat)
    requires i <= |queues|
    ensures var r := BuildFromSnapshot(queues, pending, i); r.Success? ==> QueuesFit(r.value, pending)
  {
    if i > 0 {
      BuildFromSnapshotFits(queues, pending, i - 1);
      var r := BuildFromSnapshot(queues, pending, i - 1);
      if r.Success? {
        LoadEntriesFits(r.value, queues[i - 1].sender, queues[i - 1].queued, pending, |queues[i - 1].queued|);
      }
    }
  }

  lemma BuildQueuesFits(recorded: seq<PersistedQueue>, pending: map<TxHash, Tx>)
    requires forall h :: h in pending ==> pending[h].hash == h
    ensures var r := BuildQueues(recorded, pending); r.Success? ==> QueuesFit(r.value, pending)
  {
    if recorded == [] {
      BuildFromPendingFits(pending, |pending.Keys|);
    } else {
      BuildFromSnapshotFits(recorded, pending, |recorded|);
    }
  }

  lemma FittingIsWellFormed(queues: Queues, pending: map<TxHash, Tx>)
    requires QueuesFit(queues, pending)
    requires forall h :: h in pending ==> pending[h].hash == h
    ensures WellFormed(Core(pending, queues))
  {
    forall s, n | s in queues && n in queues[s]
      ensures FillsSlot(Core(pending, queues), queues[s][n], s, n)
    {
      assert FillsSlot(Core(pending, map[]), queues[s][n], s, n);
    }
  }

  /**
    Whatever snapshot is accepted, the restored queues are never empty and hold only
    pending transactions of their own sender and nonce.
   */
  lemma RestoredIsWellFormed(snapshot: PersistedSnapshot)
    ensures var r := Restore(snapshot); r.Success? ==> WellFormed(r.value)
  {
    LoadKeysByHash(snapshot.pending, |snapshot.pending|);
    var loaded := LoadPending(snapshot.pending, |snapshot.pending|);
    if loaded.Success? {
      BuildQueuesFits(snapshot.senderQueues, loaded.value);
      var queues := BuildQueues(snapshot.senderQueues, loaded.value);
      if queues.Success? {
        FittingIsWellFormed(queues.value, loaded.value);
      }
    }
  }

  // ---------------------------------------------------------------- round trip

  lemma {:induction false} TxAt(pending: map<TxHash, Tx>, i: nat, k: nat)
    requires k < i <= |pending.Keys|
    ensures Ascending(pending.Keys)[k] in pending
    ensures PendingUpTo(pending, i)[k] == pending[Ascending(pending.Keys)[k]]
  {
    if k < i - 1 {
      TxAt(pending, i - 1, k);
    } else {
      assert Ascending(pending.Keys)[k] in pending.Keys;
    }
  }

  lemma {:induction false} EntryAt(q: Queue, i: nat, k: nat)
    requires k < i <= |q.Keys|
    ensures Nonces(q.Keys)[k] in q
    ensures EntriesUpTo(q, i)[k] == PersistedEntry(Nonces(q.Keys)[k], q[Nonces(q.Keys)[k]])
  {
    if k < i - 1 {
      EntryAt(q, i - 1, k);
    } else {
      assert Nonces(q.Keys)[k] in q.Keys;
    }
  }

  lemma {:induction false} QueueAt(queues: Queues, i: nat, k: nat)
    requires k < i <= |queues.Keys|
    ensures Ascending(queues.Keys)[k] in queues
    ensures var s := Ascending(queues.Keys)[k]; QueuesUpTo(queues, i)[k] == PersistedQueue(s, EntriesOf(queues[s]))
  {
    if k < i - 1 {
      QueueAt(queues, i - 1, k);
    } else {
      assert Ascending(queues.Keys)[k] in queues.Keys;
    }
  }

  lemma {:induction false} LoadsBack(pending: map<TxHash, Tx>, i: nat)
    requires forall h :: h in pending ==> pending[h].hash == h
    requires i <= |pending.Keys|
    ensures LoadPending(PendingList(pending), i) == Success(Restrict(pending, Ascending(pending.Keys), i))
  {
    if i > 0 {
      LoadsBack(pending, i - 1);
      TxAt(pending, |pending.Keys|, i - 1);
      NextIsNew(pending, Ascending(pending.Keys), i - 1);
    }
  }

  ghost function WithQueue(loaded: Queues, sender: Address, q: Queue): Queues {
    if q == map[] then loaded else loaded[sender := q]
  }

  lemma InsertNext(loaded: Queues, sender: Address, q: Queue, nonces: seq<U64>, i: nat)
    requires sender !in loaded && i < |nonces|
    requires StrictlyAscending(nonces) && nonces[i] in q
    ensures InsertEntry(WithQueue(loaded, sender, Restrict(q, nonces, i)), sender, nonces[i], q[nonces[i]]) ==
      Success(WithQueue(loaded, sender, Restrict(q, nonces, i + 1)))
  {
    RestrictEntries(q, nonces, i);
    var earlier, all := Restrict(q, nonces, i), Restrict(q, nonces, i + 1);
    assert nonces[i] in all && all != map[];
    assert loaded[sender := earlier][sender := all] == loaded[sender := all];
  }

  lemma NothingLoaded(loaded: Queues, sender: Address, q: Queue)
    ensures WithQueue(loaded, sender, Restrict(q, Nonces(q.Keys), 0)) == loaded
  {
  }

  /** Loading the written entries of one queue into a state that does not have that sender yet. */
  lemma {:induction false} EntriesLoadBack(pending: map<TxHash, Tx>, sender: Address, q: Queue, loaded: Queues, i: nat)
    requires sender !in loaded && i <= |q.Keys|
    requires forall n :: n in q ==> FillsSlot(Core(pending, map[]), q[n], sender, n)
    ensures LoadEntries(loaded, sender, EntriesOf(q), pending, i) ==
      Success(WithQueue(loaded, sender, Restrict(q, Nonces(q.Keys), i)))
  {
    hide Restrict, WithQueue, InsertEntry;
    if i == 0 {
      NothingLoaded(loaded, sender, q);
    } else {
      var n := Nonces(q.Keys)[i - 1];
      EntriesLoadBack(pending, sender, q, loaded, i - 1);
      EntryAt(q, |q.Keys|, i - 1);
      assert FillsSlot(Core(pending, map[]), q[n], sender, n);
      InsertNext(loaded, sender, q, Nonces(q.Keys), i - 1);
    }
  }

  lemma QueueLoadsBack(c: Core, sender: Address, loaded: Queues)
    requires WellFormed(c) && sender in c.queues && sender !in loaded
    ensures var entries := EntriesOf(c.queues[sender]);
      LoadEntries(loaded, sender, entries, c.pending, |entries|) == Success(loaded[sender := c.queues[sender]])
  {
    var q := c.queues[sender];
    forall n | n in q ensures FillsSlot(Core(c.pending, map[]), q[n], sender, n) {
      assert FillsSlot(c, q[n], sender, n);
    }
    EntriesLoadBack(c.pending, sender, q, loaded, |q.Keys|);
    RestrictToAll(q, Nonces(q.Keys));
    assert q != map[];
  }

  /** Loading a written queue adds it, whatever other senders were loaded before. */
  ghost predicate Reloads(pending: map<TxHash, Tx>, written: PersistedQueue, q: Queue) {
    forall loaded: Queues {:trigger LoadEntries(loaded, written.sender, written.queued, pending, |written.queued|)} ::
      written.sender !in loaded ==>
      LoadEntries(loaded, written.sender, written.queued, pending, |written.queued|) ==
        Success(loaded[written.sender := q])
  }

  lemma {:induction false} QueuesLoadBack(
      pending: map<TxHash, Tx>, queues: Queues, senders: seq<Address>, written: seq<PersistedQueue>, i: nat)
    requires i <= |written| == |senders| && StrictlyAscending(senders)
    requires forall k :: 0 <= k < |written| ==> written[k].sender == senders[k]
    requires forall k :: 0 <= k < |written| ==> senders[k] in queues && Reloads(pending, written[k], queues[senders[k]])
    ensures BuildFromSnapshot(written, pending, i) == Success(Restrict(queues, senders, i))
  {
    if i > 0 {
      QueuesLoadBack(pending, queues, senders, written, i - 1);
      NextIsNew(queues, senders, i - 1);
      var q, loaded := written[i - 1], Restrict(queues, senders, i - 1);
      assert Reloads(pending, q, queues[senders[i - 1]]);
      var next := LoadEntries(loaded, q.sender, q.queued, pending, |q.queued|);
      assert next == Success(loaded[q.sender := queues[senders[i - 1]]]);
      assert BuildFromSnapshot(written, pending, i) == next;
    }
  }

  lemma PendingLoadsBack(c: Core)
    requires WellFormed(c)
    ensures LoadPending(PendingList(c.pending), |PendingList(c.pending)|) == Success(c.pending)
  {
    LoadsBack(c.pending, |c.pending.Keys|);
    RestrictToAll(c.pending, Ascending(c.pending.Keys));
  }

  lemma QueueListLoadsBack(c: Core)
    requires WellFormed(c)
    ensures BuildFromSnapshot(QueueList(c.queues), c.pending, |QueueList(c.queues)|) == Success(c.queues)
  {
    var senders, written := Ascending(c.queues.Keys), QueueList(c.queues);
    forall k | 0 <= k < |written|
      ensures written[k].sender == senders[k]
      ensures senders[k] in c.queues && Reloads(c.pending, written[k], c.queues[senders[k]])
    {
      QueueAt(c.queues, |c.queues.Keys|, k);
      forall loaded: Queues | senders[k] !in loaded
        ensures LoadEntries(loaded, senders[k], written[k].queued, c.pending, |written[k].queued|) ==
          Success(loaded[senders[k] := c.queues[senders[k]]])
      {
        QueueLoadsBack(c, senders[k], loaded);
      }
    }
    QueuesLoadBack(c.pending, c.queues, senders, written, |written|);
    RestrictToAll(c.queues, Ascending(c.queues.Keys));
  }

  /** Restoring what a live state wrote, under any recorded frontier. */
  lemma RestoreWithFrontier(c: Core, frontier: seq<TxHash>)
    requires WellFormed(c)
    requires c.queues == map[] ==> c.pending == map[]
    ensures Restore(Persist(c).(frontier := frontier)) ==
      if frontier == [] || frontier == Frontier(c.queues) then Success(c) else Failure(ExecutableFrontierMismatch)
  {
    PendingLoadsBack(c);
    QueueListLoadsBack(c);
    if QueueList(c.queues) == [] {
      assert c.queues.Keys == {};
      assert c.queues == map[];
    }
  }

  lemma RebuiltQueuesNonEmpty(pending: map<TxHash, Tx>, i: nat)
    requires 0 < i <= |pending.Keys|
    ensures BuildFromPending(pending, i) != Success(map[])
  {
    var earlier, h := BuildFromPending(pending, i - 1), Ascending(pending.Keys)[i - 1];
    assert h in pending.Keys;
    if earlier.Success? {
      var last := InsertEntry(earlier.value, pending[h].sender, pending[h].nonce, pending[h].hash);
      assert last.Success? ==> pending[h].sender in last.value;
    }
  }

  lemma OrphansDoNotRoundTrip(c: Core)
    requires WellFormed(c) && c.queues == map[] && c.pending != map[]
    ensures Restore(Persist(c)) != Success(c)
  {
    PendingLoadsBack(c);
    assert QueueList(c.queues) == [];
    assert c.pending.Keys != {};
    RebuiltQueuesNonEmpty(c.pending, |c.pending.Keys|);
  }

  /**
    A live snapshot restores to the very state it was taken from, except in one corner:
    with pending transactions but no queue at all, the empty queue list is read as "not
    recorded" and queues are rebuilt from the pending transactions.
   */
  lemma RoundTripIff(c: Core)
    requires WellFormed(c)
    ensures Restore(Persist(c)) == Success(c) <==> (c.queues == map[] ==> c.pending == map[])
  {
    if c.queues == map[] && c.pending != map[] {
      OrphansDoNotRoundTrip(c);
    } else {
      RestoreWithFrontier(c, Frontier(c.queues));
      assert Persist(c).(frontier := Frontier(c.queues)) == Persist(c);
    }
  }
}
