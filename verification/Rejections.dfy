/**
  Which snapshots are rejected and for what, read off their entries: the first fault in
  loading order decides.
 */
module Rejections {
  import opened Prelude
  import opened Ordered
  import opened SchedulerModel
  import opened Snapshot

  // ---------------------------------------------------------------- the pending transactions

  /** The hash of transaction `b` is that of an earlier one. */
  ghost predicate Repeated(txs: seq<Tx>, b: nat)
    requires b < |txs|
  {
    exists a :: 0 <= a < b && txs[a].hash == txs[b].hash
  }

  /** A pending list loads exactly when no hash repeats, to the map from hashes to transactions. */
  lemma {:induction false} PendingLoadsIff(txs: seq<Tx>, i: nat)
    requires i <= |txs|
    ensures LoadPending(txs, i).Success? <==> forall b :: 0 <= b < i ==> !Repeated(txs, b)
    ensures LoadPending(txs, i).Success? ==>
      && (forall h :: h in LoadPending(txs, i).value <==> exists a :: 0 <= a < i && txs[a].hash == h)
      && (forall a :: 0 <= a < i ==> LoadPending(txs, i).value[txs[a].hash] == txs[a])
  {
    if i > 0 {
      PendingLoadsIff(txs, i - 1);
      assert LoadPending(txs, i - 1).Success? ==>
        (txs[i - 1].hash in LoadPending(txs, i - 1).value <==> Repeated(txs, i - 1));
    }
  }

  /** Otherwise the first repeated hash is reported. */
  lemma {:induction false} PendingRejectedFor(txs: seq<Tx>, i: nat) returns (b: nat)
    requires i <= |txs| && LoadPending(txs, i).Failure?
    ensures b < i && Repeated(txs, b) && forall a :: 0 <= a < b ==> !Repeated(txs, a)
    ensures LoadPending(txs, i) == Failure(DuplicatePendingHash(txs[b].hash))
  {
    PendingLoadsIff(txs, i - 1);
    if LoadPending(txs, i - 1).Failure? {
      b := PendingRejectedFor(txs, i - 1);
    } else {
      b := i - 1;
    }
  }

  // ---------------------------------------------------------------- the recorded queues

  /** The entry points at a pending transaction of that sender and nonce. */
  predicate Fits(pending: map<TxHash, Tx>, sender: Address, e: PersistedEntry) {
    e.hash in pending && pending[e.hash].sender == sender && pending[e.hash].nonce == e.nonce
  }

  /** Entry `b` of queue `a`. */
  function EntryAt(queues: seq<PersistedQueue>, a: nat, b: nat): PersistedEntry
    requires a < |queues| && b < |queues[a].queued|
  {
    queues[a].queued[b]
  }

  /** Entry (x, y) is loaded before entry (a, b). */
  predicate LoadedBefore(x: nat, y: nat, a: nat, b: nat) {
    x < a || (x == a && y < b)
  }

  /** An entry loaded before (a, b) has the sender and nonce. */
  ghost predicate Taken(queues: seq<PersistedQueue>, a: nat, b: nat, sender: Address, nonce: U64)
    requires a <= |queues|
  {
    exists x, y ::
      && 0 <= x < |queues| && 0 <= y < |queues[x].queued| && LoadedBefore(x, y, a, b)
      && queues[x].sender == sender && EntryAt(queues, x, y).nonce == nonce
  }

  /** The entry fits, and no earlier one has its slot. */
  ghost predicate Good(queues: seq<PersistedQueue>, pending: map<TxHash, Tx>, a: nat, b: nat)
    requires a < |queues| && b < |queues[a].queued|
  {
    && Fits(pending, queues[a].sender, EntryAt(queues, a, b))
    && !Taken(queues, a, b, queues[a].sender, EntryAt(queues, a, b).nonce)
  }

  ghost predicate GoodBefore(queues: seq<PersistedQueue>, pending: map<TxHash, Tx>, a: nat, b: nat)
    requires a <= |queues|
  {
    forall x, y :: 0 <= x < |queues| && 0 <= y < |queues[x].queued| && LoadedBefore(x, y, a, b) ==>
      Good(queues, pending, x, y)
  }

  predicate HasSlot(queues: Queues, s: Address, n: U64) {
    s in queues && n in queues[s]
  }

  /** What has been loaded before entry (a, b): exactly the slots of the entries before it. */
  ghost predicate Loaded(loaded: Queues, queues: seq<PersistedQueue>, a: nat, b: nat)
    requires a <= |queues|
  {
    forall s, n :: HasSlot(loaded, s, n) <==> Taken(queues, a, b, s, n)
  }

  /** The state of the loading loops before entry (a, b). */
  ghost function LoadedAt(queues: seq<PersistedQueue>, pending: map<TxHash, Tx>, a: nat, b: nat)
    : Result<Queues, SnapshotError>
    requires a <= |queues| && if a < |queues| then b <= |queues[a].queued| else b == 0
  {
    var earlier := BuildFromSnapshot(queues, pending, a);
    if earlier.Failure? || b == 0 then earlier
    else LoadEntries(earlier.value, queues[a].sender, queues[a].queued, pending, b)
  }

  /** The fault of an entry that is not good. */
  ghost function Fault(queues: seq<PersistedQueue>, pending: map<TxHash, Tx>, a: nat, b: nat): SnapshotError
    requires a < |queues| && b < |queues[a].queued|
  {
    var e := EntryAt(queues, a, b);
    if e.hash !in pending then MissingPendingTransaction(e.hash)
    else if pending[e.hash].sender != queues[a].sender || pending[e.hash].nonce != e.nonce then
      QueueEntryMismatch(e.hash)
    else DuplicateSenderNonce(queues[a].sender, e.nonce)
  }

  lemma TakenStep(queues: seq<PersistedQueue>, a: nat, b: nat, s: Address, n: U64)
    requires a < |queues| && b < |queues[a].queued|
    ensures Taken(queues, a, b + 1, s, n) <==>
      Taken(queues, a, b, s, n) || (queues[a].sender == s && EntryAt(queues, a, b).nonce == n)
  {
  }

  lemma TakenNextQueue(queues: seq<PersistedQueue>, a: nat, s: Address, n: U64)
    requires a < |queues|
    ensures Taken(queues, a + 1, 0, s, n) <==> Taken(queues, a, |queues[a].queued|, s, n)
  {
  }

  lemma GoodStep(queues: seq<PersistedQueue>, pending: map<TxHash, Tx>, a: nat, b: nat)
    requires a < |queues| && b < |queues[a].queued|
    ensures GoodBefore(queues, pending, a, b + 1) <==>
      GoodBefore(queues, pending, a, b) && Good(queues, pending, a, b)
  {
    hide Good;
  }

  lemma GoodNextQueue(queues: seq<PersistedQueue>, pending: map<TxHash, Tx>, a: nat)
    requires a < |queues|
    ensures GoodBefore(queues, pending, a + 1, 0) <==> GoodBefore(queues, pending, a, |queues[a].queued|)
  {
    hide Good;
  }

  /** Before each entry: everything so far was good and is loaded, or the first fault has been reported. */
  ghost predicate Progress(queues: seq<PersistedQueue>, pending: map<TxHash, Tx>, a: nat, b: nat)
    requires a <= |queues| && if a < |queues| then b <= |queues[a].queued| else b == 0
  {
    match LoadedAt(queues, pending, a, b)
    case Success(loaded) => GoodBefore(queues, pending, a, b) && Loaded(loaded, queues, a, b)
    case Failure(e) => ReportsFirst(queues, pending, a, b, e)
  }

  /** The error is the fault of the first entry before (a, b) that is not good. */
  ghost predicate ReportsFirst(
      queues: seq<PersistedQueue>, pending: map<TxHash, Tx>, a: nat, b: nat, e: SnapshotError)
    requires a <= |queues|
  {
    exists x, y ::
      && 0 <= x < |queues| && 0 <= y < |queues[x].queued| && LoadedBefore(x, y, a, b)
      && GoodBefore(queues, pending, x, y) && !Good(queues, pending, x, y) && e == Fault(queues, pending, x, y)
  }

  lemma ReportStays(
      queues: seq<PersistedQueue>, pending: map<TxHash, Tx>, a: nat, b: nat, a': nat, b': nat, e: SnapshotError)
    requires a <= a' <= |queues| && (a == a' ==> b <= b') && ReportsFirst(queues, pending, a, b, e)
    ensures ReportsFirst(queues, pending, a', b', e)
  {
    hide Good, GoodBefore, Fault;
    var x, y :|
      && 0 <= x < |queues| && 0 <= y < |queues[x].queued| && LoadedBefore(x, y, a, b)
      && GoodBefore(queues, pending, x, y) && !Good(queues, pending, x, y) && e == Fault(queues, pending, x, y);
    assert LoadedBefore(x, y, a', b');
  }

  lemma EntryLoads(queues: seq<PersistedQueue>, pending: map<TxHash, Tx>, a: nat, b: nat, loaded: Queues)
    requires a < |queues| && b < |queues[a].queued| && Loaded(loaded, queues, a, b)
    ensures match LoadEntry(loaded, queues[a].sender, EntryAt(queues, a, b), pending)
      case Success(next) => Good(queues, pending, a, b) && Loaded(next, queues, a, b + 1)
      case Failure(e) => !Good(queues, pending, a, b) && e == Fault(queues, pending, a, b)
  {
    hide Taken;
    var sender, e := queues[a].sender, EntryAt(queues, a, b);
    assert HasSlot(loaded, sender, e.nonce) <==> Taken(queues, a, b, sender, e.nonce);
    var r := LoadEntry(loaded, sender, e, pending);
    if r.Success? {
      forall s, n ensures HasSlot(r.value, s, n) <==> Taken(queues, a, b + 1, s, n) {
        TakenStep(queues, a, b, s, n);
        assert HasSlot(r.value, s, n) <==> HasSlot(loaded, s, n) || (s == sender && n == e.nonce);
      }
    }
  }

  lemma LoadedNext(queues: seq<PersistedQueue>, pending: map<TxHash, Tx>, a: nat, b: nat)
    requires a < |queues| && b < |queues[a].queued|
    ensures LoadedAt(queues, pending, a, b + 1) ==
      match LoadedAt(queues, pending, a, b)
      case Success(loaded) => LoadEntry(loaded, queues[a].sender, EntryAt(queues, a, b), pending)
      case Failure(e) => Failure(e)
  {
    hide BuildFromSnapshot, LoadEntry;
    var earlier := BuildFromSnapshot(queues, pending, a);
    if earlier.Success? {
      var q := queues[a];
      assert LoadEntries(earlier.value, q.sender, q.queued, pending, 0) == Success(earlier.value);
      assert LoadedAt(queues, pending, a, b) == LoadEntries(earlier.value, q.sender, q.queued, pending, b);
    }
  }

  lemma EntryStep(queues: seq<PersistedQueue>, pending: map<TxHash, Tx>, a: nat, b: nat)
    requires a < |queues| && b < |queues[a].queued| && Progress(queues, pending, a, b)
    ensures Progress(queues, pending, a, b + 1)
  {
    hide Taken, GoodBefore, Good, Fault, Loaded, LoadedAt, LoadEntry, ReportsFirst;
    LoadedNext(queues, pending, a, b);
    match LoadedAt(queues, pending, a, b)
    case Failure(e) => ReportStays(queues, pending, a, b, a, b + 1, e);
    case Success(loaded) =>
      EntryLoads(queues, pending, a, b, loaded);
      GoodStep(queues, pending, a, b);
      if !Good(queues, pending, a, b) {
        FaultReported(queues, pending, a, b);
      }
  }

  lemma FaultReported(queues: seq<PersistedQueue>, pending: map<TxHash, Tx>, a: nat, b: nat)
    requires a < |queues| && b < |queues[a].queued|
    requires GoodBefore(queues, pending, a, b) && !Good(queues, pending, a, b)
    ensures ReportsFirst(queues, pending, a, b + 1, Fault(queues, pending, a, b))
  {
    hide Good, GoodBefore, Fault;
    assert LoadedBefore(a, b, a, b + 1);
  }

  lemma LoadedNextQueue(queues: seq<PersistedQueue>, pending: map<TxHash, Tx>, a: nat)
    requires a < |queues|
    ensures LoadedAt(queues, pending, a + 1, 0) == LoadedAt(queues, pending, a, |queues[a].queued|)
  {
    var earlier := BuildFromSnapshot(queues, pending, a);
    if earlier.Success? {
      assert LoadEntries(earlier.value, queues[a].sender, queues[a].queued, pending, 0) == Success(earlier.value);
    }
  }

  lemma QueueStep(queues: seq<PersistedQueue>, pending: map<TxHash, Tx>, a: nat)
    requires a < |queues| && Progress(queues, pending, a, |queues[a].queued|)
    ensures Progress(queues, pending, a + 1, 0)
  {
    hide Taken, GoodBefore, ReportsFirst, LoadedAt;
    LoadedNextQueue(queues, pending, a);
    GoodNextQueue(queues, pending, a);
    forall s, n ensures Taken(queues, a + 1, 0, s, n) <==> Taken(queues, a, |queues[a].queued|, s, n) {
      TakenNextQueue(queues, a, s, n);
    }
    match LoadedAt(queues, pending, a, |queues[a].queued|)
    case Failure(e) => ReportStays(queues, pending, a, |queues[a].queued|, a + 1, 0, e);
    case Success(_) =>
  }

  lemma {:induction false} ProgressAt(queues: seq<PersistedQueue>, pending: map<TxHash, Tx>, a: nat, b: nat)
    requires a <= |queues| && if a < |queues| then b <= |queues[a].queued| else b == 0
    ensures Progress(queues, pending, a, b)
    decreases a, b
  {
    hide Progress;
    if b > 0 {
      ProgressAt(queues, pending, a, b - 1);
      EntryStep(queues, pending, a, b - 1);
    } else if a > 0 {
      ProgressAt(queues, pending, a - 1, |queues[a - 1].queued|);
      QueueStep(queues, pending, a - 1);
    } else {
      NothingLoaded(queues, pending);
    }
  }

  lemma NothingLoaded(queues: seq<PersistedQueue>, pending: map<TxHash, Tx>)
    ensures Progress(queues, pending, 0, 0)
  {
  }

  /**
    Recorded queues load exactly when every entry points at a pending transaction of its own
    sender and nonce and no slot is recorded twice; otherwise the first faulty entry is
    reported, by its fault.
   */
  lemma QueuesLoadIff(queues: seq<PersistedQueue>, pending: map<TxHash, Tx>)
    ensures match BuildFromSnapshot(queues, pending, |queues|)
      case Success(loaded) =>
        && (forall a, b :: 0 <= a < |queues| && 0 <= b < |queues[a].queued| ==> Good(queues, pending, a, b))
        && (forall s, n :: HasSlot(loaded, s, n) <==>
              exists a, b :: 0 <= a < |queues| && 0 <= b < |queues[a].queued| && queues[a].sender == s
                && EntryAt(queues, a, b).nonce == n)
      case Failure(e) =>
        exists a, b :: 0 <= a < |queues| && 0 <= b < |queues[a].queued|
          && (forall x, y :: 0 <= x < |queues| && 0 <= y < |queues[x].queued| && LoadedBefore(x, y, a, b) ==>
                Good(queues, pending, x, y))
          && !Good(queues, pending, a, b) && e == Fault(queues, pending, a, b)
  {
    hide Good, Fault, BuildFromSnapshot, Taken;
    ProgressAt(queues, pending, |queues|, 0);
    forall s, n
      ensures Taken(queues, |queues|, 0, s, n) <==>
        exists a, b :: 0 <= a < |queues| && 0 <= b < |queues[a].queued| && queues[a].sender == s
          && EntryAt(queues, a, b).nonce == n
    {
      TakenByAny(queues, s, n);
    }
  }

  lemma TakenByAny(queues: seq<PersistedQueue>, s: Address, n: U64)
    ensures Taken(queues, |queues|, 0, s, n) <==>
      exists a, b :: 0 <= a < |queues| && 0 <= b < |queues[a].queued| && queues[a].sender == s
        && EntryAt(queues, a, b).nonce == n
  {
    assert forall x: nat, y: nat :: x < |queues| ==> LoadedBefore(x, y, |queues|, 0);
  }

  // ---------------------------------------------------------------- queues rebuilt from the transactions

  /** An earlier hash, in ascending order, has the sender and nonce. */
  ghost predicate SlotBefore(pending: map<TxHash, Tx>, i: nat, s: Address, n: U64)
    requires i <= |pending.Keys|
  {
    exists k :: 0 <= k < i && Ascending(pending.Keys)[k] in pending
      && pending[Ascending(pending.Keys)[k]].sender == s && pending[Ascending(pending.Keys)[k]].nonce == n
  }

  /** Transaction `i`, in ascending order of the hashes, wants a slot that an earlier one has. */
  ghost predicate Clashes(pending: map<TxHash, Tx>, i: nat)
    requires i < |pending.Keys|
  {
    var h := Ascending(pending.Keys)[i];
    h in pending && SlotBefore(pending, i, pending[h].sender, pending[h].nonce)
  }

  lemma SlotStep(pending: map<TxHash, Tx>, i: nat, s: Address, n: U64)
    requires i < |pending.Keys|
    ensures Ascending(pending.Keys)[i] in pending
    ensures var tx := pending[Ascending(pending.Keys)[i]];
      SlotBefore(pending, i + 1, s, n) <==> SlotBefore(pending, i, s, n) || (tx.sender == s && tx.nonce == n)
  {
    assert Ascending(pending.Keys)[i] in pending.Keys;
  }

  /** Without recorded queues: exactly when no two transactions want one slot, and then every slot is filled. */
  lemma {:induction false} RebuildsIff(pending: map<TxHash, Tx>, i: nat)
    requires i <= |pending.Keys|
    ensures BuildFromPending(pending, i).Success? <==> forall k :: 0 <= k < i ==> !Clashes(pending, k)
    ensures BuildFromPending(pending, i).Success? ==>
      forall s, n :: HasSlot(BuildFromPending(pending, i).value, s, n) <==> SlotBefore(pending, i, s, n)
  {
    hide SlotBefore;
    if i == 0 {
      NothingBefore(pending);
    } else {
      RebuildsIff(pending, i - 1);
      SlotStep(pending, i - 1, 0, 0);
      var tx, earlier := pending[Ascending(pending.Keys)[i - 1]], BuildFromPending(pending, i - 1);
      if earlier.Success? {
        assert HasSlot(earlier.value, tx.sender, tx.nonce) <==> Clashes(pending, i - 1);
      }
      if BuildFromPending(pending, i).Success? {
        var r := BuildFromPending(pending, i).value;
        forall s, n ensures HasSlot(r, s, n) <==> SlotBefore(pending, i, s, n) {
          SlotStep(pending, i - 1, s, n);
          assert HasSlot(r, s, n) <==> HasSlot(earlier.value, s, n) || (s == tx.sender && n == tx.nonce);
        }
      }
    }
  }

  lemma NothingBefore(pending: map<TxHash, Tx>)
    ensures forall s, n :: !SlotBefore(pending, 0, s, n)
  {
  }

  /** Otherwise the first clash is reported, by its slot. */
  lemma {:induction false} RebuildRejectedFor(pending: map<TxHash, Tx>, i: nat) returns (k: nat)
    requires i <= |pending.Keys| && BuildFromPending(pending, i).Failure?
    ensures k < i && Clashes(pending, k) && forall j :: 0 <= j < k ==> !Clashes(pending, j)
    ensures Ascending(pending.Keys)[k] in pending
    ensures var tx := pending[Ascending(pending.Keys)[k]];
      BuildFromPending(pending, i) == Failure(DuplicateSenderNonce(tx.sender, tx.nonce))
  {
    hide Clashes;
    RebuildsIff(pending, i - 1);
    RebuildsIff(pending, i);
    if BuildFromPending(pending, i - 1).Failure? {
      k := RebuildRejectedFor(pending, i - 1);
    } else {
      k := i - 1;
      SlotStep(pending, k, 0, 0);
    }
  }

  // ---------------------------------------------------------------- the order of the checks

  /** Pending list, queues, frontier: the first stage that fails decides, and an empty frontier is never compared. */
  lemma RestoreStages(snapshot: PersistedSnapshot)
    ensures var loaded := LoadPending(snapshot.pending, |snapshot.pending|);
      match Restore(snapshot)
      case Failure(DuplicatePendingHash(h)) => loaded == Failure(DuplicatePendingHash(h))
      case Failure(ExecutableFrontierMismatch) =>
        && loaded.Success? && snapshot.frontier != []
        && var queues := BuildQueues(snapshot.senderQueues, loaded.value);
           queues.Success? && Frontier(queues.value) != snapshot.frontier
      case Failure(e) => loaded.Success? && BuildQueues(snapshot.senderQueues, loaded.value) == Failure(e)
      case Success(c) =>
        && loaded == Success(c.pending) && BuildQueues(snapshot.senderQueues, c.pending) == Success(c.queues)
        && (snapshot.frontier == [] || snapshot.frontier == Frontier(c.queues))
  {
    hide BuildQueues, LoadPending, Frontier;
    LoadReports(snapshot.pending, |snapshot.pending|);
    if LoadPending(snapshot.pending, |snapshot.pending|).Success? {
      BuildReports(snapshot.senderQueues, LoadPending(snapshot.pending, |snapshot.pending|).value);
    }
  }

  lemma LoadReports(txs: seq<Tx>, i: nat)
    requires i <= |txs|
    ensures LoadPending(txs, i).Failure? ==> LoadPending(txs, i).error.DuplicatePendingHash?
  {
    if LoadPending(txs, i).Failure? {
      var b := PendingRejectedFor(txs, i);
    }
  }

  lemma BuildReports(queues: seq<PersistedQueue>, pending: map<TxHash, Tx>)
    ensures BuildQueues(queues, pending).Failure? ==>
      !BuildQueues(queues, pending).error.DuplicatePendingHash? &&
      !BuildQueues(queues, pending).error.ExecutableFrontierMismatch?
  {
    hide BuildFromPending, BuildFromSnapshot, Good;
    if queues == [] {
      if BuildQueues(queues, pending).Failure? {
        var k := RebuildRejectedFor(pending, |pending.Keys|);
      }
    } else {
      QueuesLoadIff(queues, pending);
    }
  }
}
