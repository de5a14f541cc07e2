/**
  Sanitising a persisted snapshot before a restart: transactions that the events after
  the watermark removed are cut out of it. Says exactly when the result still restores.
 */
module Sanitize {
  import opened Prelude
  import opened Ordered
  import opened Lists
  import opened NonceGap
  import opened SchedulerModel
  import opened EventLog
  import opened Snapshot
  import opened Counting

  // ---------------------------------------------------------------- the removed hashes

  predicate Removes(p: Payload, h: TxHash) {
    (p.TxDropped? || p.TxReplaced? || p.TxConfirmedProvisional? || p.TxConfirmedFinal?) && p.hash == h
  }

  predicate Revives(p: Payload, h: TxHash) {
    (p.TxDecoded? && p.tx.hash == h) || (p.TxReorged? && p.hash == h)
  }

  /** The hashes whose last removing event, if any, has no reviving event after it. */
  ghost predicate RemovedAmong(events: seq<Payload>, i: nat, h: TxHash)
    requires i <= |events|
  {
    exists j :: 0 <= j < i && Removes(events[j], h) && forall k :: j < k < i ==> !Revives(events[k], h)
  }

  /** The set after the first `i` events. */
  function RemovedUpTo(events: seq<Payload>, i: nat): set<TxHash>
    requires i <= |events|
  {
    if i == 0 then {}
    else
      var earlier := RemovedUpTo(events, i - 1);
      match events[i - 1]
      case TxDecoded(tx) => earlier - {tx.hash}
      case TxReorged(h, _, _) => earlier - {h}
      case TxDropped(h, _) => earlier + {h}
      case TxReplaced(h, _) => earlier + {h}
      case TxConfirmedProvisional(h, _, _) => earlier + {h}
      case TxConfirmedFinal(h, _, _) => earlier + {h}
      case _ => earlier
  }

  function Removed(events: seq<Payload>): set<TxHash> {
    RemovedUpTo(events, |events|)
  }

  method RemovedHashes(events: seq<Payload>) returns (removed: set<TxHash>)
    ensures removed == Removed(events)
  {
    removed := {};
    for i := 0 to |events|
      invariant removed == RemovedUpTo(events, i)
    {
      match events[i] {
        case TxDecoded(tx) => removed := removed - {tx.hash};
        case TxReorged(h, _, _) => removed := removed - {h};
        case TxDropped(h, _) => removed := removed + {h};
        case TxReplaced(h, _) => removed := removed + {h};
        case TxConfirmedProvisional(h, _, _) => removed := removed + {h};
        case TxConfirmedFinal(h, _, _) => removed := removed + {h};
        case _ =>
      }
    }
  }

  /** A hash is removed exactly when its last removing event has no reviving event after it. */
  lemma {:induction false} RemovedIff(events: seq<Payload>, i: nat, h: TxHash)
    requires i <= |events|
    ensures h in RemovedUpTo(events, i) <==> RemovedAmong(events, i, h)
  {
    if i > 0 {
      RemovedIff(events, i - 1, h);
      RemovedStep(events, i - 1, h);
    }
  }

  lemma RemovedStep(events: seq<Payload>, i: nat, h: TxHash)
    requires i < |events|
    ensures RemovedAmong(events, i + 1, h) <==>
      Removes(events[i], h) || (RemovedAmong(events, i, h) && !Revives(events[i], h))
  {
    if RemovedAmong(events, i, h) && !Revives(events[i], h) {
      var j :| 0 <= j < i && Removes(events[j], h) && forall k :: j < k < i ==> !Revives(events[k], h);
      assert forall k :: j < k < i + 1 ==> !Revives(events[k], h);
    }
    if RemovedAmong(events, i + 1, h) && !Removes(events[i], h) {
      var j :| 0 <= j < i + 1 && Removes(events[j], h) && forall k :: j < k < i + 1 ==> !Revives(events[k], h);
      assert j < i && !Revives(events[i], h);
    }
  }

  // ---------------------------------------------------------------- sanitising

  function TxKept(removed: set<TxHash>): Tx -> bool {
    (tx: Tx) => tx.hash !in removed
  }

  function HashKept(removed: set<TxHash>): TxHash -> bool {
    (h: TxHash) => h !in removed
  }

  function EntryKept(removed: set<TxHash>): PersistedEntry -> bool {
    (e: PersistedEntry) => e.hash !in removed
  }

  function NonEmpty(): PersistedQueue -> bool {
    (q: PersistedQueue) => q.queued != []
  }

  function Trim(q: PersistedQueue, removed: set<TxHash>): PersistedQueue {
    q.(queued := Retain(q.queued, EntryKept(removed)))
  }

  function TrimUpTo(qs: seq<PersistedQueue>, removed: set<TxHash>, i: nat): (r: seq<PersistedQueue>)
    requires i <= |qs|
    ensures |r| == i
  {
    if i == 0 then [] else TrimUpTo(qs, removed, i - 1) + [Trim(qs[i - 1], removed)]
  }

  function Sanitized(snapshot: PersistedSnapshot, removed: set<TxHash>): PersistedSnapshot {
    if removed == {} then snapshot
    else snapshot.(
        pending := Retain(snapshot.pending, TxKept(removed)),
        frontier := Retain(snapshot.frontier, HashKept(removed)),
        senderQueues := Retain(TrimUpTo(snapshot.senderQueues, removed, |snapshot.senderQueues|), NonEmpty()))
  }

  method SanitizeSnapshot(snapshot: PersistedSnapshot, events: seq<Payload>) returns (r: PersistedSnapshot)
    ensures r == Sanitized(snapshot, Removed(events))
  {
    r := snapshot;
    var removed := RemovedHashes(events);
    if removed == {} {
      return;
    }
    r := r.(pending := Retain(r.pending, TxKept(removed)));
    r := r.(frontier := Retain(r.frontier, HashKept(removed)));
    var queues := [];
    for i := 0 to |r.senderQueues|
      invariant queues == TrimUpTo(r.senderQueues, removed, i)
    {
      queues := queues + [Trim(r.senderQueues[i], removed)];
    }
    r := r.(senderQueues := Retain(queues, NonEmpty()));
  }

  // ---------------------------------------------------------------- the state that is left

  function KeptQueue(q: Queue, removed: set<TxHash>): Queue {
    map n | n in q && q[n] !in removed :: q[n]
  }

  /** A state without the removed transactions. */
  function Kept(c: Core, removed: set<TxHash>): Core {
    Core(c.pending - removed,
         map s | s in c.queues && KeptQueue(c.queues[s], removed) != map[] :: KeptQueue(c.queues[s], removed))
  }

  lemma KeptFills(c: Core, removed: set<TxHash>, s: Address, n: U64)
    requires WellFormed(c) && s in Kept(c, removed).queues && n in Kept(c, removed).queues[s]
    ensures FillsSlot(Kept(c, removed), Kept(c, removed).queues[s][n], s, n)
  {
    assert FillsSlot(c, c.queues[s][n], s, n);
  }

  lemma KeptQueued(c: Core, removed: set<TxHash>, h: TxHash)
    requires Bijective(c) && h in Kept(c, removed).pending
    ensures Queued(Kept(c, removed), c.pending[h]) && c.pending[h].hash == h
  {
    assert Queued(c, c.pending[h]);
    assert c.pending[h].nonce in KeptQueue(c.queues[c.pending[h].sender], removed);
  }

  lemma KeptIsBijective(c: Core, removed: set<TxHash>)
    requires Bijective(c)
    ensures Bijective(Kept(c, removed))
  {
    hide FillsSlot, Queued, KeptQueue;
    var c' := Kept(c, removed);
    forall s, n | s in c'.queues && n in c'.queues[s] ensures FillsSlot(c', c'.queues[s][n], s, n) {
      KeptFills(c, removed, s, n);
    }
    forall h | h in c'.pending ensures Queued(c', c'.pending[h]) && c'.pending[h].hash == h {
      KeptQueued(c, removed, h);
    }
  }

  lemma KeptNothing(c: Core)
    requires WellFormed(c)
    ensures Kept(c, {}) == c
  {
    assert c.pending - {} == c.pending;
    forall s | s in c.queues ensures KeptQueue(c.queues[s], {}) == c.queues[s] {
    }
    assert Kept(c, {}).queues == c.queues;
  }

  // ---------------------------------------------------------------- written lists, as rising lists

  function ByHash(): Tx -> nat {
    (tx: Tx) => tx.hash
  }

  function ByNonce(): PersistedEntry -> nat {
    (e: PersistedEntry) => e.nonce
  }

  function BySender(): PersistedQueue -> nat {
    (q: PersistedQueue) => q.sender
  }

  lemma PendingListRises(pending: map<TxHash, Tx>)
    requires forall h :: h in pending ==> pending[h].hash == h
    ensures Rising(PendingList(pending), ByHash())
    ensures forall tx :: tx in PendingList(pending) <==> tx.hash in pending && pending[tx.hash] == tx
  {
    var keys, list := Ascending(pending.Keys), PendingList(pending);
    forall k | 0 <= k < |list| ensures keys[k] in pending && list[k] == pending[keys[k]] {
      TxAt(pending, |list|, k);
    }
    forall tx: Tx | tx.hash in pending && pending[tx.hash] == tx ensures tx in list {
      assert tx.hash in keys;
      var k :| 0 <= k < |keys| && keys[k] == tx.hash;
      assert list[k] == tx;
    }
  }

  lemma EntriesRise(q: Queue)
    ensures Rising(EntriesOf(q), ByNonce())
    ensures forall e :: e in EntriesOf(q) <==> e.nonce in q && q[e.nonce] == e.hash
  {
    var keys, list := Nonces(q.Keys), EntriesOf(q);
    forall k | 0 <= k < |list| ensures keys[k] in q && list[k] == PersistedEntry(keys[k], q[keys[k]]) {
      EntryAt(q, |list|, k);
    }
    forall e: PersistedEntry | e.nonce in q && q[e.nonce] == e.hash ensures e in list {
      assert e.nonce in keys;
      var k :| 0 <= k < |keys| && keys[k] == e.nonce;
      assert list[k] == e;
    }
  }

  lemma QueueListRises(queues: Queues)
    ensures Rising(QueueList(queues), BySender())
    ensures forall q :: q in QueueList(queues) <==> q.sender in queues && q.queued == EntriesOf(queues[q.sender])
  {
    var keys, list := Ascending(queues.Keys), QueueList(queues);
    forall k | 0 <= k < |list|
      ensures keys[k] in queues && list[k] == PersistedQueue(keys[k], EntriesOf(queues[keys[k]]))
    {
      QueueAt(queues, |list|, k);
    }
    forall q: PersistedQueue | q.sender in queues && q.queued == EntriesOf(queues[q.sender]) ensures q in list {
      assert q.sender in keys;
      var k :| 0 <= k < |keys| && keys[k] == q.sender;
      assert list[k] == q;
    }
  }

  // ---------------------------------------------------------------- sanitising a live snapshot

  lemma PendingRetained(c: Core, removed: set<TxHash>)
    requires WellFormed(c)
    ensures Retain(PendingList(c.pending), TxKept(removed)) == PendingList(c.pending - removed)
  {
    var list := PendingList(c.pending);
    PendingListRises(c.pending);
    PendingListRises(c.pending - removed);
    RetainMembers(list, TxKept(removed), |list|);
    RetainRises(list, TxKept(removed), ByHash(), |list|);
    RisingIsUnique(Retain(list, TxKept(removed)), PendingList(c.pending - removed), ByHash());
  }

  lemma EntriesRetained(q: Queue, removed: set<TxHash>)
    ensures Retain(EntriesOf(q), EntryKept(removed)) == EntriesOf(KeptQueue(q, removed))
  {
    var list := EntriesOf(q);
    EntriesRise(q);
    EntriesRise(KeptQueue(q, removed));
    RetainMembers(list, EntryKept(removed), |list|);
    RetainRises(list, EntryKept(removed), ByNonce(), |list|);
    RisingIsUnique(Retain(list, EntryKept(removed)), EntriesOf(KeptQueue(q, removed)), ByNonce());
  }

  lemma {:induction false} TrimAt(qs: seq<PersistedQueue>, removed: set<TxHash>, i: nat, k: nat)
    requires k < i <= |qs|
    ensures TrimUpTo(qs, removed, i)[k] == Trim(qs[k], removed)
  {
    if k < i - 1 {
      TrimAt(qs, removed, i - 1, k);
    }
  }

  lemma TrimmedAt(queues: Queues, removed: set<TxHash>, k: nat)
    requires k < |QueueList(queues)|
    ensures var list := QueueList(queues);
      && list[k].sender in queues
      && TrimUpTo(list, removed, |list|)[k] ==
         PersistedQueue(list[k].sender, EntriesOf(KeptQueue(queues[list[k].sender], removed)))
  {
    var list := QueueList(queues);
    QueueListRises(queues);
    assert list[k] in list;
    TrimAt(list, removed, |list|, k);
    EntriesRetained(queues[list[k].sender], removed);
  }

  lemma TrimmedListRises(queues: Queues, removed: set<TxHash>)
    ensures var trimmed := TrimUpTo(QueueList(queues), removed, |QueueList(queues)|);
      && Rising(trimmed, BySender())
      && forall q :: q in trimmed <==> q.sender in queues && q.queued == EntriesOf(KeptQueue(queues[q.sender], removed))
  {
    hide TrimUpTo, QueueList, EntriesOf, KeptQueue;
    var list := QueueList(queues);
    var trimmed := TrimUpTo(list, removed, |list|);
    QueueListRises(queues);
    forall k | 0 <= k < |list|
      ensures list[k].sender in queues
      ensures trimmed[k] == PersistedQueue(list[k].sender, EntriesOf(KeptQueue(queues[list[k].sender], removed)))
    {
      TrimmedAt(queues, removed, k);
    }
    forall q: PersistedQueue | q.sender in queues && q.queued == EntriesOf(KeptQueue(queues[q.sender], removed))
      ensures q in trimmed
    {
      var whole := PersistedQueue(q.sender, EntriesOf(queues[q.sender]));
      assert whole in list;
      var k :| 0 <= k < |list| && list[k] == whole;
      assert trimmed[k] == q;
    }
  }

  lemma KeptIffWritten(c: Core, removed: set<TxHash>, q: PersistedQueue)
    ensures q.queued != [] && q.sender in c.queues && q.queued == EntriesOf(KeptQueue(c.queues[q.sender], removed)) <==>
      q.sender in Kept(c, removed).queues && q.queued == EntriesOf(Kept(c, removed).queues[q.sender])
  {
    if q.sender in c.queues {
      WrittenIffNonEmpty(KeptQueue(c.queues[q.sender], removed));
    }
  }

  lemma QueuesRetained(c: Core, removed: set<TxHash>)
    ensures Retain(TrimUpTo(QueueList(c.queues), removed, |QueueList(c.queues)|), NonEmpty())
      == QueueList(Kept(c, removed).queues)
  {
    hide QueueList, TrimUpTo, Kept, EntriesOf, KeptQueue, Rising, RetainUpTo;
    var kept := Kept(c, removed).queues;
    var trimmed := TrimUpTo(QueueList(c.queues), removed, |QueueList(c.queues)|);
    TrimmedListRises(c.queues, removed);
    QueueListRises(kept);
    RetainMembers(trimmed, NonEmpty(), |trimmed|);
    RetainRises(trimmed, NonEmpty(), BySender(), |trimmed|);
    forall q: PersistedQueue ensures q in Retain(trimmed, NonEmpty()) <==> q in QueueList(kept) {
      KeptIffWritten(c, removed, q);
      assert NonEmpty()(q) <==> q.queued != [];
    }
    RisingIsUnique(Retain(trimmed, NonEmpty()), QueueList(kept), BySender());
  }

  lemma WrittenIffNonEmpty(q: Queue)
    ensures EntriesOf(q) != [] <==> q != map[]
  {
    if q.Keys == {} {
      assert q == map[];
    }
  }

  /** A sanitised live snapshot is what the state without the removed transactions writes, but for its frontier. */
  lemma SanitizedShape(c: Core, removed: set<TxHash>)
    requires WellFormed(c)
    ensures Sanitized(Persist(c), removed) ==
      Persist(Kept(c, removed)).(frontier := Retain(Frontier(c.queues), HashKept(removed)))
  {
    if removed == {} {
      KeptNothing(c);
      var f := Frontier(c.queues);
      RetainAll(f, HashKept(removed), |f|);
      assert f[..|f|] == f;
    } else {
      PendingRetained(c, removed);
      QueuesRetained(c, removed);
    }
  }

  // ---------------------------------------------------------------- the frontier as a rising list

  const WIDTH: nat := U64_MAX + 1

  /** Orders hashes by sender and then by nonce. */
  function BySlot(pending: map<TxHash, Tx>): TxHash -> nat {
    (h: TxHash) => if h in pending then pending[h].sender * WIDTH + pending[h].nonce else 0
  }

  /** `h` is one of the first `i` entries of a queue and has the given kind. */
  ghost predicate KindAmong(q: Queue, ready: bool, i: nat, h: TxHash)
    requires i <= |q.Keys|
  {
    exists j :: 0 <= j < i && Nonces(q.Keys)[j] in q && q[Nonces(q.Keys)[j]] == h
      && Label(q.Keys, Nonces(q.Keys)[j]).Ready? == ready
  }

  lemma {:induction false} KindAmongIff(q: Queue, ready: bool, i: nat)
    requires i <= |q.Keys|
    ensures forall h :: h in KindUpTo(q, ready, i) <==> KindAmong(q, ready, i, h)
  {
    hide Label;
    if i > 0 {
      KindAmongIff(q, ready, i - 1);
      assert Nonces(q.Keys)[i - 1] in q.Keys;
    }
  }

  lemma NonceOrder(q: Queue, pending: map<TxHash, Tx>, s: Address, ready: bool, i: nat, h: TxHash)
    requires i < |q.Keys| && forall n :: n in q ==> FillsSlot(Core(pending, map[]), q[n], s, n)
    requires KindAmong(q, ready, i, h) && Nonces(q.Keys)[i] in q
    ensures BySlot(pending)(h) < BySlot(pending)(q[Nonces(q.Keys)[i]])
  {
    hide Label;
    var j :| 0 <= j < i && Nonces(q.Keys)[j] in q && q[Nonces(q.Keys)[j]] == h;
    assert FillsSlot(Core(pending, map[]), h, s, Nonces(q.Keys)[j]);
    assert FillsSlot(Core(pending, map[]), q[Nonces(q.Keys)[i]], s, Nonces(q.Keys)[i]);
  }

  lemma {:induction false} KindRises(q: Queue, pending: map<TxHash, Tx>, s: Address, ready: bool, i: nat)
    requires i <= |q.Keys| && forall n :: n in q ==> FillsSlot(Core(pending, map[]), q[n], s, n)
    ensures Rising(KindUpTo(q, ready, i), BySlot(pending))
  {
    hide Label, Rising, KindAmong, BySlot, FillsSlot;
    if i == 0 {
      NothingRises(BySlot(pending));
    } else {
      KindRises(q, pending, s, ready, i - 1);
      KindAmongIff(q, ready, i - 1);
      var earlier, n := KindUpTo(q, ready, i - 1), Nonces(q.Keys)[i - 1];
      assert n in q.Keys;
      forall h | h in earlier ensures BySlot(pending)(h) < BySlot(pending)(q[n]) {
        NonceOrder(q, pending, s, ready, i - 1, h);
      }
      OneRises(q[n], BySlot(pending));
      RisingConcat(earlier, [q[n]], BySlot(pending));
      assert earlier + [] == earlier;
    }
  }

  /** The hashes of one queue with the given kind. */
  ghost predicate OfKindIn(q: Queue, ready: bool, h: TxHash) {
    exists n :: n in q && q[n] == h && Label(q.Keys, n).Ready? == ready
  }

  lemma KindMembers(q: Queue, pending: map<TxHash, Tx>, s: Address, ready: bool)
    requires forall n :: n in q ==> FillsSlot(Core(pending, map[]), q[n], s, n)
    ensures Rising(KindOf(q, ready), BySlot(pending))
    ensures forall h :: h in KindOf(q, ready) <==> OfKindIn(q, ready, h)
    ensures forall h :: h in KindOf(q, ready) ==> h in pending && pending[h].sender == s
  {
    hide Label;
    KindRises(q, pending, s, ready, |q.Keys|);
    KindAmongIff(q, ready, |q.Keys|);
    forall h | OfKindIn(q, ready, h) ensures h in KindOf(q, ready) && h in pending && pending[h].sender == s {
      var n :| n in q && q[n] == h && Label(q.Keys, n).Ready? == ready;
      assert n in Nonces(q.Keys);
      assert FillsSlot(Core(pending, map[]), q[n], s, n);
      assert KindAmong(q, ready, |q.Keys|, h);
    }
  }

  /** `h` is listed for one of the first `k` senders. */
  ghost predicate Listed(queues: Queues, ready: bool, k: nat, h: TxHash)
    requires k <= |queues.Keys|
  {
    exists j :: 0 <= j < k
      && Ascending(queues.Keys)[j] in queues && OfKindIn(queues[Ascending(queues.Keys)[j]], ready, h)
  }

  lemma NothingIsListed(queues: Queues, ready: bool, h: TxHash)
    ensures !Listed(queues, ready, 0, h)
  {
  }

  lemma ListedStep(queues: Queues, ready: bool, k: nat, h: TxHash)
    requires 0 < k <= |queues.Keys|
    ensures var s := Ascending(queues.Keys)[k - 1];
      && s in queues
      && (Listed(queues, ready, k, h) <==> Listed(queues, ready, k - 1, h) || OfKindIn(queues[s], ready, h))
  {
    hide OfKindIn;
    assert Ascending(queues.Keys)[k - 1] in queues.Keys;
  }

  lemma {:induction false} ListingMembers(queues: Queues, pending: map<TxHash, Tx>, ready: bool, k: nat, h: TxHash)
    requires QueuesFit(queues, pending) && k <= |queues.Keys|
    ensures h in ListingUpTo(queues, ready, k) <==> Listed(queues, ready, k, h)
  {
    hide Label, OfKindIn, Rising, FillsSlot, KindOf, QueuesFit, Listed, BySlot;
    if k == 0 {
      NothingIsListed(queues, ready, h);
    } else {
      ListedStep(queues, ready, k, h);
      ListingMembers(queues, pending, ready, k - 1, h);
      var s := Ascending(queues.Keys)[k - 1];
      assert s in queues.Keys;
      SenderFits(queues, pending, s);
      KindMembers(queues[s], pending, s, ready);
    }
  }

  /** `h` is pending and its sender is one of the first `k`. */
  ghost predicate FromFirst(queues: Queues, pending: map<TxHash, Tx>, k: nat, h: TxHash)
    requires k <= |queues.Keys|
  {
    h in pending && exists j :: 0 <= j < k && Ascending(queues.Keys)[j] == pending[h].sender
  }

  lemma ListedFromFirst(queues: Queues, pending: map<TxHash, Tx>, ready: bool, k: nat, h: TxHash)
    requires QueuesFit(queues, pending) && k <= |queues.Keys| && Listed(queues, ready, k, h)
    ensures FromFirst(queues, pending, k, h)
  {
    hide Label;
    var j :| 0 <= j < k && Ascending(queues.Keys)[j] in queues && OfKindIn(queues[Ascending(queues.Keys)[j]], ready, h);
    var s := Ascending(queues.Keys)[j];
    var n :| n in queues[s] && queues[s][n] == h;
    assert FillsSlot(Core(pending, map[]), h, s, n);
  }

  lemma SenderOrder(queues: Queues, pending: map<TxHash, Tx>, k: nat, x: TxHash, y: TxHash)
    requires k < |queues.Keys| && FromFirst(queues, pending, k, x)
    requires y in pending && pending[y].sender == Ascending(queues.Keys)[k]
    ensures BySlot(pending)(x) < BySlot(pending)(y)
  {
    assert pending[x].sender < pending[y].sender;
  }

  lemma ListedEarlier(queues: Queues, pending: map<TxHash, Tx>, ready: bool, k: nat, x: TxHash, y: TxHash)
    requires QueuesFit(queues, pending) && k < |queues.Keys| && x in ListingUpTo(queues, ready, k)
    requires y in pending && pending[y].sender == Ascending(queues.Keys)[k]
    ensures BySlot(pending)(x) < BySlot(pending)(y)
  {
    hide QueuesFit, FromFirst, Listed, BySlot;
    ListingMembers(queues, pending, ready, k, x);
    ListedFromFirst(queues, pending, ready, k, x);
    SenderOrder(queues, pending, k, x, y);
  }

  lemma {:induction false} ListingRises(queues: Queues, pending: map<TxHash, Tx>, ready: bool, k: nat)
    requires QueuesFit(queues, pending) && k <= |queues.Keys|
    ensures Rising(ListingUpTo(queues, ready, k), BySlot(pending))
  {
    hide Label, OfKindIn, Rising, BySlot, FillsSlot, QueuesFit, FromFirst, Listed;
    if k == 0 {
      NothingRises(BySlot(pending));
    } else {
      ListingRises(queues, pending, ready, k - 1);
      var s := Ascending(queues.Keys)[k - 1];
      assert s in queues.Keys;
      SenderFits(queues, pending, s);
      KindMembers(queues[s], pending, s, ready);
      var earlier, last := ListingUpTo(queues, ready, k - 1), KindOf(queues[s], ready);
      forall x, y | x in earlier && y in last ensures BySlot(pending)(x) < BySlot(pending)(y) {
        ListedEarlier(queues, pending, ready, k - 1, x, y);
      }
      RisingConcat(earlier, last, BySlot(pending));
    }
  }

  lemma SenderFits(queues: Queues, pending: map<TxHash, Tx>, s: Address)
    requires QueuesFit(queues, pending) && s in queues
    ensures forall n :: n in queues[s] ==> FillsSlot(Core(pending, map[]), queues[s][n], s, n)
  {
  }

  /** The listing of a kind, in slot order, is exactly the classified hashes of that kind. */
  lemma ListingIsClassified(c: Core, ready: bool)
    requires WellFormed(c)
    ensures Rising(Listing(c.queues, ready), BySlot(c.pending))
    ensures forall h :: h in Listing(c.queues, ready) <==> h in Classified(c, ready)
  {
    hide Rising, BySlot, Label, Listed, Classified;
    WellFormedFits(c);
    ListingRises(c.queues, c.pending, ready, |c.queues.Keys|);
    forall h ensures h in Listing(c.queues, ready) <==> h in Classified(c, ready) {
      ListingMembers(c.queues, c.pending, ready, |c.queues.Keys|, h);
      ListedIffClassified(c, ready, h);
    }
  }

  lemma ListedIsClassified(c: Core, ready: bool, h: TxHash)
    requires WellFormed(c) && Listed(c.queues, ready, |c.queues.Keys|, h)
    ensures h in Classified(c, ready)
  {
    hide Label;
    var senders := Ascending(c.queues.Keys);
    var j :| 0 <= j < |senders| && senders[j] in c.queues && OfKindIn(c.queues[senders[j]], ready, h);
    var q := c.queues[senders[j]];
    var n :| n in q && q[n] == h && Label(q.Keys, n).Ready? == ready;
    assert FillsSlot(c, h, senders[j], n);
  }

  lemma ClassifiedIsListed(c: Core, ready: bool, h: TxHash)
    requires WellFormed(c) && h in Classified(c, ready)
    ensures Listed(c.queues, ready, |c.queues.Keys|, h)
  {
    hide Label;
    var senders, tx := Ascending(c.queues.Keys), c.pending[h];
    assert tx.sender in senders;
    var j :| 0 <= j < |senders| && senders[j] == tx.sender;
    assert tx.nonce in c.queues[tx.sender];
    assert OfKindIn(c.queues[tx.sender], ready, h);
  }

  lemma ListedIffClassified(c: Core, ready: bool, h: TxHash)
    requires WellFormed(c)
    ensures Listed(c.queues, ready, |c.queues.Keys|, h) <==> h in Classified(c, ready)
  {
    hide Label, WellFormed, Listed, Classified;
    if Listed(c.queues, ready, |c.queues.Keys|, h) {
      ListedIsClassified(c, ready, h);
    }
    if h in Classified(c, ready) {
      ClassifiedIsListed(c, ready, h);
    }
  }

  lemma WellFormedFits(c: Core)
    requires WellFormed(c)
    ensures QueuesFit(c.queues, c.pending)
  {
    forall s, n | s in c.queues && n in c.queues[s] ensures FillsSlot(Core(c.pending, map[]), c.queues[s][n], s, n) {
      assert FillsSlot(c, c.queues[s][n], s, n);
    }
  }

  // ---------------------------------------------------------------- when the frontier still matches

  /**
    What a sender must keep: some entry of its ready run, and with any two kept entries
    of the run everything between them.
   */
  ghost predicate KeepsRun(all: set<U64>, kept: set<U64>)
    requires kept != {} && kept <= all
  {
    && Least(kept) < FirstGap(all)
    && forall k :: Least(kept) <= k && (exists b :: b in kept && k <= b < FirstGap(all)) ==> k in kept
  }

  lemma KeepsRunIff(all: set<U64>, kept: set<U64>)
    requires kept != {} && kept <= all
    ensures KeepsRun(all, kept) <==> forall n :: n in kept ==> Label(all, n).Ready? == Label(kept, n).Ready?
  {
    var least := Least(kept);
    if KeepsRun(all, kept) {
      forall n | n in kept ensures Label(all, n).Ready? == Label(kept, n).Ready? {
        LabelRule(kept, n);
        if n < FirstGap(all) {
          assert forall k :: least <= k <= n ==> k in kept;
        } else {
          assert FirstGap(all) !in kept;
        }
      }
    }
    if forall n :: n in kept ==> Label(all, n).Ready? == Label(kept, n).Ready? {
      LabelRule(kept, least);
      assert Label(all, least).Ready?;
      forall k | least <= k && exists b :: b in kept && k <= b < FirstGap(all) ensures k in kept {
        var b :| b in kept && k <= b < FirstGap(all);
        assert Label(all, b).Ready?;
        LabelRule(kept, b);
      }
    }
  }

  /** Every sender with entries left keeps part of its ready run, without holes. */
  ghost predicate RunsKept(c: Core, removed: set<TxHash>) {
    forall s :: s in Kept(c, removed).queues ==> KeepsRun(c.queues[s].Keys, Kept(c, removed).queues[s].Keys)
  }

  lemma SameReadinessIff(c: Core, removed: set<TxHash>)
    requires Bijective(c)
    ensures RunsKept(c, removed) <==> Classified(c, true) - removed == Classified(Kept(c, removed), true)
  {
    var kept := Kept(c, removed);
    KeptIsBijective(c, removed);
    if RunsKept(c, removed) {
      forall h ensures h in Classified(c, true) - removed <==> h in Classified(kept, true) {
        if h in kept.pending {
          KeptReadiness(c, removed, h);
        }
      }
    }
    if Classified(c, true) - removed == Classified(kept, true) {
      forall s | s in kept.queues ensures KeepsRun(c.queues[s].Keys, kept.queues[s].Keys) {
        forall n | n in kept.queues[s]
          ensures Label(c.queues[s].Keys, n).Ready? == Label(kept.queues[s].Keys, n).Ready?
        {
          var h := kept.queues[s][n];
          assert FillsSlot(kept, h, s, n);
          assert h in Classified(c, true) - removed <==> h in Classified(kept, true);
        }
        KeepsRunIff(c.queues[s].Keys, kept.queues[s].Keys);
      }
    }
  }

  lemma KeptReadiness(c: Core, removed: set<TxHash>, h: TxHash)
    requires Bijective(c) && RunsKept(c, removed) && h in Kept(c, removed).pending
    ensures h in Classified(c, true) <==> h in Classified(Kept(c, removed), true)
  {
    var kept, tx := Kept(c, removed), c.pending[h];
    KeptIsBijective(c, removed);
    assert Queued(c, tx) && Queued(kept, kept.pending[h]);
    KeepsRunIff(c.queues[tx.sender].Keys, kept.queues[tx.sender].Keys);
  }

  lemma RetainedFrontier(c: Core, removed: set<TxHash>)
    requires Bijective(c)
    ensures Rising(Retain(Frontier(c.queues), HashKept(removed)), BySlot(c.pending))
    ensures forall h :: h in Retain(Frontier(c.queues), HashKept(removed)) <==> h in Classified(c, true) - removed
  {
    hide Rising, BySlot, Classified, Bijective, RetainUpTo, ListingUpTo;
    WellFormedIfBijective(c);
    var frontier := Frontier(c.queues);
    ListingIsClassified(c, true);
    RetainMembers(frontier, HashKept(removed), |frontier|);
    RetainRises(frontier, HashKept(removed), BySlot(c.pending), |frontier|);
    forall h ensures h in Retain(frontier, HashKept(removed)) <==> h in Classified(c, true) - removed {
      assert HashKept(removed)(h) <==> h !in removed;
    }
  }

  lemma WellFormedIfBijective(c: Core)
    requires Bijective(c)
    ensures WellFormed(c)
  {
  }

  lemma RetainedFrontierMatchesIff(c: Core, removed: set<TxHash>)
    requires Bijective(c)
    ensures Retain(Frontier(c.queues), HashKept(removed)) == Frontier(Kept(c, removed).queues) <==> RunsKept(c, removed)
    ensures Retain(Frontier(c.queues), HashKept(removed)) == [] <==> Classified(c, true) <= removed
  {
    hide Rising, BySlot, Classified, RunsKept, Bijective, Retain, Frontier, Kept;
    var kept, retained := Kept(c, removed), Retain(Frontier(c.queues), HashKept(removed));
    SameReadinessIff(c, removed);
    RetainedFrontier(c, removed);
    KeptFrontierRises(c, removed);
    var ready := Classified(c, true) - removed;
    if RunsKept(c, removed) {
      RisingIsUnique(retained, Frontier(kept.queues), BySlot(c.pending));
    }
    if retained == Frontier(kept.queues) {
      assert ready == Classified(kept, true);
    }
    assert retained == [] <==> ready == {} by {
      if retained != [] {
        assert retained[0] in retained;
      }
      if ready != {} {
        var h :| h in ready;
        assert h in retained;
      }
    }
    DifferenceEmpty(Classified(c, true), removed);
  }

  lemma DifferenceEmpty<T>(a: set<T>, b: set<T>)
    ensures a - b == {} <==> a <= b
  {
    if a - b == {} {
      forall x | x in a ensures x in b {
        assert x !in a - b;
      }
    }
  }

  /** The frontier of what is left rises in the slot order of the original state too. */
  lemma KeptFrontierRises(c: Core, removed: set<TxHash>)
    requires Bijective(c)
    ensures Rising(Frontier(Kept(c, removed).queues), BySlot(c.pending))
    ensures forall h :: h in Frontier(Kept(c, removed).queues) <==> h in Classified(Kept(c, removed), true)
  {
    var kept := Kept(c, removed);
    KeptIsBijective(c, removed);
    ListingIsClassified(kept, true);
    var f := Frontier(kept.queues);
    forall a, b | 0 <= a < b < |f| ensures BySlot(c.pending)(f[a]) < BySlot(c.pending)(f[b]) {
      assert f[a] in f && f[b] in f;
      assert BySlot(kept.pending)(f[a]) < BySlot(kept.pending)(f[b]);
    }
  }

  /**
    Exactly what sanitising does to a live snapshot, for any set of removed hashes. The
    result restores to the original state without them when no ready entry survives or
    every sender with entries left keeps part of its ready run without holes; otherwise
    it is rejected, always for its frontier.
   */
  lemma SanitizedRestore(c: Core, removed: set<TxHash>, watermark: U64)
    requires Bijective(c)
    ensures Restore(Sanitized(Persist(c).(eventSeqHi := watermark), removed)) ==
      if Classified(c, true) <= removed || RunsKept(c, removed) then Success(Kept(c, removed))
      else Failure(ExecutableFrontierMismatch)
  {
    hide RunsKept, Classified;
    var kept, retained := Kept(c, removed), Retain(Frontier(c.queues), HashKept(removed));
    SanitizedShape(c, removed);
    RetainedFrontierMatchesIff(c, removed);
    KeptIsBijective(c, removed);
    RestoreWithFrontier(kept, retained);
    WatermarkIgnored(Persist(c), removed, watermark);
  }

  lemma WatermarkIgnored(snapshot: PersistedSnapshot, removed: set<TxHash>, watermark: U64)
    ensures Restore(Sanitized(snapshot.(eventSeqHi := watermark), removed)) == Restore(Sanitized(snapshot, removed))
  {
  }

  // ---------------------------------------------------------------- any snapshot, entry by entry

  lemma {:induction false} TrimmedMembers(qs: seq<PersistedQueue>, removed: set<TxHash>, i: nat, q': PersistedQueue)
    requires i <= |qs|
    ensures q' in TrimUpTo(qs, removed, i) <==> exists k :: 0 <= k < i && q' == Trim(qs[k], removed)
  {
    if i > 0 {
      TrimmedMembers(qs, removed, i - 1, q');
    }
  }

  lemma TrimmedEntries(q: PersistedQueue, removed: set<TxHash>, e: PersistedEntry)
    ensures Trim(q, removed).sender == q.sender
    ensures e in Trim(q, removed).queued <==> e in q.queued && e.hash !in removed
  {
    RetainMembers(q.queued, EntryKept(removed), |q.queued|);
  }

  /**
    Sanitising any snapshot, foreign ones included: with nothing removed it stays as it is,
    empty queues and all; otherwise exactly the removed hashes leave the pending list, the
    frontier and each queue, and only queues with entries left remain.
   */
  lemma SanitizedIs(
      snapshot: PersistedSnapshot, removed: set<TxHash>, tx: Tx, h: TxHash, q': PersistedQueue, e: PersistedEntry)
    ensures removed == {} ==> Sanitized(snapshot, removed) == snapshot
    ensures removed != {} ==>
      var clean := Sanitized(snapshot, removed);
      && clean.eventSeqHi == snapshot.eventSeqHi
      && (tx in clean.pending <==> tx in snapshot.pending && tx.hash !in removed)
      && (h in clean.frontier <==> h in snapshot.frontier && h !in removed)
      && (q' in clean.senderQueues <==>
            q'.queued != [] && exists q :: q in snapshot.senderQueues && q' == Trim(q, removed))
      && (forall q :: q in snapshot.senderQueues ==>
            && Trim(q, removed).sender == q.sender
            && (e in Trim(q, removed).queued <==> e in q.queued && e.hash !in removed))
  {
    hide Trim, TrimUpTo, RetainUpTo;
    if removed != {} {
      var trimmed := TrimUpTo(snapshot.senderQueues, removed, |snapshot.senderQueues|);
      RetainMembers(snapshot.pending, TxKept(removed), |snapshot.pending|);
      RetainMembers(snapshot.frontier, HashKept(removed), |snapshot.frontier|);
      RetainMembers(trimmed, NonEmpty(), |trimmed|);
      TrimmedMembers(snapshot.senderQueues, removed, |snapshot.senderQueues|, q');
      forall q | q in snapshot.senderQueues
        ensures Trim(q, removed).sender == q.sender
        ensures e in Trim(q, removed).queued <==> e in q.queued && e.hash !in removed
      {
        TrimmedEntries(q, removed, e);
      }
    }
  }
}
