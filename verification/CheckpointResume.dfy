/** Resuming from a checkpoint shows, frame by frame, what the full replay shows. */
module CheckpointResume {
  import opened Prelude
  import opened Ordered
  import opened Lists
  import opened NonceGap
  import opened SchedulerModel
  import opened Snapshot
  import opened Sanitize
  import opened EventLog
  import opened EventOrder
  import opened Mempool
  import opened MempoolMachine
  import opened ReplayFrames
  import opened Resume

  // ---------------------------------------------------------------- what a view lists

  /** A queue view lists a hash at a nonce. */
  ghost predicate InQueueView(queued: seq<Position>, n: U64, h: TxHash) {
    exists b :: 0 <= b < |queued| && queued[b].nonce == n && queued[b].hash == h
  }

  /** The first `k` queue views list a hash in a slot. */
  ghost predicate InView(view: seq<QueueView>, k: nat, s: Address, n: U64, h: TxHash) {
    exists a :: 0 <= a < k <= |view| && view[a].sender == s && InQueueView(view[a].queued, n, h)
  }

  lemma InAppended(queued: seq<Position>, p: Position, n: U64, h: TxHash)
    ensures InQueueView(queued + [p], n, h) <==> InQueueView(queued, n, h) || (p.nonce == n && p.hash == h)
  {
    if InQueueView(queued, n, h) {
      var b :| 0 <= b < |queued| && queued[b].nonce == n && queued[b].hash == h;
      assert (queued + [p])[b] == queued[b];
    }
    if p.nonce == n && p.hash == h {
      assert (queued + [p])[|queued|] == p;
    }
  }

  lemma {:induction false} QueuedLists(txs: TxTable, q: Queue, i: nat, n: U64, h: TxHash)
    requires i <= |q.Keys|
    ensures InQueueView(QueuedUpTo(txs, q, i), n, h) <==>
      n in LiveNonces(txs, q) && q[n] == h && exists j :: 0 <= j < i && Nonces(q.Keys)[j] == n
  {
    hide InQueueView, Label, LiveNonces;
    if i == 0 {
      NothingListed(n, h);
    } else {
      QueuedLists(txs, q, i - 1, n, h);
      var m := Nonces(q.Keys)[i - 1];
      assert m in q.Keys;
      var earlier := QueuedUpTo(txs, q, i - 1);
      if m in LiveNonces(txs, q) {
        InAppended(earlier, Position(q[m], m, StateOr(txs, q[m], Label(LiveNonces(txs, q), m))), n, h);
      } else {
        assert earlier + [] == earlier;
      }
    }
  }

  lemma NothingListed(n: U64, h: TxHash)
    ensures !InQueueView([], n, h)
  {
  }

  lemma LiveQueueLists(m: Pool, s: Address, n: U64, h: TxHash)
    requires s in m.queues
    ensures InQueueView(LiveQueue(m.txs, m.queues[s]), n, h) <==> LiveAt(m, s, n, h)
  {
    var q := m.queues[s];
    QueuedLists(m.txs, q, |q.Keys|, n, h);
    if n in q {
      assert n in Nonces(q.Keys);
    }
  }

  lemma InViewAppended(view: seq<QueueView>, v: QueueView, s: Address, n: U64, h: TxHash)
    ensures InView(view + [v], |view| + 1, s, n, h) <==>
      InView(view, |view|, s, n, h) || (v.sender == s && InQueueView(v.queued, n, h))
  {
    hide InQueueView;
    if InView(view, |view|, s, n, h) {
      var a :| 0 <= a < |view| && view[a].sender == s && InQueueView(view[a].queued, n, h);
      assert (view + [v])[a] == view[a];
    }
    if v.sender == s && InQueueView(v.queued, n, h) {
      assert (view + [v])[|view|] == v;
    }
  }

  lemma {:induction false} PoolViewLists(m: Pool, k: nat, s: Address, n: U64, h: TxHash)
    requires k <= |m.queues.Keys|
    ensures InView(PoolViewUpTo(m, k), |PoolViewUpTo(m, k)|, s, n, h) <==>
      LiveAt(m, s, n, h) && exists j :: 0 <= j < k && Ascending(m.queues.Keys)[j] == s
  {
    hide InView, InQueueView, LiveAt, LiveQueue;
    if k == 0 {
      NothingInView(s, n, h);
    } else {
      PoolViewLists(m, k - 1, s, n, h);
      var sender := Ascending(m.queues.Keys)[k - 1];
      assert sender in m.queues.Keys;
      var earlier, queued := PoolViewUpTo(m, k - 1), LiveQueue(m.txs, m.queues[sender]);
      LiveQueueLists(m, sender, n, h);
      if queued != [] {
        InViewAppended(earlier, QueueView(sender, queued), s, n, h);
      } else {
        NothingListed(n, h);
        assert earlier + [] == earlier;
      }
    }
  }

  lemma NothingInView(s: Address, n: U64, h: TxHash)
    ensures !InView([], 0, s, n, h)
  {
  }

  /** A frame lists exactly the live slots. */
  lemma ViewListsLive(m: Pool, s: Address, n: U64, h: TxHash)
    ensures InView(PoolView(m), |PoolView(m)|, s, n, h) <==> LiveAt(m, s, n, h)
  {
    hide InView;
    PoolViewLists(m, |m.queues.Keys|, s, n, h);
    if s in m.queues {
      assert s in Ascending(m.queues.Keys);
    }
  }

  // ---------------------------------------------------------------- what a checkpoint seeds

  lemma {:induction false} SeedPendingIs(hashes: seq<TxHash>, i: nat, h: TxHash)
    requires i <= |hashes|
    ensures h in SeedPending(hashes, i) <==> exists j :: 0 <= j < i && hashes[j] == h
    ensures h in SeedPending(hashes, i) ==> SeedPending(hashes, i)[h] == TxEntry(None, None, Pending, None)
  {
    if i > 0 {
      SeedPendingIs(hashes, i - 1, h);
    }
  }

  /** Seeding so far: the given table, and only slots the original state has too. */
  ghost predicate Seeded(r: Pool, txs: TxTable, m: Pool) {
    r.txs == txs && forall s, n, h :: SlotHas(r, s, n, h) ==> SlotHas(m, s, n, h)
  }

  lemma SeedEntryKeeps(r: Pool, txs: TxTable, m: Pool, sender: Address, p: Position)
    requires Seeded(r, txs, m) && p.hash in txs && SlotHas(m, sender, p.nonce, p.hash)
    ensures Seeded(SeedEntry(r, sender, p), txs, m)
    ensures SlotHas(SeedEntry(r, sender, p), sender, p.nonce, p.hash)
    ensures forall s, n, h :: SlotHas(r, s, n, h) ==> SlotHas(SeedEntry(r, sender, p), s, n, h)
  {
    var r' := SeedEntry(r, sender, p);
    forall s, n, h
      ensures SlotHas(r', s, n, h) <==> SlotHas(r, s, n, h) || (s == sender && n == p.nonce && h == p.hash)
    {
      if SlotHas(r, sender, p.nonce, h) && s == sender && n == p.nonce {
        assert SlotHas(m, sender, p.nonce, h);
      }
    }
  }

  /** Every entry of a queue view is in the table and in its slot of the original state. */
  ghost predicate ViewFits(queued: seq<Position>, txs: TxTable, m: Pool, sender: Address) {
    forall b :: 0 <= b < |queued| ==> queued[b].hash in txs && SlotHas(m, sender, queued[b].nonce, queued[b].hash)
  }

  lemma {:induction false} SeedQueueKeeps(
      r: Pool, txs: TxTable, m: Pool, sender: Address, queued: seq<Position>, i: nat)
    requires i <= |queued| && Seeded(r, txs, m) && ViewFits(queued, txs, m, sender)
    ensures Seeded(SeedQueue(r, sender, queued, i), txs, m)
    ensures forall b :: 0 <= b < i ==> SlotHas(SeedQueue(r, sender, queued, i), sender, queued[b].nonce, queued[b].hash)
    ensures forall s, n, h :: SlotHas(r, s, n, h) ==> SlotHas(SeedQueue(r, sender, queued, i), s, n, h)
  {
    hide Seeded, SlotHas, SeedEntry;
    if i > 0 {
      SeedQueueKeeps(r, txs, m, sender, queued, i - 1);
      SeedEntryKeeps(SeedQueue(r, sender, queued, i - 1), txs, m, sender, queued[i - 1]);
    }
  }

  lemma {:induction false} SeedQueuesKeeps(r: Pool, txs: TxTable, m: Pool, view: seq<QueueView>, k: nat)
    requires k <= |view| && Seeded(r, txs, m)
    requires forall a :: 0 <= a < |view| ==> ViewFits(view[a].queued, txs, m, view[a].sender)
    ensures Seeded(SeedQueues(r, view, k), txs, m)
    ensures forall s, n, h :: InView(view, k, s, n, h) ==> SlotHas(SeedQueues(r, view, k), s, n, h)
  {
    hide Seeded, SlotHas, SeedEntry, ViewFits;
    if k > 0 {
      SeedQueuesKeeps(r, txs, m, view, k - 1);
      var earlier, v := SeedQueues(r, view, k - 1), view[k - 1];
      SeedQueueKeeps(earlier, txs, m, v.sender, v.queued, |v.queued|);
      forall s, n, h | InView(view, k, s, n, h) ensures SlotHas(SeedQueues(r, view, k), s, n, h) {
        var a :| 0 <= a < k && view[a].sender == s && InQueueView(view[a].queued, n, h);
        if a < k - 1 {
          assert InView(view, k - 1, s, n, h);
        } else {
          var b :| 0 <= b < |v.queued| && v.queued[b].nonce == n && v.queued[b].hash == h;
        }
      }
    }
  }

  /** A state seeded from a checkpoint of `m` shows what `m` shows. */
  lemma CheckpointShowsSame(m: Pool, log: seq<Payload>)
    requires FromLog(m, log)
    ensures var r := FromCheckpoint(Ascending(PendingHashes(m)), PoolView(m));
      SameShown(m, r) && FromLog(r, log) && r.txs == SeedPending(Ascending(PendingHashes(m)), |PendingHashes(m)|)
    ensures forall s, n, h ::
      SlotHas(FromCheckpoint(Ascending(PendingHashes(m)), PoolView(m)), s, n, h) ==> SlotHas(m, s, n, h)
  {
    hide InView, InQueueView, PoolViewUpTo, FromLog, SeedPending;
    var hashes, view := Ascending(PendingHashes(m)), PoolView(m);
    var txs := SeedPending(hashes, |hashes|);
    forall h ensures h in txs <==> IsPending(m.txs, h) {
      SeedPendingIs(hashes, |hashes|, h);
      assert h in hashes <==> h in PendingHashes(m);
    }
    forall a | 0 <= a < |view| ensures ViewFits(view[a].queued, txs, m, view[a].sender) {
      ViewEntriesFit(m, txs, a);
    }
    var start := Mempool.FromPendingHashes(hashes);
    SeedQueuesKeeps(start, txs, m, view, |view|);
    var r := FromCheckpoint(hashes, view);
    SeededShowsSame(m, r, txs, view);
    SeededFromLog(m, r, txs, log);
  }

  lemma ViewEntriesFit(m: Pool, txs: TxTable, a: nat)
    requires a < |PoolView(m)| && forall h :: IsPending(m.txs, h) ==> h in txs
    ensures ViewFits(PoolView(m)[a].queued, txs, m, PoolView(m)[a].sender)
  {
    hide PoolViewUpTo;
    var v := PoolView(m)[a];
    forall b | 0 <= b < |v.queued|
      ensures v.queued[b].hash in txs && SlotHas(m, v.sender, v.queued[b].nonce, v.queued[b].hash)
    {
      assert InQueueView(v.queued, v.queued[b].nonce, v.queued[b].hash);
      assert InView(PoolView(m), |PoolView(m)|, v.sender, v.queued[b].nonce, v.queued[b].hash);
      ViewListsLive(m, v.sender, v.queued[b].nonce, v.queued[b].hash);
    }
  }

  lemma SeededShowsSame(m: Pool, r: Pool, txs: TxTable, view: seq<QueueView>)
    requires Seeded(r, txs, m) && view == PoolView(m)
    requires forall h :: h in txs <==> IsPending(m.txs, h)
    requires txs == SeedPending(Ascending(PendingHashes(m)), |PendingHashes(m)|)
    requires forall s, n, h :: InView(view, |view|, s, n, h) ==> SlotHas(r, s, n, h)
    ensures SameShown(m, r)
  {
    hide InView, PoolViewUpTo, SeedPending;
    forall h ensures IsPending(m.txs, h) <==> IsPending(r.txs, h) {
      SeedPendingIs(Ascending(PendingHashes(m)), |PendingHashes(m)|, h);
    }
    forall s, n, h ensures LiveAt(m, s, n, h) <==> LiveAt(r, s, n, h) {
      ViewListsLive(m, s, n, h);
      assert SlotHas(r, s, n, h) ==> SlotHas(m, s, n, h);
    }
  }

  lemma SeededFromLog(m: Pool, r: Pool, txs: TxTable, log: seq<Payload>)
    requires FromLog(m, log) && Seeded(r, txs, m)
    requires txs == SeedPending(Ascending(PendingHashes(m)), |PendingHashes(m)|)
    ensures FromLog(r, log)
  {
    hide Placed, SeedPending;
    forall s, n | s in r.queues && n in r.queues[s] ensures Placed(log, r.queues[s][n], s, n) {
      assert SlotHas(r, s, n, r.queues[s][n]);
    }
    forall h | h in r.txs ensures r.txs[h].sender.None? {
      SeedPendingIs(Ascending(PendingHashes(m)), |PendingHashes(m)|, h);
    }
  }

  // ---------------------------------------------------------------- queues without their labels

  function WithoutLabels(queued: seq<Position>): seq<PersistedEntry> {
    seq(|queued|, i requires 0 <= i < |queued| => PersistedEntry(queued[i].nonce, queued[i].hash))
  }

  /** A frame's queues as (sender, nonce, hash) lists. */
  function Unlabelled(view: seq<QueueView>): seq<PersistedQueue> {
    seq(|view|, i requires 0 <= i < |view| => PersistedQueue(view[i].sender, WithoutLabels(view[i].queued)))
  }

  lemma {:induction false} QueuedRises(txs: TxTable, q: Queue, i: nat)
    requires i <= |q.Keys|
    ensures Rising(WithoutLabels(QueuedUpTo(txs, q, i)), ByNonce())
    ensures forall e ::
      e in WithoutLabels(QueuedUpTo(txs, q, i)) <==> InQueueView(QueuedUpTo(txs, q, i), e.nonce, e.hash)
  {
    hide LiveNonces, Label, Rising, InQueueView;
    if i == 0 {
      NothingRises(ByNonce());
      NothingInEmptyQueue();
      assert WithoutLabels(QueuedUpTo(txs, q, 0)) == [];
    } else {
      QueuedRises(txs, q, i - 1);
      var earlier, n := QueuedUpTo(txs, q, i - 1), Nonces(q.Keys)[i - 1];
      assert n in q.Keys;
      if n in LiveNonces(txs, q) {
        var p := Position(q[n], n, StateOr(txs, q[n], Label(LiveNonces(txs, q), n)));
        assert WithoutLabels(earlier + [p]) == WithoutLabels(earlier) + [PersistedEntry(n, q[n])];
        EarlierNonces(txs, q, i - 1);
        OneRises(PersistedEntry(n, q[n]), ByNonce());
        RisingConcat(WithoutLabels(earlier), [PersistedEntry(n, q[n])], ByNonce());
        forall e: PersistedEntry
          ensures e in WithoutLabels(earlier + [p]) <==> InQueueView(earlier + [p], e.nonce, e.hash)
        {
          InAppended(earlier, p, e.nonce, e.hash);
        }
      } else {
        assert earlier + [] == earlier;
      }
    }
  }

  lemma NothingInEmptyQueue()
    ensures forall n, h :: !InQueueView([], n, h)
  {
  }

  lemma EarlierNonces(txs: TxTable, q: Queue, i: nat)
    requires i < |q.Keys|
    requires forall e ::
      e in WithoutLabels(QueuedUpTo(txs, q, i)) <==> InQueueView(QueuedUpTo(txs, q, i), e.nonce, e.hash)
    ensures forall e :: e in WithoutLabels(QueuedUpTo(txs, q, i)) ==> e.nonce < Nonces(q.Keys)[i]
  {
    hide Label, LiveNonces;
    forall e | e in WithoutLabels(QueuedUpTo(txs, q, i)) ensures e.nonce < Nonces(q.Keys)[i] {
      QueuedLists(txs, q, i, e.nonce, e.hash);
    }
  }

  /** Without labels, a listed queue is the list of its live entries. */
  lemma ListedIsLive(m: Pool, s: Address)
    requires s in m.queues
    ensures WithoutLabels(LiveQueue(m.txs, m.queues[s])) == EntriesOf(KeepLive(m.txs, m.queues[s]))
  {
    hide Rising, InQueueView, QueuedUpTo, EntriesUpTo;
    var q := m.queues[s];
    QueuedRises(m.txs, q, |q.Keys|);
    EntriesRise(KeepLive(m.txs, q));
    var listed, live := WithoutLabels(LiveQueue(m.txs, q)), EntriesOf(KeepLive(m.txs, q));
    forall e: PersistedEntry ensures e in listed <==> e in live {
      LiveQueueLists(m, s, e.nonce, e.hash);
    }
    RisingIsUnique(listed, live, ByNonce());
  }

  /** One unlabelled queue of a frame. */
  ghost predicate ShownQueue(m: Pool, q: PersistedQueue) {
    q.queued != [] && q.sender in m.queues && q.queued == EntriesOf(KeepLive(m.txs, m.queues[q.sender]))
  }

  lemma {:induction false} ViewRises(m: Pool, k: nat)
    requires k <= |m.queues.Keys|
    ensures Rising(Unlabelled(PoolViewUpTo(m, k)), BySender())
    ensures forall q :: q in Unlabelled(PoolViewUpTo(m, k)) <==>
      ShownQueue(m, q) && exists j :: 0 <= j < k && Ascending(m.queues.Keys)[j] == q.sender
  {
    hide Rising, KeepLive, EntriesOf, LiveQueue;
    if k == 0 {
      NothingRises(BySender());
      assert Unlabelled(PoolViewUpTo(m, 0)) == [];
    } else {
      ViewRises(m, k - 1);
      var s := Ascending(m.queues.Keys)[k - 1];
      assert s in m.queues.Keys;
      var earlier, queued := PoolViewUpTo(m, k - 1), LiveQueue(m.txs, m.queues[s]);
      ListedIsLive(m, s);
      if queued != [] {
        var last := PersistedQueue(s, WithoutLabels(queued));
        assert Unlabelled(earlier + [QueueView(s, queued)]) == Unlabelled(earlier) + [last];
        assert forall j :: 0 <= j < k - 1 ==> Ascending(m.queues.Keys)[j] < s;
        OneRises(last, BySender());
        RisingConcat(Unlabelled(earlier), [last], BySender());
      } else {
        assert earlier + [] == earlier;
      }
    }
  }

  lemma SameShownQueues(a: Pool, b: Pool, q: PersistedQueue)
    requires SameShown(a, b) && ShownQueue(a, q)
    ensures ShownQueue(b, q)
  {
    var s := q.sender;
    var liveA := KeepLive(a.txs, a.queues[s]);
    WrittenIffNonEmpty(liveA);
    var n :| n in liveA;
    assert LiveAt(a, s, n, liveA[n]) && LiveAt(b, s, n, liveA[n]);
    var liveB := KeepLive(b.txs, b.queues[s]);
    forall k: U64 ensures (k in liveA <==> k in liveB) && (k in liveA ==> liveA[k] == liveB[k]) {
      if k in liveA {
        assert LiveAt(a, s, k, liveA[k]);
      }
      if k in liveB {
        assert LiveAt(b, s, k, liveB[k]);
      }
    }
    assert liveA == liveB;
  }

  /** States that show the same yield the same pending list and the same unlabelled queues. */
  lemma SameFrames(a: Pool, b: Pool)
    requires SameShown(a, b)
    ensures PendingHashes(a) == PendingHashes(b)
    ensures Unlabelled(PoolView(a)) == Unlabelled(PoolView(b))
  {
    hide Rising, LiveAt, PoolViewUpTo, ShownQueue;
    ViewRises(a, |a.queues.Keys|);
    ViewRises(b, |b.queues.Keys|);
    forall q: PersistedQueue ensures q in Unlabelled(PoolView(a)) <==> q in Unlabelled(PoolView(b)) {
      ShownIsListed(a, q);
      ShownIsListed(b, q);
      SameBothWays(a, b, q);
    }
    RisingIsUnique(Unlabelled(PoolView(a)), Unlabelled(PoolView(b)), BySender());
  }

  /** A list of queue views and its unlabelled form list the same slots. */
  lemma UnlabelledLists(view: seq<QueueView>, s: Address, n: U64, h: TxHash)
    ensures InView(view, |view|, s, n, h) <==>
      exists q :: q in Unlabelled(view) && q.sender == s && PersistedEntry(n, h) in q.queued
  {
    if InView(view, |view|, s, n, h) {
      var a :| 0 <= a < |view| && view[a].sender == s && InQueueView(view[a].queued, n, h);
      var b :| 0 <= b < |view[a].queued| && view[a].queued[b].nonce == n && view[a].queued[b].hash == h;
      assert Unlabelled(view)[a] in Unlabelled(view) && WithoutLabels(view[a].queued)[b] == PersistedEntry(n, h);
    }
    forall q | q in Unlabelled(view) && q.sender == s && PersistedEntry(n, h) in q.queued
      ensures InView(view, |view|, s, n, h)
    {
      var a :| 0 <= a < |view| && Unlabelled(view)[a] == q;
      var b :| 0 <= b < |q.queued| && q.queued[b] == PersistedEntry(n, h);
      assert view[a].queued[b].nonce == n && view[a].queued[b].hash == h;
    }
  }

  /** States with the same pending list and the same unlabelled queues show the same. */
  lemma FramesShow(a: Pool, b: Pool)
    requires PendingHashes(a) == PendingHashes(b) && Unlabelled(PoolView(a)) == Unlabelled(PoolView(b))
    ensures SameShown(a, b)
  {
    hide InView, LiveAt, PoolView, Unlabelled;
    forall h ensures IsPending(a.txs, h) <==> IsPending(b.txs, h) {
      assert h in PendingHashes(a) <==> h in PendingHashes(b);
    }
    forall s, n, h ensures LiveAt(a, s, n, h) <==> LiveAt(b, s, n, h) {
      ViewListsLive(a, s, n, h);
      ViewListsLive(b, s, n, h);
      UnlabelledLists(PoolView(a), s, n, h);
      UnlabelledLists(PoolView(b), s, n, h);
    }
  }

  lemma SameBothWays(a: Pool, b: Pool, q: PersistedQueue)
    requires SameShown(a, b)
    ensures ShownQueue(a, q) <==> ShownQueue(b, q)
  {
    hide ShownQueue, LiveAt;
    if ShownQueue(a, q) {
      SameShownQueues(a, b, q);
    }
    if ShownQueue(b, q) {
      SameShownQueues(b, a, q);
    }
  }

  lemma ShownIsListed(m: Pool, q: PersistedQueue)
    ensures q.sender in m.queues ==> exists j :: 0 <= j < |m.queues.Keys| && Ascending(m.queues.Keys)[j] == q.sender
    ensures ShownQueue(m, q) ==> q.sender in m.queues
  {
    if q.sender in m.queues {
      assert q.sender in Ascending(m.queues.Keys);
    }
  }

  // ---------------------------------------------------------------- resuming

  /** The events a resumed replay applies. */
  function TailOf(events: seq<Envelope>, id: U64): seq<Envelope> {
    Retain(SortDeterministic(events), Above(id))
  }

  function SeededState(checkpoint: Checkpoint): Pool {
    FromCheckpoint(checkpoint.pendingHashes, checkpoint.senderQueues)
  }

  method SeedState(checkpoint: Checkpoint) returns (state: MempoolState)
    ensures fresh(state) && state.Model() == SeededState(checkpoint)
  {
    if checkpoint.senderQueues == [] {
      state := new MempoolState.FromPendingHashes(checkpoint.pendingHashes);
    } else {
      state := new MempoolState.FromCheckpoint(checkpoint.pendingHashes, checkpoint.senderQueues);
    }
  }

  /** Replays a sorted tail from a seeded state. */
  method ReplayTail(start: Checkpoint, tail: seq<Envelope>, stride: nat) returns (frames: seq<ReplayFrame>)
    requires stride > 0
    ensures frames == FramesUpTo(SeededState(start), tail, stride, |tail|)
  {
    hide SeededState, PoolView, PendingHashes, StateAfter;
    var state := SeedState(start);
    frames := [];
    FirstState(SeededState(start), tail);
    for idx := 0 to |tail|
      invariant fresh(state) && state.Model() == StateAfter(SeededState(start), tail, idx)
      invariant frames == FramesUpTo(SeededState(start), tail, stride, idx)
    {
      NextState(SeededState(start), tail, idx);
      state.ApplyEvent(tail[idx].payload);
      var shouldEmit := (idx + 1) % stride == 0 || idx + 1 == |tail|;
      if shouldEmit {
        var frame := EmitFrame(state, tail[idx]);
        frames := frames + [frame];
      }
    }
  }

  method ReplayFromCheckpoint(events: seq<Envelope>, checkpoint: Checkpoint, stride: nat)
    returns (frames: seq<ReplayFrame>)
    ensures var tail := TailOf(events, checkpoint.seqId);
      && frames == FramesUpTo(SeededState(checkpoint), tail, if stride == 0 then 1 else stride, |tail|)
      && ClosesEveryStride(frames, SeededState(checkpoint), tail, if stride == 0 then 1 else stride)
  {
    hide ClosesEveryStride, SeededState;
    var tail := TailOf(events, checkpoint.seqId);
    FramesClose(SeededState(checkpoint), tail, if stride == 0 then 1 else stride);
    if tail == [] {
      return [];
    }
    frames := ReplayTail(checkpoint, tail, if stride == 0 then 1 else stride);
  }

  lemma TailIsSuffix(sorted: seq<Envelope>, k: nat)
    requires 0 < k <= |sorted| && InOrder(sorted) && UniqueSequence(sorted)
    ensures Retain(sorted, Above(sorted[k - 1].seqId)) == sorted[k..]
  {
    var id := sorted[k - 1].seqId;
    forall j | 0 <= j < k ensures sorted[j].seqId <= id {
      if j < k - 1 {
        OrderedSequence(sorted, j, k - 1);
      }
    }
    forall j | k <= j < |sorted| ensures sorted[j].seqId > id {
      OrderedSequence(sorted, k - 1, j);
    }
    SuffixIsAbove(sorted, id, k, |sorted|);
    assert sorted[k..|sorted|] == sorted[k..];
  }

  lemma StateSplits(sorted: seq<Envelope>, k: nat, i: nat)
    requires k + i <= |sorted|
    ensures StateAfter(EMPTY_POOL, sorted, k + i) == Replay(StateAfter(EMPTY_POOL, sorted, k), Payloads(sorted[k..]), i)
  {
    hide Apply;
    var head, tail := Payloads(sorted[..k]), Payloads(sorted[k..]);
    assert Payloads(sorted) == head + tail;
    ReplayConcat(EMPTY_POOL, head, tail, i);
    ReplayPrefix(EMPTY_POOL, head, tail, k);
  }

  lemma SortedIsUnique(events: seq<Envelope>)
    requires UniqueSequence(events)
    ensures InOrder(SortDeterministic(events)) && UniqueSequence(SortDeterministic(events))
  {
    SortIsStable(events, OrderKey(0, 0, 0));
    var sorted := SortDeterministic(events);
    forall i, j | 0 <= i < j < |sorted| ensures sorted[i].seqId != sorted[j].seqId {
      if sorted[i].seqId == sorted[j].seqId {
        SortedPairIsInLog(events, i, j);
      }
    }
  }

  lemma SortedPairIsInLog(events: seq<Envelope>, i: nat, j: nat)
    requires i < j < |SortDeterministic(events)| && UniqueSequence(events)
    ensures SortDeterministic(events)[i].seqId != SortDeterministic(events)[j].seqId
  {
    var sorted := SortDeterministic(events);
    SortMembers(events);
    assert sorted[i] in events && sorted[j] in events;
    if sorted[i].seqId == sorted[j].seqId {
      assert sorted[i] == sorted[j];
      SortIsStable(events, KeyOf(sorted[i]));
      UniqueHasDistinctKeys(events);
      SingleWithKey(events, sorted[i]);
      TwiceWithKey(sorted, i, j);
    }
  }

  lemma UniqueHasDistinctKeys(events: seq<Envelope>)
    requires UniqueSequence(events)
    ensures DistinctKeys(events)
  {
  }

  lemma {:induction false} TwiceWithKey(s: seq<Envelope>, i: nat, j: nat)
    requires i < j < |s| && KeyOf(s[i]) == KeyOf(s[j])
    ensures |WithKey(s, KeyOf(s[i]))| >= 2
  {
    if i == 0 {
      WithKeyMembers(s[1..], s[j]);
      assert s[j] == s[1..][j - 1];
    } else {
      TwiceWithKey(s[1..], i - 1, j - 1);
    }
  }

  /** Two frames of the same event, with the same pending list and the same unlabelled queues. */
  predicate SameFrame(a: ReplayFrame, b: ReplayFrame) {
    a.(senderQueues := []) == b.(senderQueues := []) && Unlabelled(a.senderQueues) == Unlabelled(b.senderQueues)
  }

  /** The full replay and the resumed one emit the same frame after `j` events of the tail. */
  ghost predicate ResumedFrameIsSame(sorted: seq<Envelope>, k: nat, j: nat)
    requires 0 < k && 0 < j && k + j <= |sorted|
  {
    SameFrame(FrameAfter(EMPTY_POOL, sorted, k + j),
              FrameAfter(SeededState(CheckpointAfter(sorted, k)), sorted[k..], j))
  }

  lemma SameFrameIff(sorted: seq<Envelope>, k: nat, j: nat)
    requires 0 < k && 0 < j && k + j <= |sorted|
    ensures ResumedFrameIsSame(sorted, k, j) <==>
      SameShown(Replay(StateAfter(EMPTY_POOL, sorted, k), Payloads(sorted[k..]), j),
                Replay(SeededState(CheckpointAfter(sorted, k)), Payloads(sorted[k..]), j))
  {
    hide SameShown, PoolView, PendingHashes, FromCheckpoint, Apply, Replay, Unlabelled;
    StateSplits(sorted, k, j);
    var a := StateAfter(EMPTY_POOL, sorted, k + j);
    var b := StateAfter(SeededState(CheckpointAfter(sorted, k)), sorted[k..], j);
    if SameShown(a, b) {
      SameFrames(a, b);
    } else if ResumedFrameIsSame(sorted, k, j) {
      AscendingIsInjective(PendingHashes(a), PendingHashes(b));
      FramesShow(a, b);
    }
  }

  lemma AscendingIsInjective(a: set<nat>, b: set<nat>)
    requires Ascending(a) == Ascending(b)
    ensures a == b
  {
    forall x ensures x in a <==> x in b {
      assert x in a <==> x in Ascending(a);
      assert x in b <==> x in Ascending(b);
    }
  }

  /** The replay states at the checkpoint: both from the log, and showing the same. */
  lemma CheckpointStates(sorted: seq<Envelope>, k: nat)
    requires 0 < k <= |sorted| && OneSlotEach(Payloads(sorted))
    ensures var m, r := StateAfter(EMPTY_POOL, sorted, k), SeededState(CheckpointAfter(sorted, k));
      SameShown(m, r) && FromLog(m, Payloads(sorted)) && FromLog(r, Payloads(sorted))
    ensures forall j :: 0 <= j < |sorted| - k ==> Payloads(sorted[k..])[j] in Payloads(sorted)
  {
    hide OneSlotEach, FromLog, SameShown, PoolView, PendingHashes, FromCheckpoint, Apply, Replay;
    var log, tail := Payloads(sorted), Payloads(sorted[k..]);
    ReplayFromLog(log, k);
    CheckpointShowsSame(StateAfter(EMPTY_POOL, sorted, k), log);
    forall j | 0 <= j < |tail| ensures tail[j] in log {
      assert tail[j] == log[k + j];
    }
  }

  lemma ResumedFramesIff(sorted: seq<Envelope>, k: nat, i: nat)
    requires 0 < k && k + i <= |sorted| && OneSlotEach(Payloads(sorted))
    ensures (forall j :: 0 < j <= i ==> ResumedFrameIsSame(sorted, k, j)) <==>
      AlikeThroughout(StateAfter(EMPTY_POOL, sorted, k), SeededState(CheckpointAfter(sorted, k)),
                      Payloads(sorted[k..]), i)
  {
    hide OneSlotEach, FromLog, SameShown, FromCheckpoint, Apply, ResumedFrameIsSame, AlikeThroughout, StateAfter,
      CheckpointAfter, SeededState;
    var m, r, tail := StateAfter(EMPTY_POOL, sorted, k), SeededState(CheckpointAfter(sorted, k)), Payloads(sorted[k..]);
    CheckpointStates(sorted, k);
    ReplayShowsSameIff(m, r, tail, i, Payloads(sorted));
    forall j | 0 < j <= i
      ensures ResumedFrameIsSame(sorted, k, j) <==> SameShown(Replay(m, tail, j), Replay(r, tail, j))
    {
      SameFrameIff(sorted, k, j);
    }
  }

  /**
    Checkpoint resume, exactly. Take a log with unique sequence ids in which every hash has
    one sender and nonce, and any checkpoint of it. Resuming there applies exactly the later
    events, and shows after each of them the same pending hashes and the same queues, nonce
    by nonce and hash by hash, as the full replay, if and only if no reorg among them takes
    another branch in the resumed state.
   */
  lemma ResumeShowsTheSameIff(events: seq<Envelope>, k: nat, i: nat)
    requires UniqueSequence(events) && 0 < k && k + i <= |SortDeterministic(events)|
    requires OneSlotEach(Payloads(SortDeterministic(events)))
    ensures var sorted := SortDeterministic(events);
      var checkpoint := CheckpointAfter(sorted, k);
      var tail := TailOf(events, checkpoint.seqId);
      && tail == sorted[k..]
      && ((forall j :: 0 < j <= i ==>
             SameFrame(FrameAfter(EMPTY_POOL, sorted, k + j), FrameAfter(SeededState(checkpoint), tail, j))) <==>
          AlikeThroughout(StateAfter(EMPTY_POOL, sorted, k), SeededState(checkpoint), Payloads(tail), i))
  {
    hide OneSlotEach, SameFrame, FrameAfter, AlikeThroughout, SeededState, StateAfter;
    var sorted := SortDeterministic(events);
    SortedIsUnique(events);
    TailIsSuffix(sorted, k);
    ResumedFramesIff(sorted, k, i);
    assert forall j :: 0 < j <= i ==> (ResumedFrameIsSame(sorted, k, j) <==>
      SameFrame(FrameAfter(EMPTY_POOL, sorted, k + j),
                FrameAfter(SeededState(CheckpointAfter(sorted, k)), sorted[k..], j)));
  }

  /** In particular, a tail without reorgs is always shown as in the full replay. */
  lemma ResumeShowsTheSame(events: seq<Envelope>, k: nat, i: nat)
    requires UniqueSequence(events) && 0 < k && 0 < i && k + i <= |SortDeterministic(events)|
    requires OneSlotEach(Payloads(SortDeterministic(events)))
    requires forall j :: k <= j < |SortDeterministic(events)| ==> !SortDeterministic(events)[j].payload.TxReorged?
    ensures var sorted := SortDeterministic(events);
      var checkpoint := CheckpointAfter(sorted, k);
      var tail := TailOf(events, checkpoint.seqId);
      && tail == sorted[k..]
      && SameFrame(FrameAfter(EMPTY_POOL, sorted, k + i), FrameAfter(SeededState(checkpoint), tail, i))
  {
    hide OneSlotEach, SameFrame, FrameAfter, SeededState, StateAfter, Apply;
    var sorted := SortDeterministic(events);
    ResumeShowsTheSameIff(events, k, i);
    assert forall j :: 0 <= j < i ==> !Payloads(sorted[k..])[j].TxReorged?;
  }

  /** A seeded transaction is pending; a checkpoint remembers no confirmation. */
  lemma NothingConfirmedAtCheckpoint(m: Pool, h: TxHash, block: BlockHash)
    ensures !Reopens(FromCheckpoint(Ascending(PendingHashes(m)), PoolView(m)), h, block)
  {
    hide PoolView;
    var hashes, view := Ascending(PendingHashes(m)), PoolView(m);
    SeedPendingIs(hashes, |hashes|, h);
    SeedQueuesPending(Mempool.FromPendingHashes(hashes), view, |view|, h);
  }

  lemma {:induction false} SeedQueuePending(r: Pool, sender: Address, queued: seq<Position>, i: nat, h: TxHash)
    requires i <= |queued| && (h in r.txs ==> r.txs[h].status.Pending?)
    ensures h in SeedQueue(r, sender, queued, i).txs ==> SeedQueue(r, sender, queued, i).txs[h].status.Pending?
  {
    if i > 0 {
      SeedQueuePending(r, sender, queued, i - 1, h);
    }
  }

  lemma {:induction false} SeedQueuesPending(r: Pool, view: seq<QueueView>, k: nat, h: TxHash)
    requires k <= |view| && (h in r.txs ==> r.txs[h].status.Pending?)
    ensures h in SeedQueues(r, view, k).txs ==> SeedQueues(r, view, k).txs[h].status.Pending?
  {
    hide SeedQueue;
    if k > 0 {
      SeedQueuesPending(r, view, k - 1, h);
      var v := view[k - 1];
      SeedQueuePending(SeedQueues(r, view, k - 1), v.sender, v.queued, |v.queued|, h);
    }
  }

  /** A reorg right after the checkpoint is missed exactly when it reopens something. */
  lemma ReorgOfEarlierBlock(sorted: seq<Envelope>, k: nat)
    requires 0 < k < |sorted| && OneSlotEach(Payloads(sorted)) && sorted[k].payload.TxReorged?
    ensures ResumedFrameIsSame(sorted, k, 1) <==>
      !Reopens(StateAfter(EMPTY_POOL, sorted, k), sorted[k].payload.hash, sorted[k].payload.oldBlockHash)
  {
    hide OneSlotEach, ResumedFrameIsSame, FromCheckpoint, Apply, PoolView, PendingHashes;
    var m, r, tail := StateAfter(EMPTY_POOL, sorted, k), SeededState(CheckpointAfter(sorted, k)), Payloads(sorted[k..]);
    ResumedFramesIff(sorted, k, 1);
    NothingConfirmedAtCheckpoint(m, tail[0].hash, tail[0].oldBlockHash);
    assert Replay(m, tail, 0) == m && Replay(r, tail, 0) == r;
    assert AlikeThroughout(m, r, tail, 1) <==> Alike(m, r, tail[0]);
  }
}
