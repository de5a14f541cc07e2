/**
  Reorgs in the tail of a resumed replay, on the log alone. A transaction that was queued at
  the checkpoint leaves a stale entry behind when the tail ends its spell, and a reorg can
  only put it back while that entry is there.
 */
module ResumeReturns {
  import opened Prelude
  import opened Ordered
  import opened EventLog
  import opened Mempool
  import opened Lifecycle
  import opened ReplayFrames
  import opened Resume
  import opened CheckpointResume
  import opened ResumeLog
  import opened ResumeFrames

  // ---------------------------------------------------------------- one event and a slot of an unplaced hash

  /** The event puts another hash into the slot. */
  ghost predicate TakesSlot(p: Payload, h: TxHash, s: Address, n: U64) {
    exists g :: g != h && Places(p, g, s, n)
  }

  /** An entry of a hash whose slot the state does not know, in a slot it knows of no hash. */
  ghost predicate Stray(r: Pool, h: TxHash, s: Address, n: U64) {
    SlotHas(r, s, n, h) && !KnowsSlot(r, h) && forall g :: !SlotIs(r, g, s, n)
  }

  /** Exactly these events leave such an entry in place. */
  lemma EntryStaysIff(r: Pool, p: Payload, h: TxHash, s: Address, n: U64)
    requires Stray(r, h, s, n) && !PlacesHash(p, h)
    ensures SlotHas(Apply(r, p), s, n, h) <==>
      !TakesSlot(p, h, s, n) && (Relabels(r, p) == Some(s) ==> IsPending(Apply(r, p).txs, h))
  {
    hide Recompute, ApplySettled;
    match p
    case TxDecoded(tx) =>
      assert TakesSlot(p, h, s, n) <==> Places(p, tx.hash, s, n);
      EnsuredEntry(AfterDisplacing(r, tx), tx.hash, tx.sender, tx.nonce, h, s, n);
    case TxReady(g, s0, n0) =>
      assert TakesSlot(p, h, s, n) <==> Places(p, g, s, n);
      EnsuredEntry(r, g, s0, n0, h, s, n);
    case TxBlocked(g, s0, n0, _) =>
      assert TakesSlot(p, h, s, n) <==> Places(p, g, s, n);
      EnsuredEntry(r, g, s0, n0, h, s, n);
    case TxDropped(g, reason) => SettledEntry(r, g, Dropped(reason), h, s, n);
    case TxConfirmedProvisional(g, number, block) => SettledEntry(r, g, ConfirmedProvisional(number, block), h, s, n);
    case TxConfirmedFinal(g, number, block) => SettledEntry(r, g, ConfirmedFinal(number, block), h, s, n);
    case TxReplaced(g, newHash) =>
      if g in r.txs {
        SettledEntry(r, g, ReplacedBy(newHash), h, s, n);
      }
    case TxReorged(g, block, _) =>
      if Reopens(r, g, block) && KnowsSlot(r, g) {
        var s0, n0 := r.txs[g].sender.value, r.txs[g].nonce.value;
        assert !SlotIs(r, g, s, n);
        EnsuredEntry(Resume.Reopened(r, g), g, s0, n0, h, s, n);
      }
    case _ =>
  }

  lemma RecomputedEntry(m: Pool, s0: Address, h: TxHash, s: Address, n: U64)
    requires SlotHas(m, s, n, h)
    ensures SlotHas(Recompute(m, s0), s, n, h) <==> (s == s0 ==> IsPending(m.txs, h))
    ensures IsPending(Recompute(m, s0).txs, h) <==> IsPending(m.txs, h)
  {
    hide Relabel;
    if s0 in m.queues {
      RelabelKeeps(m.txs, m.queues[s0]);
      var kept := KeepLive(m.txs, m.queues[s0]);
      assert s == s0 ==> (n in kept <==> IsPending(m.txs, h));
    }
  }

  lemma EnsuredEntry(m: Pool, g: TxHash, s0: Address, n0: U64, h: TxHash, s: Address, n: U64)
    requires SlotHas(m, s, n, h) && g != h
    ensures var m' := Recompute(Ensure(m, g, s0, n0), s0);
      SlotHas(m', s, n, h) <==> !(s == s0 && n == n0) && (s == s0 ==> IsPending(m'.txs, h))
  {
    hide Recompute;
    var placed := Ensure(m, g, s0, n0);
    if s == s0 && n == n0 {
      assert !SlotHas(placed, s, n, h);
      RecomputeKeepsSlot(placed, s0, h);
    } else {
      RecomputedEntry(placed, s0, h, s, n);
    }
  }

  lemma SettledEntry(m: Pool, g: TxHash, status: Status, h: TxHash, s: Address, n: U64)
    requires SlotHas(m, s, n, h) && !KnowsSlot(m, h)
    ensures var m' := ApplySettled(m, g, status);
      SlotHas(m', s, n, h) <==> (KnowsSlot(m, g) && m.txs[g].sender == Some(s) ==> IsPending(m'.txs, h))
  {
    hide Recompute;
    if KnowsSlot(m, g) {
      var settled, s0, n0 := m.(txs := Settle(m.txs, g, status)), m.txs[g].sender.value, m.txs[g].nonce.value;
      RemovedEntry(settled, g, s0, n0, h, s, n);
      RecomputedEntry(RemoveEntry(settled, g, s0, n0), s0, h, s, n);
    }
  }

  lemma RemovedEntry(m: Pool, g: TxHash, s0: Address, n0: U64, h: TxHash, s: Address, n: U64)
    requires SlotHas(m, s, n, h) && g != h
    ensures SlotHas(RemoveEntry(m, g, s0, n0), s, n, h)
  {
    if s == s0 {
      var q := m.queues[s0];
      var q' := if n0 in q && q[n0] == g then q - {n0} else q;
      assert n in q';
    }
  }

  /** The hash stands in no queue, and its slot is not known. */
  ghost predicate Unseated(r: Pool, h: TxHash) {
    !KnowsSlot(r, h) && forall s, n :: !SlotHas(r, s, n, h)
  }

  lemma UnseatedStays(r: Pool, p: Payload, h: TxHash)
    requires Unseated(r, h) && !PlacesHash(p, h)
    ensures Unseated(Apply(r, p), h)
  {
    hide Apply;
    SlotAfter(r, p, h);
    forall s, n ensures !SlotHas(Apply(r, p), s, n, h) {
      assert Places(p, h, s, n) ==> PlacesHash(p, h);
      if SlotHas(Apply(r, p), s, n, h) {
        QueueAfter(r, p, h, s, n);
      }
    }
  }

  /** An event that does not leave it in place removes the hash from the queues. */
  lemma EntryGoes(r: Pool, p: Payload, log: seq<Payload>, h: TxHash, s: Address, n: U64)
    requires Stray(r, h, s, n) && !PlacesHash(p, h) && FromLog(r, log) && OneSlotEach(log)
    ensures SlotHas(Apply(r, p), s, n, h) || Unseated(Apply(r, p), h)
  {
    hide Apply, Placed;
    SlotAfter(r, p, h);
    forall s', n' | SlotHas(Apply(r, p), s', n', h) ensures s' == s && n' == n {
      QueueAfter(r, p, h, s', n');
      assert Places(p, h, s', n') ==> PlacesHash(p, h);
      assert Placed(log, h, s, n) && Placed(log, h, s', n');
    }
  }

  lemma StrayStays(r: Pool, p: Payload, h: TxHash, s: Address, n: U64)
    requires Stray(r, h, s, n) && !PlacesHash(p, h) && !TakesSlot(p, h, s, n) && SlotHas(Apply(r, p), s, n, h)
    ensures Stray(Apply(r, p), h, s, n)
  {
    hide Apply, SlotHas;
    SlotAfter(r, p, h);
    forall g ensures !SlotIs(Apply(r, p), g, s, n) {
      SlotAfter(r, p, g);
      assert !SlotIs(r, g, s, n);
    }
  }

  // ---------------------------------------------------------------- both replays side by side

  /** The resumed state has a stray entry where the full state knows the slot, and both agree on the status. */
  ghost predicate Seated(m: Pool, r: Pool, h: TxHash, s: Address, n: U64) {
    Stray(r, h, s, n) && SlotIs(m, h, s, n) && h in r.txs && m.txs[h].status == r.txs[h].status
  }

  lemma UndisplacedStatus(m: Pool, p: Payload, log: seq<Payload>, h: TxHash, s: Address, n: U64)
    requires FromLog(m, log) && OneSlotEach(log) && Placed(log, h, s, n) && h in m.txs
    requires !PlacesHash(p, h) && !TakesSlot(p, h, s, n)
    ensures h in Apply(m, p).txs && Apply(m, p).txs[h].status == NextStatus(p, h, m.txs[h].status, false)
  {
    hide Apply, Placed;
    StatusAfter(m, p, h);
    assert p.TxDecoded? ==> Places(p, p.tx.hash, p.tx.sender, p.tx.nonce);
  }

  /** An event that leaves the entry in place keeps the hash seated; any other unseats it. */
  lemma SeatedStep(m: Pool, r: Pool, p: Payload, log: seq<Payload>, h: TxHash, s: Address, n: U64)
    requires Seated(m, r, h, s, n) && FromLog(m, log) && FromLog(r, log) && OneSlotEach(log) && !PlacesHash(p, h)
    ensures h in Apply(r, p).txs
    ensures var gone := TakesSlot(p, h, s, n) || (Relabels(r, p) == Some(s) && !IsPending(r.txs, h));
      if gone then Unseated(Apply(r, p), h) else Seated(Apply(m, p), Apply(r, p), h, s, n)
  {
    hide Apply, Placed, FromLog, OneSlotEach, TakesSlot, Stray;
    StatusAfter(r, p, h);
    StrayIsPlaced(r, log, h, s, n);
    EntryStaysIff(r, p, h, s, n);
    if TakesSlot(p, h, s, n) {
      EntryGoes(r, p, log, h, s, n);
    } else {
      UndisplacedStatus(m, p, log, h, s, n);
      UndisplacedStatus(r, p, log, h, s, n);
      SlotAfter(m, p, h);
      if Relabels(r, p) == Some(s) {
        RelabelsNotItself(r, p, h, s, n);
      }
      if SlotHas(Apply(r, p), s, n, h) {
        StrayStays(r, p, h, s, n);
      } else {
        EntryGoes(r, p, log, h, s, n);
      }
    }
  }

  lemma StrayIsPlaced(r: Pool, log: seq<Payload>, h: TxHash, s: Address, n: U64)
    requires Stray(r, h, s, n) && FromLog(r, log)
    ensures Placed(log, h, s, n)
  {
    hide Placed;
  }

  /** An event that relabels the queue is not about the stray hash itself. */
  lemma RelabelsNotItself(r: Pool, p: Payload, h: TxHash, s: Address, n: U64)
    requires Stray(r, h, s, n) && !PlacesHash(p, h) && Relabels(r, p) == Some(s) && h in r.txs
    ensures NextStatus(p, h, r.txs[h].status, false) == r.txs[h].status
  {
  }

  // ---------------------------------------------------------------- the same on the log

  /** A reorg of the hash that undoes the confirmation the log left it with. */
  ghost predicate Reopening(log: seq<Payload>, i: nat, h: TxHash)
    requires i < |log|
  {
    log[i].TxReorged? && log[i].hash == h && ConfirmedBy(log, i, h, log[i].oldBlockHash)
  }

  /** One of the events `k` to `i` ends the spell of the hash, and none after it reopens it. */
  ghost predicate Over(log: seq<Payload>, k: nat, i: nat, h: TxHash)
    requires k <= i <= |log|
  {
    exists x :: k <= x < i && Ends(log[x]) == Some(h) && forall y :: x < y < i ==> !Reopening(log, y, h)
  }

  lemma OverStep(log: seq<Payload>, k: nat, i: nat, h: TxHash)
    requires k <= i < |log|
    ensures Over(log, k, i + 1, h) <==> Ends(log[i]) == Some(h) || (Over(log, k, i, h) && !Reopening(log, i, h))
  {
    hide Reopening;
    if Over(log, k, i, h) && !Reopening(log, i, h) {
      var x :| k <= x < i && Ends(log[x]) == Some(h) && forall y :: x < y < i ==> !Reopening(log, y, h);
      assert forall y :: x < y < i + 1 ==> !Reopening(log, y, h);
    }
    if Over(log, k, i + 1, h) && Ends(log[i]) != Some(h) {
      var x :| k <= x < i + 1 && Ends(log[x]) == Some(h) && forall y :: x < y < i + 1 ==> !Reopening(log, y, h);
      assert x < i && !Reopening(log, i, h);
    }
  }

  /** The event puts the hash into a slot of the sender. */
  predicate PlacesFor(p: Payload, h: TxHash, s: Address) {
    match p
    case TxDecoded(tx) => tx.hash == h && tx.sender == s
    case TxReady(g, s', _) => g == h && s' == s
    case TxBlocked(g, s', _, _) => g == h && s' == s
    case _ => false
  }

  ghost predicate PlacedFor(log: seq<Payload>, k: nat, i: nat, h: TxHash, s: Address)
    requires i <= |log|
  {
    exists x :: k <= x < i && PlacesFor(log[x], h, s)
  }

  /**
    Event `i` makes a replay resumed after `k` events relabel the queue of the sender: it
    places a transaction there, or ends or reopens one that the tail has placed there.
   */
  ghost predicate RelabelsByLog(log: seq<Payload>, k: nat, i: nat, s: Address)
    requires i < |log|
  {
    match log[i]
    case TxDecoded(tx) => tx.sender == s
    case TxReady(_, s', _) => s' == s
    case TxBlocked(_, s', _, _) => s' == s
    case TxReorged(g, block, _) => PlacedFor(log, k, i, g, s) && ConfirmedBy(log, i, g, block)
    case _ => Ends(log[i]).Some? && PlacedFor(log, k, i, Ends(log[i]).value, s)
  }

  /** Event `i` unseats the hash: it takes its slot, or relabels its queue while its spell is over. */
  ghost predicate Unseats(log: seq<Payload>, k: nat, i: nat, h: TxHash, s: Address, n: U64)
    requires k <= i < |log|
  {
    TakesSlot(log[i], h, s, n) || (RelabelsByLog(log, k, i, s) && Over(log, k, i, h))
  }

  /** What a resumed replay starts from: what the full replay shows, without slots or confirmations. */
  ghost predicate Restored(log: seq<Payload>, k: nat, r: Pool)
    requires k <= |log|
  {
    && SameShown(Replay(EMPTY_POOL, log, k), r) && FromLog(r, log)
    && (forall h :: h in r.txs ==> r.txs[h] == TxEntry(None, None, Pending, None))
    && (forall s, n, h :: SlotHas(r, s, n, h) ==> h in r.txs)
  }

  lemma {:induction false} ReplayFrom(log: seq<Payload>, k: nat, i: nat)
    requires k + i <= |log|
    ensures Replay(EMPTY_POOL, log, k + i) == Replay(Replay(EMPTY_POOL, log, k), log[k..], i)
  {
    hide Apply;
    if i > 0 {
      ReplayFrom(log, k, i - 1);
      assert log[k..][i - 1] == log[k + i - 1];
    }
  }

  /** The full replay after `k + i` events and the resumed one after `i` of the tail. */
  ghost function Full(log: seq<Payload>, k: nat, i: nat): Pool
    requires k + i <= |log|
  {
    Replay(EMPTY_POOL, log, k + i)
  }

  ghost function Again(log: seq<Payload>, k: nat, r: Pool, i: nat): Pool
    requires k + i <= |log|
  {
    Replay(r, log[k..], i)
  }

  lemma NextOfBoth(log: seq<Payload>, k: nat, r: Pool, i: nat)
    requires k + i < |log|
    ensures Full(log, k, i + 1) == Apply(Full(log, k, i), log[k + i])
    ensures Again(log, k, r, i + 1) == Apply(Again(log, k, r, i), log[k + i])
  {
    hide Apply;
    assert log[k..][i] == log[k + i];
  }

  /** No reorg among the first `i` events of the tail tells the replays apart. */
  ghost predicate AlikeSoFar(log: seq<Payload>, k: nat, r: Pool, i: nat)
    requires k + i <= |log|
  {
    AlikeThroughout(Replay(EMPTY_POOL, log, k), r, log[k..], i)
  }

  lemma BothFromLog(log: seq<Payload>, k: nat, r: Pool, i: nat)
    requires k + i <= |log| && OneSlotEach(log) && Restored(log, k, r)
    ensures FromLog(Full(log, k, i), log) && FromLog(Again(log, k, r, i), log) && Tidy(Full(log, k, i))
    ensures AlikeSoFar(log, k, r, i) ==> SameShown(Full(log, k, i), Again(log, k, r, i))
  {
    hide OneSlotEach, FromLog, SameShown, Apply, Tidy, AlikeThroughout, Replay;
    ReplayIsTidy(log, k);
    ReplayIsTidy(log, k + i);
    ReplayFrom(log, k, i);
    var m, tail := Replay(EMPTY_POOL, log, k), log[k..];
    forall x | 0 <= x < |tail| ensures tail[x] in log {
      assert tail[x] == log[k + x];
    }
    ReplayShowsSameIff(m, r, tail, i, log);
  }

  // ---------------------------------------------------------------- relabelling, read off the log

  lemma PlacesForSome(p: Payload, log: seq<Payload>, h: TxHash, s: Address, n: U64)
    requires PlacesHash(p, h) && p in log && OneSlotEach(log) && Placed(log, h, s, n)
    ensures PlacesFor(p, h, s)
  {
    hide Placed;
    match p
    case TxDecoded(tx) => PlacedByEvent(log, p, h, tx.sender, tx.nonce);
    case TxReady(_, s', n') => PlacedByEvent(log, p, h, s', n');
    case TxBlocked(_, s', n', _) => PlacedByEvent(log, p, h, s', n');
  }

  lemma PlacedForIsWithin(log: seq<Payload>, k: nat, i: nat, h: TxHash)
    requires k + i <= |log|
    ensures PlacedWithin(log[k..], 0, i, h) <==> exists x :: k <= x < k + i && PlacesHash(log[x], h)
  {
    hide PlacesHash;
    var tail := log[k..];
    if PlacedWithin(tail, 0, i, h) {
      var x :| 0 <= x < i && PlacesHash(tail[x], h);
      assert tail[x] == log[k + x];
    }
    if x :| k <= x < k + i && PlacesHash(log[x], h) {
      assert tail[x - k] == log[x];
    }
  }

  lemma AgainKnowsIff(log: seq<Payload>, k: nat, r: Pool, i: nat, h: TxHash)
    requires k + i <= |log| && Restored(log, k, r)
    ensures KnowsSlot(Again(log, k, r, i), h) <==> PlacedWithin(log[k..], 0, i, h)
  {
    hide Apply, SameShown, FromLog, PlacedWithin;
    KnowsSlotIff(r, log[k..], i, h);
  }

  lemma KnownSenderIff(log: seq<Payload>, k: nat, r: Pool, i: nat, h: TxHash, s: Address)
    requires k + i <= |log| && OneSlotEach(log) && Restored(log, k, r)
    ensures var r' := Again(log, k, r, i);
      KnowsSlot(r', h) && r'.txs[h].sender == Some(s) <==> PlacedFor(log, k, k + i, h, s)
  {
    hide Apply, Restored, FromLog, OneSlotEach, Again, Placed, PlacesHash;
    var r' := Again(log, k, r, i);
    AgainKnowsIff(log, k, r, i, h);
    PlacedForIsWithin(log, k, i, h);
    BothFromLog(log, k, r, i);
    if KnowsSlot(r', h) {
      KnownIsPlaced(r', log, h);
      var x :| k <= x < k + i && PlacesHash(log[x], h);
      PlacesForSome(log[x], log, h, r'.txs[h].sender.value, r'.txs[h].nonce.value);
      if y :| k <= y < k + i && PlacesFor(log[y], h, s) {
        PlacesForIsPlacing(log[y], h, s);
        PlacesForSome(log[y], log, h, r'.txs[h].sender.value, r'.txs[h].nonce.value);
        OneSender(log[y], h, s, r'.txs[h].sender.value);
      }
    } else if y :| k <= y < k + i && PlacesFor(log[y], h, s) {
      PlacesForIsPlacing(log[y], h, s);
    }
  }

  lemma PlacesForIsPlacing(p: Payload, h: TxHash, s: Address)
    requires PlacesFor(p, h, s)
    ensures PlacesHash(p, h)
  {
  }

  lemma OneSender(p: Payload, h: TxHash, s: Address, s': Address)
    requires PlacesFor(p, h, s) && PlacesFor(p, h, s')
    ensures s == s'
  {
  }

  /** What the tail has placed is confirmed in the resumed state exactly when the log left it so. */
  lemma PlacedReopensIff(log: seq<Payload>, k: nat, r: Pool, i: nat, h: TxHash, block: BlockHash)
    requires k + i <= |log| && OneSlotEach(log) && Restored(log, k, r) && AlikeSoFar(log, k, r, i)
    requires PlacedWithin(log[k..], 0, i, h)
    ensures Reopens(Again(log, k, r, i), h, block) <==> ConfirmedBy(log, k + i, h, block)
    ensures SameFate(Full(log, k, i), Again(log, k, r, i), h)
  {
    hide Apply, FromLog, OneSlotEach, SameShown, AlikeThroughout, SameThroughout, Followed, ConfirmedBy, PlacedWithin,
      Replay;
    var m, tail := Replay(EMPTY_POOL, log, k), log[k..];
    ReplayIsTidy(log, k);
    ReplayFrom(log, k, i);
    forall x | 0 <= x < |tail| ensures tail[x] in log {
      assert tail[x] == log[k + x];
    }
    ReplayShowsSameIff(m, r, tail, i, log);
    PlacedFate(m, r, tail, i, log, h);
    FullReopensIff(log, k + i, h, block);
    assert Followed(Full(log, k, i), h) && Followed(Again(log, k, r, i), h);
    FollowedIsKnown(Full(log, k, i), h);
    FollowedIsKnown(Again(log, k, r, i), h);
  }

  lemma FollowedIsKnown(m: Pool, h: TxHash)
    requires Followed(m, h)
    ensures h in m.txs
  {
  }

  lemma RelabelsIff(log: seq<Payload>, k: nat, r: Pool, i: nat, s: Address)
    requires k + i < |log| && OneSlotEach(log) && Restored(log, k, r) && AlikeSoFar(log, k, r, i)
    ensures Relabels(Again(log, k, r, i), log[k + i]) == Some(s) <==> RelabelsByLog(log, k, k + i, s)
  {
    hide Apply, OneSlotEach, Restored, AlikeSoFar, Again, ConfirmedBy, Reopens, PlacedFor, PlacedWithin;
    var p := log[k + i];
    var g := if p.TxReorged? then p.hash else if Ends(p).Some? then Ends(p).value else 0;
    KnownSenderIff(log, k, r, i, g, s);
    if p.TxReorged? && PlacedFor(log, k, k + i, g, s) {
      AgainKnowsIff(log, k, r, i, g);
      PlacedReopensIff(log, k, r, i, g, p.oldBlockHash);
    }
  }

  // ---------------------------------------------------------------- a seat from before the checkpoint

  /** Some event of the tail up to position `i` unseats the hash. */
  ghost predicate SeatLost(log: seq<Payload>, k: nat, i: nat, h: TxHash, s: Address, n: U64)
    requires k <= i <= |log|
  {
    exists x :: k <= x < i && Unseats(log, k, x, h, s, n)
  }

  lemma AlikeEarlier(log: seq<Payload>, k: nat, r: Pool, i: nat)
    requires k + i < |log| && AlikeSoFar(log, k, r, i + 1)
    ensures AlikeSoFar(log, k, r, i)
  {
  }

  lemma UnplacedEarlier(log: seq<Payload>, k: nat, i: nat, h: TxHash)
    requires k + i < |log| && !PlacedWithin(log[k..], 0, i + 1, h)
    ensures !PlacedWithin(log[k..], 0, i, h) && !PlacesHash(log[k + i], h)
  {
    assert log[k..][i] == log[k + i];
  }

  lemma SeatedAtStart(log: seq<Payload>, k: nat, r: Pool, h: TxHash, s: Address, n: U64)
    requires k <= |log| && OneSlotEach(log) && Restored(log, k, r) && LiveAt(Full(log, k, 0), s, n, h)
    ensures Seated(Full(log, k, 0), Again(log, k, r, 0), h, s, n)
  {
    hide Apply, OneSlotEach, FromLog;
    ReplayIsTidy(log, k);
    assert Again(log, k, r, 0) == r;
    assert LiveAt(r, s, n, h) && SlotHas(Full(log, k, 0), s, n, h);
  }

  /** A spell is over after the event exactly as the log says. */
  lemma SpellStep(log: seq<Payload>, i: nat, m: Pool, r: Pool, h: TxHash, s: Address, n: U64, over: bool)
    requires i < |log| && OneSlotEach(log) && m == Replay(EMPTY_POOL, log, i) && FromLog(r, log)
    requires Seated(m, r, h, s, n) && !PlacesHash(log[i], h) && !TakesSlot(log[i], h, s, n)
    requires IsPending(r.txs, h) <==> !over
    ensures IsPending(Apply(r, log[i]).txs, h) <==> !(Ends(log[i]) == Some(h) || (over && !Reopening(log, i, h)))
  {
    hide Apply, OneSlotEach, FromLog, Replay, ConfirmedBy, TakesSlot, Stray, Placed;
    StrayIsPlaced(r, log, h, s, n);
    UndisplacedStatus(r, log[i], log, h, s, n);
    if log[i].TxReorged? {
      FullReopensIff(log, i, h, log[i].oldBlockHash);
    }
  }

  lemma {:induction false} SeatedAlong(log: seq<Payload>, k: nat, r: Pool, i: nat, h: TxHash, s: Address, n: U64)
    requires k + i <= |log| && OneSlotEach(log) && Restored(log, k, r) && AlikeSoFar(log, k, r, i)
    requires LiveAt(Full(log, k, 0), s, n, h) && !PlacedWithin(log[k..], 0, i, h)
    ensures if SeatLost(log, k, k + i, h, s, n) then Unseated(Again(log, k, r, i), h)
      else Seated(Full(log, k, i), Again(log, k, r, i), h, s, n) &&
           (IsPending(Again(log, k, r, i).txs, h) <==> !Over(log, k, k + i, h))
    decreases i
  {
    hide Apply, OneSlotEach, Restored, FromLog, AlikeSoFar, Again, Full, LiveAt, PlacedWithin, Unseats, Stray,
      Reopening, RelabelsByLog, SameShown, Tidy, TakesSlot;
    if i == 0 {
      SeatedAtStart(log, k, r, h, s, n);
      PendingAtStart(log, k, r, h, s, n);
    } else {
      AlikeEarlier(log, k, r, i - 1);
      UnplacedEarlier(log, k, i - 1, h);
      SeatedAlong(log, k, r, i - 1, h, s, n);
      NextOfBoth(log, k, r, i - 1);
      var m, r', p := Full(log, k, i - 1), Again(log, k, r, i - 1), log[k + i - 1];
      if SeatLost(log, k, k + i - 1, h, s, n) {
        UnseatedStays(r', p, h);
      } else {
        BothFromLog(log, k, r, i - 1);
        RelabelsIff(log, k, r, i - 1, s);
        SeatedStep(m, r', p, log, h, s, n);
        UnseatsIs(log, k, k + i - 1, h, s, n);
        if !Unseats(log, k, k + i - 1, h, s, n) {
          FullIs(log, k, i - 1);
          SpellStep(log, k + i - 1, m, r', h, s, n, Over(log, k, k + i - 1, h));
          OverStep(log, k, k + i - 1, h);
        }
      }
    }
  }

  lemma FullIs(log: seq<Payload>, k: nat, i: nat)
    requires k + i <= |log|
    ensures Full(log, k, i) == Replay(EMPTY_POOL, log, k + i)
  {
  }

  lemma UnseatsIs(log: seq<Payload>, k: nat, i: nat, h: TxHash, s: Address, n: U64)
    requires k <= i < |log|
    ensures Unseats(log, k, i, h, s, n) <==>
      TakesSlot(log[i], h, s, n) || (RelabelsByLog(log, k, i, s) && Over(log, k, i, h))
  {
  }

  lemma PendingAtStart(log: seq<Payload>, k: nat, r: Pool, h: TxHash, s: Address, n: U64)
    requires k <= |log| && Restored(log, k, r) && LiveAt(Full(log, k, 0), s, n, h)
    ensures IsPending(Again(log, k, r, 0).txs, h) && !Over(log, k, k, h)
  {
    hide Apply, FromLog;
  }

  // ---------------------------------------------------------------- every reorg of the tail

  lemma {:induction false} UnseatedAlong(log: seq<Payload>, k: nat, r: Pool, i: nat, h: TxHash)
    requires k + i <= |log| && Unseated(r, h) && !PlacedWithin(log[k..], 0, i, h)
    ensures Unseated(Again(log, k, r, i), h)
  {
    hide Apply, Unseated, PlacedWithin;
    if i > 0 {
      UnplacedEarlier(log, k, i - 1, h);
      UnseatedAlong(log, k, r, i - 1, h);
      NextOfBoth(log, k, r, i - 1);
      UnseatedStays(Again(log, k, r, i - 1), log[k + i - 1], h);
    }
  }

  lemma ReopensOnlyIf(r: Pool, p: Payload, h: TxHash, block: BlockHash)
    requires Reopens(Apply(r, p), h, block)
    ensures Confirms(p, h, block) || (Reopens(r, h, block) && !Unconfirms(p, h, block))
  {
    hide Apply;
    StatusAfter(r, p, h);
  }

  lemma UnseatedReopensStep(r: Pool, p: Payload, h: TxHash, block: BlockHash)
    requires Unseated(r, h)
    ensures Reopens(Apply(r, p), h, block) <==>
      Confirms(p, h, block) || (Reopens(r, h, block) && !Unconfirms(p, h, block))
  {
    hide Apply;
    StatusAfter(r, p, h);
    assert p.TxDecoded? ==> !SlotHas(r, p.tx.sender, p.tx.nonce, h);
  }

  /** The resumed replay has no confirmation that the full one has not. */
  lemma {:induction false} ReopensInFull(log: seq<Payload>, k: nat, r: Pool, i: nat, h: TxHash, block: BlockHash)
    requires k + i <= |log| && OneSlotEach(log) && Restored(log, k, r) && Reopens(Again(log, k, r, i), h, block)
    ensures ConfirmedBy(log, k + i, h, block)
  {
    hide Apply, OneSlotEach, FromLog, SameShown, ConfirmedBy, Confirms, Unconfirms;
    if i > 0 {
      NextOfBoth(log, k, r, i - 1);
      ReopensOnlyIf(Again(log, k, r, i - 1), log[k + i - 1], h, block);
      if Reopens(Again(log, k, r, i - 1), h, block) {
        ReopensInFull(log, k, r, i - 1, h, block);
      }
      ConfirmedStep(log, k + i - 1, h, block);
    }
  }

  /** A hash that stands in no queue is confirmed in the resumed replay exactly when the tail left it so. */
  lemma {:induction false} UnseatedReopensIff(log: seq<Payload>, k: nat, r: Pool, i: nat, h: TxHash, block: BlockHash)
    requires k + i <= |log| && Restored(log, k, r) && Unseated(r, h) && !PlacedWithin(log[k..], 0, i, h)
    ensures Reopens(Again(log, k, r, i), h, block) <==> ConfirmedBy(log[k..], i, h, block)
  {
    hide Apply, FromLog, SameShown, ConfirmedBy, Confirms, Unconfirms, Unseated, PlacedWithin;
    if i == 0 {
      NothingConfirmed(log[k..], h, block);
      assert Again(log, k, r, 0) == r;
    } else {
      UnplacedEarlier(log, k, i - 1, h);
      UnseatedAlong(log, k, r, i - 1, h);
      UnseatedReopensIff(log, k, r, i - 1, h, block);
      NextOfBoth(log, k, r, i - 1);
      UnseatedReopensStep(Again(log, k, r, i - 1), log[k + i - 1], h, block);
      ConfirmedStep(log[k..], i - 1, h, block);
      assert log[k..][i - 1] == log[k + i - 1];
    }
  }

  /**
    The checkpoint after `k` events shows the hash queued, and no event of the tail before
    position `i` takes its slot, or relabels its queue while its spell is over.
   */
  ghost predicate SeatKept(log: seq<Payload>, k: nat, i: nat, h: TxHash)
    requires k <= i <= |log|
  {
    exists s, n :: LiveAt(Replay(EMPTY_POOL, log, k), s, n, h) && !SeatLost(log, k, i, h, s, n)
  }

  /**
    Event `i` is met alike by both replays. Only a reorg that undoes a confirmation, of a
    hash the tail has not placed, asks for anything: a hash that was placed before the
    checkpoint must have kept its seat, any other must have been confirmed in the tail.
   */
  ghost predicate MetAlike(log: seq<Payload>, k: nat, i: nat)
    requires k <= i < |log|
  {
    log[i].TxReorged? ==>
      var h, block := log[i].hash, log[i].oldBlockHash;
      ConfirmedBy(log, i, h, block) && !PlacedWithin(log, k, i, h) ==>
        if PlacedWithin(log, 0, k, h) then SeatKept(log, k, i, h) else ConfirmedBy(log[k..], i - k, h, block)
  }

  lemma SeatedIsAlike(m: Pool, r: Pool, h: TxHash, s: Address, n: U64, block: BlockHash)
    requires Seated(m, r, h, s, n)
    ensures ReopensAlike(m, r, h, block)
  {
  }

  lemma UnseatedLandsNot(r: Pool, h: TxHash)
    requires Unseated(r, h)
    ensures !Lands(r, h)
  {
  }

  lemma PlacedIff(log: seq<Payload>, k: nat, h: TxHash)
    requires k <= |log| && OneSlotEach(log)
    ensures KnowsSlot(Full(log, k, 0), h) <==> PlacedWithin(log, 0, k, h)
  {
    hide Apply, OneSlotEach, PlacedWithin;
    KnowsSlotIff(EMPTY_POOL, log, k, h);
  }

  lemma PlacedSoFar(log: seq<Payload>, k: nat, i: nat, h: TxHash)
    requires k + i <= |log| && !PlacedWithin(log[k..], 0, i, h)
    ensures PlacedWithin(log, 0, k + i, h) <==> PlacedWithin(log, 0, k, h)
  {
    hide PlacesHash;
    PlacedForIsWithin(log, k, i, h);
  }

  lemma UnplacedAlikeIff(log: seq<Payload>, k: nat, r: Pool, i: nat)
    requires k + i < |log| && OneSlotEach(log) && Restored(log, k, r) && AlikeSoFar(log, k, r, i)
    requires log[k + i].TxReorged? && !PlacedWithin(log[k..], 0, i, log[k + i].hash)
    ensures Alike(Full(log, k, i), Again(log, k, r, i), log[k + i]) <==> MetAlike(log, k, k + i)
  {
    hide Apply, OneSlotEach, FromLog, SameShown, AlikeSoFar, Again, Full, PlacedWithin, ConfirmedBy, SeatLost, Seated,
      Unseated, ReopensAlike, Restored, LiveAt, Replay;
    var h, block := log[k + i].hash, log[k + i].oldBlockHash;
    PlacedForIsWithin(log, k, i, h);
    PlacedFromIs(log, k, k + i, h);
    if s, n :| LiveAt(Full(log, k, 0), s, n, h) {
      LivePlaced(log, k, h, s, n);
      SeatedAlong(log, k, r, i, h, s, n);
      SeatKeptIff(log, k, k + i, h, s, n);
      if SeatLost(log, k, k + i, h, s, n) {
        UnseatedPlacedIff(log, k, r, i, h, block);
      } else {
        SeatedIsAlike(Full(log, k, i), Again(log, k, r, i), h, s, n, block);
      }
    } else {
      NotLiveUnseated(log, k, r, h);
      NoSeat(log, k, k + i, h);
      UnseatedAlong(log, k, r, i, h);
      if PlacedWithin(log, 0, k, h) {
        UnseatedPlacedIff(log, k, r, i, h, block);
      } else {
        NeverPlacedIff(log, k, r, i, h, block);
      }
    }
  }

  lemma PlacedFromIs(log: seq<Payload>, k: nat, i: nat, h: TxHash)
    requires k <= i <= |log|
    ensures PlacedWithin(log, k, i, h) <==> exists x :: k <= x < i && PlacesHash(log[x], h)
  {
  }

  lemma LivePlaced(log: seq<Payload>, k: nat, h: TxHash, s: Address, n: U64)
    requires k <= |log| && OneSlotEach(log) && LiveAt(Full(log, k, 0), s, n, h)
    ensures PlacedWithin(log, 0, k, h)
  {
    hide Apply, OneSlotEach, FromLog, PlacedWithin;
    ReplayIsTidy(log, k);
    PlacedIff(log, k, h);
    assert SlotHas(Full(log, k, 0), s, n, h);
  }

  /** A hash has one seat at most. */
  lemma SeatKeptIff(log: seq<Payload>, k: nat, i: nat, h: TxHash, s: Address, n: U64)
    requires k <= i <= |log| && OneSlotEach(log) && LiveAt(Full(log, k, 0), s, n, h)
    ensures SeatKept(log, k, i, h) <==> !SeatLost(log, k, i, h, s, n)
  {
    hide Apply, OneSlotEach, FromLog, SeatLost, LiveAt, Placed, Replay;
    ReplayIsTidy(log, k);
    forall s', n' | LiveAt(Replay(EMPTY_POOL, log, k), s', n', h) ensures s' == s && n' == n {
      LiveIsPlaced(Full(log, k, 0), log, s, n, h);
      LiveIsPlaced(Full(log, k, 0), log, s', n', h);
      OneSlotInLog(log, h, s, n, s', n');
    }
  }

  lemma NoSeat(log: seq<Payload>, k: nat, i: nat, h: TxHash)
    requires k <= i <= |log| && forall s, n :: !LiveAt(Full(log, k, 0), s, n, h)
    ensures !SeatKept(log, k, i, h)
  {
    hide LiveAt;
    assert Full(log, k, 0) == Replay(EMPTY_POOL, log, k);
  }

  lemma NotLiveUnseated(log: seq<Payload>, k: nat, r: Pool, h: TxHash)
    requires k <= |log| && Restored(log, k, r) && forall s, n :: !LiveAt(Full(log, k, 0), s, n, h)
    ensures Unseated(r, h)
  {
    hide Apply, FromLog;
    forall s, n ensures !SlotHas(r, s, n, h) {
      assert !LiveAt(Full(log, k, 0), s, n, h);
    }
  }

  lemma UnseatedPlacedIff(log: seq<Payload>, k: nat, r: Pool, i: nat, h: TxHash, block: BlockHash)
    requires k + i <= |log| && OneSlotEach(log) && Restored(log, k, r) && Unseated(Again(log, k, r, i), h)
    requires PlacedWithin(log, 0, k, h)
    ensures ReopensAlike(Full(log, k, i), Again(log, k, r, i), h, block) <==> !ConfirmedBy(log, k + i, h, block)
  {
    hide Apply, OneSlotEach, FromLog, SameShown, Again, ConfirmedBy, Unseated, Lands, Reopens, Restored, PlacesHash;
    FullReopensIff(log, k + i, h, block);
    UnseatedLandsNot(Again(log, k, r, i), h);
    if ConfirmedBy(log, k + i, h, block) {
      FullLandsIff(log, k + i, h, block);
    } else if Reopens(Again(log, k, r, i), h, block) {
      ReopensInFull(log, k, r, i, h, block);
    }
  }

  lemma NeverPlacedIff(log: seq<Payload>, k: nat, r: Pool, i: nat, h: TxHash, block: BlockHash)
    requires k + i <= |log| && OneSlotEach(log) && Restored(log, k, r) && Unseated(r, h)
    requires !PlacedWithin(log, 0, k, h) && !PlacedWithin(log[k..], 0, i, h)
    ensures ReopensAlike(Full(log, k, i), Again(log, k, r, i), h, block) <==>
      (ConfirmedBy(log, k + i, h, block) ==> ConfirmedBy(log[k..], i, h, block))
  {
    hide Apply, OneSlotEach, FromLog, SameShown, Again, ConfirmedBy, Unseated, Lands, Reopens, Restored, PlacedWithin;
    FullReopensIff(log, k + i, h, block);
    UnseatedReopensIff(log, k, r, i, h, block);
    UnseatedAlong(log, k, r, i, h);
    UnseatedLandsNot(Again(log, k, r, i), h);
    PlacedSoFar(log, k, i, h);
    if ConfirmedBy(log, k + i, h, block) {
      FullLandsIff(log, k + i, h, block);
    } else if Reopens(Again(log, k, r, i), h, block) {
      ReopensInFull(log, k, r, i, h, block);
    }
  }

  lemma EventAlikeIff(log: seq<Payload>, k: nat, r: Pool, i: nat)
    requires k + i < |log| && OneSlotEach(log) && Restored(log, k, r) && AlikeSoFar(log, k, r, i)
    ensures Alike(Full(log, k, i), Again(log, k, r, i), log[k + i]) <==> MetAlike(log, k, k + i)
  {
    hide OneSlotEach, AlikeSoFar, Again, Full, PlacedWithin, ConfirmedBy, SeatKept, Restored, ReopensAlike, SameFate;
    var p := log[k + i];
    if p.TxReorged? {
      if PlacedWithin(log[k..], 0, i, p.hash) {
        PlacedReopensIff(log, k, r, i, p.hash, p.oldBlockHash);
        SameFateIsAlike(Full(log, k, i), Again(log, k, r, i), p);
        PlacedForIsWithin(log, k, i, p.hash);
        PlacedFromIs(log, k, k + i, p.hash);
      } else {
        UnplacedAlikeIff(log, k, r, i);
      }
    }
  }

  lemma {:induction false} MetAlikeThroughout(log: seq<Payload>, k: nat, r: Pool, i: nat)
    requires k + i <= |log| && OneSlotEach(log) && Restored(log, k, r)
    ensures AlikeSoFar(log, k, r, i) <==> forall j :: k <= j < k + i ==> MetAlike(log, k, j)
  {
    hide OneSlotEach, Restored, MetAlike, Alike, Full, Again, AlikeSoFar;
    if i > 0 {
      MetAlikeThroughout(log, k, r, i - 1);
      AlikeSoFarStep(log, k, r, i - 1);
      if AlikeSoFar(log, k, r, i - 1) {
        EventAlikeIff(log, k, r, i - 1);
      }
    } else {
      NothingTellsApart(log, k, r);
    }
  }

  lemma NothingTellsApart(log: seq<Payload>, k: nat, r: Pool)
    requires k <= |log|
    ensures AlikeSoFar(log, k, r, 0)
  {
  }

  lemma AlikeSoFarStep(log: seq<Payload>, k: nat, r: Pool, i: nat)
    requires k + i < |log|
    ensures AlikeSoFar(log, k, r, i + 1) <==>
      AlikeSoFar(log, k, r, i) && Alike(Full(log, k, i), Again(log, k, r, i), log[k + i])
  {
    hide Alike, Replay;
    ReplayFrom(log, k, i);
    assert log[k..][i] == log[k + i];
  }

  lemma CheckpointRestores(sorted: seq<Envelope>, k: nat)
    requires 0 < k <= |sorted| && OneSlotEach(Payloads(sorted))
    ensures Restored(Payloads(sorted), k, SeededState(CheckpointAfter(sorted, k)))
  {
    hide OneSlotEach, PoolView, FromCheckpoint, SeedPending, SameShown, FromLog, Apply;
    var log, m := Payloads(sorted), StateAfter(EMPTY_POOL, sorted, k);
    ReplayIsTidy(log, k);
    CheckpointShowsSame(m, log);
    var r, hashes := SeededState(CheckpointAfter(sorted, k)), Ascending(PendingHashes(m));
    forall h | h in r.txs ensures r.txs[h] == TxEntry(None, None, Pending, None) {
      SeedPendingIs(hashes, |hashes|, h);
    }
    forall s, n, h | SlotHas(r, s, n, h) ensures h in r.txs {
      assert IsPending(m.txs, h);
      assert h in hashes;
      SeedPendingIs(hashes, |hashes|, h);
    }
  }

  /**
    Checkpoint resume, exactly, on the log and the checkpoint alone. Take a log in which
    every hash has one sender and nonce, and any checkpoint of it: the frames of the resumed
    replay are those of the full replay throughout if and only if every reorg of the tail
    that undoes a confirmation is of a hash the tail has placed before, or that has kept its
    seat from the checkpoint, or that was confirmed in the tail and never placed at all.
   */
  lemma TailReorgsIff(sorted: seq<Envelope>, k: nat, i: nat)
    requires 0 < k && k + i <= |sorted| && OneSlotEach(Payloads(sorted))
    ensures (forall j :: 0 < j <= i ==> ResumedFrameIsSame(sorted, k, j)) <==>
      forall j :: k <= j < k + i ==> MetAlike(Payloads(sorted), k, j)
  {
    hide OneSlotEach, ResumedFrameIsSame, AlikeThroughout, MetAlike, Restored, CheckpointAfter, SeededState;
    var log := Payloads(sorted);
    ResumedFramesIff(sorted, k, i);
    CheckpointRestores(sorted, k);
    assert Payloads(sorted[k..]) == log[k..];
    MetAlikeThroughout(log, k, SeededState(CheckpointAfter(sorted, k)), i);
  }

  // ---------------------------------------------------------------- one confirmation in the tail

  /** Event `x` confirms the hash, and is the only one of the events `k` to `i` that is about it. */
  ghost predicate OnlyConfirmedAt(log: seq<Payload>, k: nat, i: nat, h: TxHash, x: nat)
    requires k <= x < i <= |log|
  {
    && (log[x].TxConfirmedProvisional? || log[x].TxConfirmedFinal?) && log[x].hash == h
    && forall y :: k <= y < i && y != x ==> !Concerns(log[y], h)
  }

  lemma OverSince(log: seq<Payload>, k: nat, i: nat, h: TxHash, x: nat, y: nat)
    requires k <= x < i <= |log| && OnlyConfirmedAt(log, k, i, h, x) && k <= y <= i
    ensures Over(log, k, y, h) <==> x < y
  {
    assert forall z :: k <= z < i && z != x ==> Ends(log[z]) != Some(h);
    if x < y {
      assert forall z :: x < z < y ==> !Reopening(log, z, h);
    }
  }

  lemma OnlyThatBlock(log: seq<Payload>, k: nat, i: nat, h: TxHash, x: nat, block: BlockHash)
    requires k <= x < i <= |log| && OnlyConfirmedAt(log, k, i, h, x)
    ensures ConfirmedBy(log, i, h, block) <==> block == log[x].blockHash
    ensures !PlacedWithin(log, k, i, h)
  {
    if block == log[x].blockHash {
      assert Confirms(log[x], h, block);
    } else {
      assert Unconfirms(log[x], h, block);
    }
  }

  /**
    A transaction queued at the checkpoint, confirmed in the tail and then reorged: both
    replays meet the reorg alike exactly when it is of another block, or nothing has taken
    the slot since the checkpoint and nothing has relabelled its queue since the confirmation.
   */
  lemma ConfirmedThenReorgedIff(log: seq<Payload>, k: nat, i: nat, h: TxHash, s: Address, n: U64, x: nat)
    requires k <= x < i < |log| && OneSlotEach(log) && LiveAt(Replay(EMPTY_POOL, log, k), s, n, h)
    requires OnlyConfirmedAt(log, k, i, h, x) && log[i].TxReorged? && log[i].hash == h
    ensures MetAlike(log, k, i) <==>
      || log[i].oldBlockHash != log[x].blockHash
      || (&& (forall y :: k <= y < i ==> !TakesSlot(log[y], h, s, n))
          && (forall y :: x < y < i ==> !RelabelsByLog(log, k, y, s)))
  {
    hide OneSlotEach, LiveAt, Replay, OnlyConfirmedAt, ConfirmedBy, PlacedWithin, Over, TakesSlot, RelabelsByLog;
    OnlyThatBlock(log, k, i, h, x, log[i].oldBlockHash);
    LivePlaced(log, k, h, s, n);
    SeatKeptIff(log, k, i, h, s, n);
    forall y | k <= y < i
      ensures Unseats(log, k, y, h, s, n) <==> TakesSlot(log[y], h, s, n) || (RelabelsByLog(log, k, y, s) && x < y)
    {
      OverSince(log, k, i, h, x, y);
    }
  }
}
