/**
  Whole frames of a resumed replay, labels included, on any log: exactly when they are
  those of the full replay.
 */
module ResumeFrames {
  import opened Prelude
  import opened Ordered
  import opened NonceGap
  import opened SchedulerModel
  import opened EventLog
  import opened Mempool
  import opened ReplayFrames
  import opened Resume
  import opened CheckpointResume
  import opened ResumeLog
  import opened ResumeLabels

  // ---------------------------------------------------------------- the labels one event stores

  /** The sender whose queue an event has relabelled, if any. */
  function Relabels(m: Pool, p: Payload): Option<Address> {
    match p
    case TxDecoded(tx) => Some(tx.sender)
    case TxReady(_, s, _) => Some(s)
    case TxBlocked(_, s, _, _) => Some(s)
    case TxReorged(h, block, _) => if Reopens(m, h, block) && KnowsSlot(m, h) then m.txs[h].sender else None
    case _ => if Ends(p).Some? && KnowsSlot(m, Ends(p).value) then m.txs[Ends(p).value].sender else None
  }

  /** The label an event itself reports of a hash. */
  function Reported(p: Payload, h: TxHash): Option<QueueState> {
    match p
    case TxReady(g, _, _) => if g == h then Some(Ready) else None
    case TxBlocked(g, _, _, expected) => if g == h && expected.Some? then Some(Blocked(expected.value)) else None
    case _ => None
  }

  /** What the state after an event stores of a live entry. */
  ghost predicate StoresFor(m: Pool, m': Pool, p: Payload, s: Address, n: U64, h: TxHash)
    requires LiveAt(m', s, n, h)
  {
    if Relabels(m, p) == Some(s) then
      var ruled := Label(LiveNonces(m'.txs, m'.queues[s]), n);
      m'.txs[h].queueState == Some(if Reported(p, h).Some? then Reported(p, h).value else ruled)
    else h in m.txs && m'.txs[h].queueState == m.txs[h].queueState
  }

  lemma OnlyOneSlot(m: Pool, log: seq<Payload>, s: Address, n: U64, s': Address, n': U64)
    requires FromLog(m, log) && OneSlotEach(log) && s in m.queues && n in m.queues[s]
    requires s' in m.queues && n' in m.queues[s'] && m.queues[s][n] == m.queues[s'][n']
    ensures s == s' && n == n'
  {
    hide Placed;
  }

  /** A recomputation relabels its queue and no other. */
  lemma RecomputeStores(m: Pool, s0: Address, log: seq<Payload>, s: Address, n: U64, h: TxHash)
    requires FromLog(m, log) && OneSlotEach(log) && LiveAt(Recompute(m, s0), s, n, h)
    ensures var m' := Recompute(m, s0);
      && LiveAt(m, s, n, h)
      && m'.txs[h].queueState ==
         if s == s0 then Some(Label(LiveNonces(m'.txs, m'.queues[s]), n)) else m.txs[h].queueState
  {
    hide FromLog, OneSlotEach, Relabel, Label;
    if s0 in m.queues {
      RelabelKeeps(m.txs, m.queues[s0]);
      RecomputeLiveAt(m, s0, s, n, h);
      if s == s0 {
        LogQueueIsInjective(m, s, log);
        RecomputedLabel(m, s, n);
      } else {
        forall k | k in m.queues[s0] ensures m.queues[s0][k] != h {
          if m.queues[s0][k] == h {
            OnlyOneSlot(m, log, s0, k, s, n);
          }
        }
      }
    }
  }

  lemma DecodedStoresFor(m: Pool, tx: Tx, log: seq<Payload>, s: Address, n: U64, h: TxHash)
    requires FromLog(m, log) && OneSlotEach(log) && Placed(log, tx.hash, tx.sender, tx.nonce)
    requires LiveAt(ApplyDecoded(m, tx), s, n, h)
    ensures StoresFor(m, ApplyDecoded(m, tx), TxDecoded(tx), s, n, h)
  {
    hide FromLog, OneSlotEach, Placed, Recompute, Label, LiveNonces;
    var displaced := AfterDisplacing(m, tx);
    var placed := Ensure(displaced, tx.hash, tx.sender, tx.nonce);
    DisplacingShows(m, tx, log);
    EnsureShows(displaced, tx.hash, tx.sender, tx.nonce, log);
    DecodedIsRecomputed(m, tx);
    RecomputeStores(placed, tx.sender, log, s, n, h);
    if s != tx.sender {
      NotTheDecoded(m, tx, log, s, n, h);
    }
  }

  lemma NotTheDecoded(m: Pool, tx: Tx, log: seq<Payload>, s: Address, n: U64, h: TxHash)
    requires var placed := Ensure(AfterDisplacing(m, tx), tx.hash, tx.sender, tx.nonce);
      FromLog(placed, log) && OneSlotEach(log) && LiveAt(placed, s, n, h) && s != tx.sender
    ensures var placed := Ensure(AfterDisplacing(m, tx), tx.hash, tx.sender, tx.nonce);
      h in m.txs && placed.txs[h].queueState == m.txs[h].queueState
  {
    hide FromLog, OneSlotEach;
    var placed := Ensure(AfterDisplacing(m, tx), tx.hash, tx.sender, tx.nonce);
    if h == tx.hash {
      OnlyOneSlot(placed, log, s, n, tx.sender, tx.nonce);
    }
  }

  lemma QueueStateStoresFor(m: Pool, p: Payload, log: seq<Payload>, s: Address, n: U64, h: TxHash)
    requires FromLog(m, log) && OneSlotEach(log) && (p.TxReady? || p.TxBlocked?)
    requires Placed(log, p.hash, p.sender, p.nonce) && LiveAt(Apply(m, p), s, n, h)
    ensures StoresFor(m, Apply(m, p), p, s, n, h)
  {
    hide FromLog, OneSlotEach, Placed, Recompute, Label;
    var placed := Ensure(m, p.hash, p.sender, p.nonce);
    EnsureShows(m, p.hash, p.sender, p.nonce, log);
    var state :=
      if p.TxReady? then Some(Ready)
      else if p.expectedNonce.Some? then Some(Blocked(p.expectedNonce.value)) else None;
    var relabelled := Recompute(placed, p.sender);
    StateSetLive(relabelled, p.hash, state, s, n, h);
    RecomputeStores(placed, p.sender, log, s, n, h);
    assert Apply(m, p) ==
      if state.Some? then relabelled.(txs := SetQueueState(relabelled.txs, p.hash, state)) else relabelled;
    if s != p.sender && h == p.hash {
      OnlyOneSlot(placed, log, s, n, p.sender, p.nonce);
    }
  }

  lemma StateSetLive(m: Pool, g: TxHash, state: Option<QueueState>, s: Address, n: U64, h: TxHash)
    ensures var m' := m.(txs := SetQueueState(m.txs, g, state));
      && (LiveAt(m', s, n, h) <==> LiveAt(m, s, n, h))
      && (s in m.queues ==> LiveNonces(m'.txs, m'.queues[s]) == LiveNonces(m.txs, m.queues[s]))
      && (h in m.txs ==> m'.txs[h].queueState == if h == g then state else m.txs[h].queueState)
  {
  }

  lemma SettledStoresFor(
      m: Pool, g: TxHash, status: Status, p: Payload, log: seq<Payload>, s: Address, n: U64, h: TxHash)
    requires FromLog(m, log) && OneSlotEach(log) && !status.Pending? && LiveAt(ApplySettled(m, g, status), s, n, h)
    requires Ends(p) == Some(g) && Relabels(m, p) == if KnowsSlot(m, g) then m.txs[g].sender else None
    ensures StoresFor(m, ApplySettled(m, g, status), p, s, n, h)
  {
    hide FromLog, OneSlotEach, Recompute, Label;
    var settled := m.(txs := Settle(m.txs, g, status));
    SettleShows(m, g, status, log);
    if KnowsSlot(m, g) {
      var s0, n0 := m.txs[g].sender.value, m.txs[g].nonce.value;
      RemoveEntryShows(settled, g, s0, n0, log);
      RecomputeStores(RemoveEntry(settled, g, s0, n0), s0, log, s, n, h);
    }
  }

  lemma ReorgStoresFor(m: Pool, p: Payload, log: seq<Payload>, s: Address, n: U64, h: TxHash)
    requires FromLog(m, log) && OneSlotEach(log) && p.TxReorged? && LiveAt(Apply(m, p), s, n, h)
    ensures StoresFor(m, Apply(m, p), p, s, n, h)
  {
    hide FromLog, OneSlotEach, Recompute, Label, Placed;
    var g := p.hash;
    if Reopens(m, g, p.oldBlockHash) && KnowsSlot(m, g) {
      var s0, n0, reopened := m.txs[g].sender.value, m.txs[g].nonce.value, Reopened(m, g);
      KnownIsPlaced(m, log, g);
      ReopenedFromLog(m, log, g);
      EnsureShows(reopened, g, s0, n0, log);
      RecomputeStores(Ensure(reopened, g, s0, n0), s0, log, s, n, h);
      if s != s0 && h == g {
        OnlyOneSlot(Ensure(reopened, g, s0, n0), log, s, n, s0, n0);
      }
    }
  }

  lemma KnownIsPlaced(m: Pool, log: seq<Payload>, h: TxHash)
    requires FromLog(m, log) && KnowsSlot(m, h)
    ensures Placed(log, h, m.txs[h].sender.value, m.txs[h].nonce.value)
  {
  }

  lemma ReopenedFromLog(m: Pool, log: seq<Payload>, h: TxHash)
    requires FromLog(m, log) && h in m.txs
    ensures FromLog(Reopened(m, h), log)
  {
  }

  /** The label stored for every live entry after any event. */
  lemma EventStoresFor(m: Pool, p: Payload, log: seq<Payload>, s: Address, n: U64, h: TxHash)
    requires FromLog(m, log) && OneSlotEach(log) && p in log && LiveAt(Apply(m, p), s, n, h)
    ensures StoresFor(m, Apply(m, p), p, s, n, h)
  {
    hide FromLog, OneSlotEach, Recompute, Label, Placed, ApplySettled, ApplyDecoded, LiveNonces;
    match p
    case TxDecoded(tx) =>
      PlacedByEvent(log, p, tx.hash, tx.sender, tx.nonce);
      DecodedStoresFor(m, tx, log, s, n, h);
    case TxReady(g, s0, n0) =>
      PlacedByEvent(log, p, g, s0, n0);
      QueueStateStoresFor(m, p, log, s, n, h);
    case TxBlocked(g, s0, n0, _) =>
      PlacedByEvent(log, p, g, s0, n0);
      QueueStateStoresFor(m, p, log, s, n, h);
    case TxDropped(g, reason) => SettledStoresFor(m, g, Dropped(reason), p, log, s, n, h);
    case TxConfirmedProvisional(g, number, block) =>
      SettledStoresFor(m, g, ConfirmedProvisional(number, block), p, log, s, n, h);
    case TxConfirmedFinal(g, number, block) =>
      SettledStoresFor(m, g, ConfirmedFinal(number, block), p, log, s, n, h);
    case TxReplaced(g, newHash) =>
      if g in m.txs {
        SettledStoresFor(m, g, ReplacedBy(newHash), p, log, s, n, h);
      }
    case TxReorged(g, block, _) => ReorgStoresFor(m, p, log, s, n, h);
    case _ =>
  }

  // ---------------------------------------------------------------- queues an event leaves alone

  lemma OneSlotInLog(log: seq<Payload>, h: TxHash, s: Address, n: U64, s': Address, n': U64)
    requires OneSlotEach(log) && Placed(log, h, s, n) && Placed(log, h, s', n')
    ensures s == s' && n == n'
  {
  }

  lemma LiveIsPlaced(m: Pool, log: seq<Payload>, s: Address, n: U64, h: TxHash)
    requires FromLog(m, log) && LiveAt(m, s, n, h)
    ensures Placed(log, h, s, n)
  {
  }

  /** In a tidy state an event changes nothing live in the queues it does not relabel. */
  lemma LiveUntouched(m: Pool, p: Payload, log: seq<Payload>, s: Address, n: U64, h: TxHash)
    requires Tidy(m) && FromLog(m, log) && OneSlotEach(log) && p in log && Relabels(m, p) != Some(s)
    ensures LiveAt(Apply(m, p), s, n, h) <==> LiveAt(m, s, n, h)
  {
    hide FromLog, OneSlotEach, Placed, Apply, Tidy, LiveAt;
    if Ends(p).Some? {
      EndingShows(m, p, log);
      if LiveAt(m, s, n, h) && h == Ends(p).value {
        TidySlot(m, s, n, h);
      }
    } else if p.TxReady? || p.TxBlocked? {
      QueueingShows(m, p, log);
    } else if p.TxDecoded? {
      var tx := p.tx;
      PlacedByEvent(log, p, tx.hash, tx.sender, tx.nonce);
      DecodedApplies(m, tx);
      DecodedShows(m, tx, log);
      DisplacingShows(m, tx, log);
      if LiveAt(m, s, n, h) && LiveAt(m, tx.sender, tx.nonce, h) {
        LiveIsPlaced(m, log, s, n, h);
        LiveIsPlaced(m, log, tx.sender, tx.nonce, h);
        OneSlotInLog(log, h, s, n, tx.sender, tx.nonce);
      }
    } else if p.TxReorged? {
      ReorgUntouched(m, p, log, s, n, h);
    } else {
      QuietApplies(m, p);
    }
  }

  lemma QuietApplies(m: Pool, p: Payload)
    requires p.TxSeen? || p.TxFetched? || p.Downstream?
    ensures Apply(m, p) == m
  {
  }

  lemma TidySlot(m: Pool, s: Address, n: U64, h: TxHash)
    requires Tidy(m) && LiveAt(m, s, n, h)
    ensures SlotIs(m, h, s, n) && KnowsSlot(m, h)
  {
    assert SlotHas(m, s, n, h);
  }

  lemma ReorgApplies(m: Pool, p: Payload)
    requires p.TxReorged?
    ensures Apply(m, p) == ApplyReorged(m, p.hash, p.oldBlockHash)
  {
  }

  lemma ReorgUntouched(m: Pool, p: Payload, log: seq<Payload>, s: Address, n: U64, h: TxHash)
    requires Tidy(m) && FromLog(m, log) && OneSlotEach(log) && p.TxReorged? && Relabels(m, p) != Some(s)
    ensures LiveAt(Apply(m, p), s, n, h) <==> LiveAt(m, s, n, h)
  {
    hide OneSlotEach, Placed, Apply, ApplyReorged, LiveAt, FromLog;
    var g, block := p.hash, p.oldBlockHash;
    ReorgApplies(m, p);
    if !Reopens(m, g, block) {
      NothingReopened(m, g, block);
    } else if KnowsSlot(m, g) {
      KnownIsPlaced(m, log, g);
      LandingShows(m, g, block, m.txs[g].sender.value, m.txs[g].nonce.value, log);
    } else {
      assert forall s', n' :: SlotHas(m, s', n', g) ==> SlotIs(m, g, s', n');
      NotLandingShows(m, g, block);
    }
  }

  // ---------------------------------------------------------------- one event in both replays

  /** Whatever slot the resumed state knows, the full one knows. */
  ghost predicate KnowsMore(a: Pool, b: Pool) {
    forall h :: KnowsSlot(b, h) ==> KnowsSlot(a, h)
  }

  /** Every stored label of a queue is what the gap rule gives among its live entries. */
  ghost predicate QueueSettled(m: Pool, s: Address) {
    s in m.queues ==> forall n :: n in LiveNonces(m.txs, m.queues[s]) ==> LabelSettled(m, s, n)
  }

  /** If only the full replay relabels a queue, the resumed one has it settled afterwards. */
  ghost predicate LabelsKept(a: Pool, b: Pool, p: Payload) {
    Relabels(a, p).Some? && Relabels(b, p).None? ==> QueueSettled(Apply(b, p), Relabels(a, p).value)
  }

  /** Where both know the subject of an event, both relabel the same queue. */
  lemma RelabelsAlike(a: Pool, b: Pool, p: Payload, log: seq<Payload>)
    requires FromLog(a, log) && FromLog(b, log) && OneSlotEach(log) && KnowsMore(a, b) && Alike(a, b, p)
    ensures Relabels(b, p) == Relabels(a, p) || (Relabels(b, p).None? && Relabels(a, p).Some?)
  {
    hide FromLog, OneSlotEach, Placed, Lands;
    var h := if p.TxReorged? then Some(p.hash) else Ends(p);
    if h.Some? && KnowsSlot(a, h.value) && KnowsSlot(b, h.value) {
      KnownIsPlaced(a, log, h.value);
      KnownIsPlaced(b, log, h.value);
      OneSlotInLog(log, h.value, a.txs[h.value].sender.value, a.txs[h.value].nonce.value,
                   b.txs[h.value].sender.value, b.txs[h.value].nonce.value);
    }
  }

  lemma SameLiveSets(a: Pool, b: Pool, s: Address, n: U64)
    requires SameShown(a, b) && s in a.queues && n in LiveNonces(a.txs, a.queues[s])
    ensures s in b.queues && LiveNonces(a.txs, a.queues[s]) == LiveNonces(b.txs, b.queues[s])
    ensures b.queues[s][n] == a.queues[s][n] && LiveAt(a, s, n, a.queues[s][n]) && LiveAt(b, s, n, a.queues[s][n])
  {
    assert LiveAt(a, s, n, a.queues[s][n]);
    SameLive(a, b, s);
  }

  /** The entry before the event, for a queue the full replay does not relabel. */
  lemma EntryBefore(a: Pool, p: Payload, log: seq<Payload>, s: Address, n: U64)
    requires Tidy(a) && FromLog(a, log) && OneSlotEach(log) && p in log && Relabels(a, p) != Some(s)
    requires s in Apply(a, p).queues && n in LiveNonces(Apply(a, p).txs, Apply(a, p).queues[s])
    ensures s in a.queues && LiveNonces(a.txs, a.queues[s]) == LiveNonces(Apply(a, p).txs, Apply(a, p).queues[s])
    ensures n in LiveNonces(a.txs, a.queues[s]) && a.queues[s][n] == Apply(a, p).queues[s][n]
  {
    hide FromLog, OneSlotEach, Apply, Tidy;
    var a' := Apply(a, p);
    LiveUntouched(a, p, log, s, n, a'.queues[s][n]);
    forall k: U64 ensures k in LiveNonces(a.txs, a.queues[s]) <==> k in LiveNonces(a'.txs, a'.queues[s]) {
      if k in LiveNonces(a.txs, a.queues[s]) {
        LiveUntouched(a, p, log, s, k, a.queues[s][k]);
      }
      if k in LiveNonces(a'.txs, a'.queues[s]) {
        LiveUntouched(a, p, log, s, k, a'.queues[s][k]);
      }
    }
  }

  /** Labels of one entry after the event: kept, or settled where only the full replay relabelled. */
  lemma LabelAfterIff(a: Pool, b: Pool, p: Payload, log: seq<Payload>, s: Address, n: U64)
    requires SameShown(a, b) && SameLabels(a, b) && SameShown(Apply(a, p), Apply(b, p))
    requires FromLog(a, log) && FromLog(b, log) && OneSlotEach(log) && p in log && Tidy(a)
    requires KnowsMore(a, b) && Alike(a, b, p)
    requires s in Apply(a, p).queues && n in LiveNonces(Apply(a, p).txs, Apply(a, p).queues[s])
    ensures var a', b' := Apply(a, p), Apply(b, p);
      && LiveAt(b', s, n, a'.queues[s][n])
      && (ShownLabel(a', s, n) == ShownLabel(b', s, n) <==>
          (Relabels(a, p) == Some(s) && Relabels(b, p).None? ==> LabelSettled(b', s, n)))
  {
    hide FromLog, OneSlotEach, Apply, Tidy, Alike, SameShown, Label, Relabels, KnowsMore, Placed;
    var a', b' := Apply(a, p), Apply(b, p);
    var h := a'.queues[s][n];
    SameLiveSets(a', b', s, n);
    RelabelsAlike(a, b, p, log);
    EventStoresFor(a, p, log, s, n, h);
    EventStoresFor(b, p, log, s, n, h);
    if Relabels(a, p) == Some(s) {
      if Relabels(b, p).None? {
        NothingReported(a, b, p, h);
      }
    } else {
      EntryBefore(a, p, log, s, n);
      SameLiveSets(a, b, s, n);
      assert ShownLabel(a, s, n) == ShownLabel(b, s, n);
    }
  }

  /** Only events that relabel in every state report a label. */
  lemma NothingReported(a: Pool, b: Pool, p: Payload, h: TxHash)
    requires Relabels(a, p).Some? && Relabels(b, p).None?
    ensures Reported(p, h).None?
  {
  }

  /** One event keeps whole frames the same exactly when it leaves no unsettled label behind. */
  lemma LabelsStepIff(a: Pool, b: Pool, p: Payload, log: seq<Payload>)
    requires SameShown(a, b) && SameLabels(a, b) && SameShown(Apply(a, p), Apply(b, p))
    requires FromLog(a, log) && FromLog(b, log) && OneSlotEach(log) && p in log && Tidy(a)
    requires KnowsMore(a, b) && Alike(a, b, p)
    ensures SameLabels(Apply(a, p), Apply(b, p)) <==> LabelsKept(a, b, p)
  {
    hide FromLog, OneSlotEach, Apply, Tidy, Alike, SameShown, Label, Relabels, KnowsMore, ShownLabel, LabelSettled;
    var a', b' := Apply(a, p), Apply(b, p);
    if SameLabels(a', b') && Relabels(a, p).Some? && Relabels(b, p).None? {
      var s := Relabels(a, p).value;
      if s in b'.queues {
        forall n | n in LiveNonces(b'.txs, b'.queues[s]) ensures LabelSettled(b', s, n) {
          ShowsBothWays(a', b');
          SameLiveSets(b', a', s, n);
          LabelAfterIff(a, b, p, log, s, n);
        }
      }
    }
    if LabelsKept(a, b, p) {
      forall s, n | s in a'.queues && n in LiveNonces(a'.txs, a'.queues[s])
        ensures LiveAt(b', s, n, a'.queues[s][n]) && ShownLabel(a', s, n) == ShownLabel(b', s, n)
      {
        SameLiveSets(a', b', s, n);
        LabelAfterIff(a, b, p, log, s, n);
      }
    }
  }

  // ---------------------------------------------------------------- along the tail

  /** The full state after `j` events of the tail. */
  ghost function FullAfter(sorted: seq<Envelope>, k: nat, j: nat): Pool
    requires k + j <= |sorted|
  {
    Replay(EMPTY_POOL, Payloads(sorted), k + j)
  }

  lemma NextAfter(sorted: seq<Envelope>, k: nat, j: nat)
    requires 0 < k && k + j < |sorted|
    ensures FullAfter(sorted, k, j + 1) == Apply(FullAfter(sorted, k, j), Payloads(sorted)[k + j])
    ensures ResumedAfter(sorted, k, j + 1) == Apply(ResumedAfter(sorted, k, j), Payloads(sorted)[k + j])
  {
    hide Apply, CheckpointAfter, SeededState;
    assert Payloads(sorted[k..])[j] == Payloads(sorted)[k + j];
  }

  lemma SeedKnowsNothing(m: Pool, log: seq<Payload>, h: TxHash)
    requires FromLog(m, log)
    ensures var r := FromCheckpoint(Ascending(PendingHashes(m)), PoolView(m));
      h in r.txs ==> r.txs[h].sender.None? && r.txs[h].nonce.None?
  {
    hide FromLog, PoolView, FromCheckpoint, SeedPending, SameShown;
    CheckpointShowsSame(m, log);
    SeedPendingIs(Ascending(PendingHashes(m)), |PendingHashes(m)|, h);
  }

  lemma TailPlaces(log: seq<Payload>, k: nat, j: nat, h: TxHash)
    requires k + j <= |log| && PlacedWithin(log[k..], 0, j, h)
    ensures PlacedWithin(log, 0, k + j, h)
  {
    var x :| 0 <= x < j && PlacesHash(log[k..][x], h);
    assert log[k + x] == log[k..][x];
  }

  /** What both replays keep at every event of the tail. */
  lemma TailFacts(sorted: seq<Envelope>, k: nat, j: nat)
    requires 0 < k && k + j <= |sorted| && OneSlotEach(Payloads(sorted))
    ensures FromLog(FullAfter(sorted, k, j), Payloads(sorted)) && FromLog(ResumedAfter(sorted, k, j), Payloads(sorted))
    ensures Tidy(FullAfter(sorted, k, j)) && KnowsMore(FullAfter(sorted, k, j), ResumedAfter(sorted, k, j))
  {
    hide OneSlotEach, FromLog, Tidy, SameShown, Replay, PlacedWithin, SameThroughout, AlikeThroughout, FromCheckpoint,
      PoolView, PendingHashes;
    var log, r := Payloads(sorted), SeededState(CheckpointAfter(sorted, k));
    assert Payloads(sorted[k..]) == log[k..];
    ReplayIsTidy(log, k + j);
    ReplayFromLog(log, k);
    CheckpointStates(sorted, k);
    ReplayShowsSameIff(StateAfter(EMPTY_POOL, sorted, k), r, log[k..], j, log);
    forall h | KnowsSlot(ResumedAfter(sorted, k, j), h) ensures KnowsSlot(FullAfter(sorted, k, j), h) {
      SeedKnowsNothing(StateAfter(EMPTY_POOL, sorted, k), log, h);
      KnowsSlotIff(r, log[k..], j, h);
      TailPlaces(log, k, j, h);
      KnowsSlotIff(EMPTY_POOL, log, k + j, h);
    }
  }

  /** Both states show the same pending transactions, slots and labels. */
  ghost predicate ShowsAll(sorted: seq<Envelope>, k: nat, j: nat)
    requires 0 < k && k + j <= |sorted|
  {
    && PendingHashes(ResumedAfter(sorted, k, j)) == PendingHashes(FullAfter(sorted, k, j))
    && PoolView(ResumedAfter(sorted, k, j)) == PoolView(FullAfter(sorted, k, j))
  }

  lemma ShowsAllIff(a: Pool, b: Pool)
    ensures PendingHashes(b) == PendingHashes(a) && PoolView(b) == PoolView(a) <==> SameShown(a, b) && SameLabels(a, b)
  {
    hide PendingHashes, PoolView, SameShown, Unlabelled;
    if PendingHashes(b) == PendingHashes(a) && PoolView(b) == PoolView(a) {
      FramesShow(a, b);
    }
    if SameShown(a, b) {
      SameFrames(a, b);
      SameViewsIff(a, b);
    }
  }

  /** The condition on one event of the tail: alike, and no unsettled label left behind. */
  ghost predicate StepSafe(sorted: seq<Envelope>, k: nat, j: nat)
    requires 0 < k && k + j < |sorted|
  {
    var a, b, p := FullAfter(sorted, k, j), ResumedAfter(sorted, k, j), Payloads(sorted)[k + j];
    Alike(a, b, p) && LabelsKept(a, b, p)
  }

  lemma StepSafeIff(sorted: seq<Envelope>, k: nat, j: nat)
    requires 0 < k && k + j < |sorted| && OneSlotEach(Payloads(sorted)) && ShowsAll(sorted, k, j)
    ensures ShowsAll(sorted, k, j + 1) <==> StepSafe(sorted, k, j)
  {
    hide OneSlotEach, FromLog, Tidy, SameShown, PendingHashes, PoolView, FullAfter, ResumedAfter, Apply, Alike,
      LabelsKept, KnowsMore;
    var a, b, p := FullAfter(sorted, k, j), ResumedAfter(sorted, k, j), Payloads(sorted)[k + j];
    TailFacts(sorted, k, j);
    NextAfter(sorted, k, j);
    ShowsAllIff(a, b);
    ShowsAllIff(Apply(a, p), Apply(b, p));
    StepShowsSameIff(a, b, p, Payloads(sorted));
    if SameShown(Apply(a, p), Apply(b, p)) {
      LabelsStepIff(a, b, p, Payloads(sorted));
    }
  }

  /** Every stored label at the checkpoint is what the gap rule gives. */
  ghost predicate AllSettled(m: Pool) {
    forall s, n :: s in m.queues && n in LiveNonces(m.txs, m.queues[s]) ==> LabelSettled(m, s, n)
  }

  lemma CheckpointShowsAllIff(sorted: seq<Envelope>, k: nat)
    requires 0 < k <= |sorted| && OneSlotEach(Payloads(sorted))
    ensures ShowsAll(sorted, k, 0) <==> AllSettled(FullAfter(sorted, k, 0))
  {
    hide OneSlotEach, FromLog, SameShown, PoolView, FromCheckpoint, LabelSettled, PendingHashes;
    var m := FullAfter(sorted, k, 0);
    ReplayFromLog(Payloads(sorted), k);
    CheckpointFrameIff(m, Payloads(sorted));
    CheckpointShowsSame(m, Payloads(sorted));
    SameFrames(m, FromCheckpoint(Ascending(PendingHashes(m)), PoolView(m)));
    assert ResumedAfter(sorted, k, 0) == FromCheckpoint(Ascending(PendingHashes(m)), PoolView(m));
  }

  lemma {:induction false} ShowsAllThroughoutIff(sorted: seq<Envelope>, k: nat, i: nat)
    requires 0 < k && k + i <= |sorted| && OneSlotEach(Payloads(sorted))
    ensures (forall j :: 0 <= j <= i ==> ShowsAll(sorted, k, j)) <==>
      AllSettled(FullAfter(sorted, k, 0)) && forall j :: 0 <= j < i ==> StepSafe(sorted, k, j)
  {
    hide OneSlotEach, ShowsAll, AllSettled, StepSafe, FullAfter;
    if i == 0 {
      CheckpointShowsAllIff(sorted, k);
    } else {
      ShowsAllThroughoutIff(sorted, k, i - 1);
      if ShowsAll(sorted, k, i - 1) {
        StepSafeIff(sorted, k, i - 1);
      }
    }
  }

  // ---------------------------------------------------------------- the condition on log and resumed state

  /** The first `i` events put the hash into a slot of the sender. */
  ghost predicate PlacedFor(log: seq<Payload>, i: nat, h: TxHash, s: Address)
    requires i <= |log|
  {
    exists x, n :: 0 <= x < i && Places(log[x], h, s, n)
  }

  /** The hash whose queue an event leaves or re-enters by its recorded slot. */
  function Subject(p: Payload, r: Pool): Option<TxHash> {
    if p.TxReorged? then if Reopens(r, p.hash, p.oldBlockHash) then Some(p.hash) else None else Ends(p)
  }

  /**
    Event `i` met in the resumed state `r`: if it ends or reopens a hash whose slot the log
    knows and `r` does not, it must leave that sender's queue in `r` settled.
   */
  ghost predicate LabelsKeptByLog(log: seq<Payload>, i: nat, r: Pool)
    requires i < |log|
  {
    var h := Subject(log[i], r);
    h.Some? && !KnowsSlot(r, h.value) ==>
      forall s :: PlacedFor(log, i, h.value, s) ==> QueueSettled(Apply(r, log[i]), s)
  }

  lemma PlacedForIff(log: seq<Payload>, i: nat, h: TxHash, s: Address)
    requires i <= |log| && OneSlotEach(log) && FromLog(Replay(EMPTY_POOL, log, i), log)
    ensures var m := Replay(EMPTY_POOL, log, i);
      PlacedFor(log, i, h, s) <==> KnowsSlot(m, h) && m.txs[h].sender == Some(s)
  {
    hide OneSlotEach, FromLog, Replay, Placed;
    var m := Replay(EMPTY_POOL, log, i);
    KnowsSlotIff(EMPTY_POOL, log, i, h);
    if PlacedFor(log, i, h, s) {
      var x, n :| 0 <= x < i && Places(log[x], h, s, n);
      PlacesSomewhere(log[x], h);
      KnownIsPlaced(m, log, h);
      PlacedByEvent(log, log[x], h, s, n);
      OneSlotInLog(log, h, s, n, m.txs[h].sender.value, m.txs[h].nonce.value);
    }
    if KnowsSlot(m, h) && m.txs[h].sender == Some(s) {
      var x :| 0 <= x < i && PlacesHash(log[x], h);
      PlacesSomewhere(log[x], h);
      var s', n' :| Places(log[x], h, s', n');
      KnownIsPlaced(m, log, h);
      PlacedByEvent(log, log[x], h, s', n');
      OneSlotInLog(log, h, s', n', m.txs[h].sender.value, m.txs[h].nonce.value);
    }
  }

  lemma LabelsKeptIsByLog(log: seq<Payload>, i: nat, r: Pool)
    requires i < |log| && OneSlotEach(log) && FromLog(Replay(EMPTY_POOL, log, i), log)
    requires Alike(Replay(EMPTY_POOL, log, i), r, log[i]) && KnowsMore(Replay(EMPTY_POOL, log, i), r)
    ensures LabelsKept(Replay(EMPTY_POOL, log, i), r, log[i]) <==> LabelsKeptByLog(log, i, r)
  {
    hide OneSlotEach, FromLog, Replay, PlacedFor, QueueSettled, Apply, Lands;
    var m, h := Replay(EMPTY_POOL, log, i), Subject(log[i], r);
    if h.Some? {
      forall s: Address
        ensures PlacedFor(log, i, h.value, s) <==> KnowsSlot(m, h.value) && m.txs[h.value].sender == Some(s)
      {
        PlacedForIff(log, i, h.value, s);
      }
    }
  }

  /** The condition on one event of the tail, read off the log and the resumed state. */
  ghost predicate SafeByLog(sorted: seq<Envelope>, k: nat, j: nat)
    requires 0 < k && k + j < |sorted|
  {
    && AlikeByLog(Payloads(sorted), k + j, ResumedAfter(sorted, k, j))
    && LabelsKeptByLog(Payloads(sorted), k + j, ResumedAfter(sorted, k, j))
  }

  lemma SafeIsByLog(sorted: seq<Envelope>, k: nat, j: nat)
    requires 0 < k && k + j < |sorted| && OneSlotEach(Payloads(sorted))
    ensures StepSafe(sorted, k, j) <==> SafeByLog(sorted, k, j)
  {
    hide OneSlotEach, FromLog, Tidy, KnowsMore, Alike, AlikeByLog, LabelsKept, LabelsKeptByLog, ResumedAfter, Replay;
    TailFacts(sorted, k, j);
    AlikeIsByLog(Payloads(sorted), k + j, ResumedAfter(sorted, k, j));
    if Alike(FullAfter(sorted, k, j), ResumedAfter(sorted, k, j), Payloads(sorted)[k + j]) {
      LabelsKeptIsByLog(Payloads(sorted), k + j, ResumedAfter(sorted, k, j));
    }
  }

  /**
    Whole frames, exactly. For any log in which every hash has one sender and nonce, and
    any checkpoint of it, the resumed replay shows at the checkpoint and after each of the
    next `i` events exactly what the full replay shows, labels included, if and only if
    every label stored at the checkpoint is what the gap rule gives, every reorg finds in
    the resumed state what the log says it should, and no event that takes a transaction
    out of a slot the resumed state does not know leaves a label behind that the gap rule
    contradicts.
   */
  lemma WholeFramesIff(sorted: seq<Envelope>, k: nat, i: nat)
    requires 0 < k && k + i <= |sorted| && OneSlotEach(Payloads(sorted))
    ensures (forall j :: 0 <= j <= i ==> ShowsAll(sorted, k, j)) <==>
      AllSettled(StateAfter(EMPTY_POOL, sorted, k)) && forall j :: 0 <= j < i ==> SafeByLog(sorted, k, j)
  {
    hide OneSlotEach, ShowsAll, AllSettled, StepSafe, SafeByLog, Replay;
    ShowsAllThroughoutIff(sorted, k, i);
    forall j | 0 <= j < i ensures StepSafe(sorted, k, j) <==> SafeByLog(sorted, k, j) {
      SafeIsByLog(sorted, k, j);
    }
  }

  /** What a frame lists after an event of the tail is what the two states show. */
  lemma FrameIsShown(sorted: seq<Envelope>, k: nat, j: nat)
    requires 0 < k && 0 < j && k + j <= |sorted|
    ensures ShowsAll(sorted, k, j) <==>
      FrameAfter(SeededState(CheckpointAfter(sorted, k)), sorted[k..], j) == FrameAfter(EMPTY_POOL, sorted, k + j)
  {
    hide PendingHashes, PoolView, CheckpointAfter, SeededState, Replay;
    var a, b := FullAfter(sorted, k, j), ResumedAfter(sorted, k, j);
    if Ascending(PendingHashes(a)) == Ascending(PendingHashes(b)) {
      AscendingIsInjective(PendingHashes(a), PendingHashes(b));
    }
    assert sorted[k..][j - 1] == sorted[k + j - 1];
  }
}
