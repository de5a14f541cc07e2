/**
  Crash recovery. A snapshot is stamped with an event watermark that was read before it
  was taken, so the events after the watermark overlap the snapshot. Restoring it and
  re-admitting those events' transactions ends in the state of the uninterrupted run.
 */
module Recovery {
  import opened Prelude
  import opened Fees
  import opened SchedulerModel
  import opened History
  import Counting

  // ---------------------------------------------------------------- slots over a run

  /** Submission `i` of the run fills or takes over the slot. */
  ghost predicate AdmitsAt(txs: seq<Tx>, cfg: Config, i: nat, s: Address, n: U64)
    requires i < |txs|
  {
    txs[i].sender == s && txs[i].nonce == n && Decide(Run(EMPTY, txs, i, cfg), txs[i], cfg).IsAdmitted()
  }

  /** The slot is filled or taken over at or after submission `j`. */
  ghost predicate Refilled(txs: seq<Tx>, cfg: Config, j: nat, s: Address, n: U64) {
    exists i :: j <= i < |txs| && AdmitsAt(txs, cfg, i, s, n)
  }

  /** `tx` holds its slot at some point of the run at or after `j`. */
  ghost predicate HeldSince(txs: seq<Tx>, cfg: Config, j: nat, tx: Tx) {
    exists i :: j <= i <= |txs| && Holds(Run(EMPTY, txs, i, cfg), tx)
  }

  ghost predicate Holds(c: ValidCore, tx: Tx) {
    Occupied(c, tx.sender, tx.nonce) && Occupant(c, tx.sender, tx.nonce) == tx
  }

  /** Both states have the same occupant, or none, in a slot. */
  ghost predicate SameSlot(a: ValidCore, b: ValidCore, s: Address, n: U64) {
    && (Occupied(a, s, n) <==> Occupied(b, s, n))
    && (Occupied(a, s, n) ==> Occupant(a, s, n) == Occupant(b, s, n))
  }

  lemma OtherSlotsStay(c: ValidCore, tx: Tx, cfg: Config, s: Address, n: U64)
    requires !(Decide(c, tx, cfg).IsAdmitted() && tx.sender == s && tx.nonce == n)
    ensures WellFormed(Admit(c, tx, cfg)) && SameSlot(c, Admit(c, tx, cfg), s, n)
  {
    SlotStep(c, tx, cfg, s, n);
  }

  /** A slot that changes between two points of a run was admitted to in between. */
  lemma {:induction false} SlotUnchanged(txs: seq<Tx>, cfg: Config, a: nat, b: nat, s: Address, n: U64)
    requires a <= b <= |txs| && forall i :: a <= i < b ==> !AdmitsAt(txs, cfg, i, s, n)
    ensures SameSlot(Run(EMPTY, txs, a, cfg), Run(EMPTY, txs, b, cfg), s, n)
    decreases b
  {
    hide Admit, Decide;
    if a < b {
      SlotUnchanged(txs, cfg, a, b - 1, s, n);
      assert !AdmitsAt(txs, cfg, b - 1, s, n);
      OtherSlotsStay(Run(EMPTY, txs, b - 1, cfg), txs[b - 1], cfg, s, n);
    }
  }

  /** States with the same occupants in every slot are the same state. */
  lemma SlotsDetermineState(a: ValidCore, b: ValidCore)
    requires Bijective(a) && Bijective(b) && forall s, n :: SameSlot(a, b, s, n)
    ensures a == b
  {
    hide Bijective, WellFormed, SameSlot;
    forall s, n ensures SameSlot(b, a, s, n) {
      SameSlotBothWays(a, b, s, n);
    }
    forall s: Address ensures (s in a.queues <==> s in b.queues) && (s in a.queues ==> a.queues[s] == b.queues[s]) {
      SameQueue(a, b, s);
      QueuesAreFilled(a, s);
      QueuesAreFilled(b, s);
    }
    assert a.queues == b.queues;
    SamePendingOneWay(a, b);
    SamePendingOneWay(b, a);
    assert a.pending == b.pending;
  }

  lemma SameSlotBothWays(a: ValidCore, b: ValidCore, s: Address, n: U64)
    ensures SameSlot(a, b, s, n) ==> SameSlot(b, a, s, n)
  {
  }

  lemma QueuesAreFilled(c: ValidCore, s: Address)
    ensures s in c.queues <==> QueueOf(c, s) != map[]
  {
  }

  lemma SameQueue(a: ValidCore, b: ValidCore, s: Address)
    requires forall n :: SameSlot(a, b, s, n)
    ensures QueueOf(a, s) == QueueOf(b, s)
  {
    forall n: U64 ensures n in QueueOf(a, s) <==> n in QueueOf(b, s) {
      assert SameSlot(a, b, s, n);
    }
    forall n | n in QueueOf(a, s) ensures QueueOf(a, s)[n] == QueueOf(b, s)[n] {
      assert SameSlot(a, b, s, n);
      OccupantHash(a, s, n);
      OccupantHash(b, s, n);
    }
  }

  lemma OccupantHash(c: ValidCore, s: Address, n: U64)
    requires Occupied(c, s, n)
    ensures Occupant(c, s, n).hash == QueueOf(c, s)[n]
  {
    assert FillsSlot(c, c.queues[s][n], s, n);
  }

  lemma OccupantFills(c: ValidCore, s: Address, n: U64)
    requires Occupied(c, s, n)
    ensures Occupant(c, s, n).sender == s && Occupant(c, s, n).nonce == n
  {
    assert FillsSlot(c, c.queues[s][n], s, n);
  }

  lemma SamePendingOneWay(a: ValidCore, b: ValidCore)
    requires Bijective(a) && forall s, n :: SameSlot(a, b, s, n)
    ensures forall h :: h in a.pending ==> h in b.pending && b.pending[h] == a.pending[h]
  {
    forall h | h in a.pending ensures h in b.pending && b.pending[h] == a.pending[h] {
      var tx := a.pending[h];
      assert Queued(a, tx);
      OccupantHash(a, tx.sender, tx.nonce);
      assert SameSlot(a, b, tx.sender, tx.nonce);
    }
  }

  /** No queue ever grows past the sender limit. */
  lemma {:induction false} QueuesWithinLimit(txs: seq<Tx>, cfg: Config, i: nat, s: Address)
    requires i <= |txs|
    ensures |QueueOf(Run(EMPTY, txs, i, cfg), s)| <= cfg.maxPendingPerSender
  {
    hide Admit;
    if i > 0 {
      QueuesWithinLimit(txs, cfg, i - 1, s);
      QueueLengthStep(Run(EMPTY, txs, i - 1, cfg), txs[i - 1], cfg, s);
    }
  }

  // ---------------------------------------------------------------- tracking the run

  /** From `j` on the transaction still holds its slot at some point, or loses it to a newcomer. */
  ghost predicate OnCourse(txs: seq<Tx>, cfg: Config, j: nat, tx: Tx) {
    || HeldSince(txs, cfg, j, tx)
    || (HeldSince(txs, cfg, 0, tx) && Refilled(txs, cfg, j, tx.sender, tx.nonce))
  }

  /**
    A state that the rest of the run, replayed from submission `j` on, still leads to the
    end: each of its entries is on course, and each slot of the final state it lacks is
    filled again from `j` on.
   */
  ghost predicate Tracks(t: ValidCore, txs: seq<Tx>, cfg: Config, j: nat)
    requires j <= |txs|
  {
    && Bijective(t)
    && (forall s, n :: Occupied(t, s, n) ==> OnCourse(txs, cfg, j, Occupant(t, s, n)))
    && (forall s, n :: Occupied(RunAll(EMPTY, txs, cfg), s, n) && !Occupied(t, s, n) ==> Refilled(txs, cfg, j, s, n))
  }

  lemma HeldFromStart(txs: seq<Tx>, cfg: Config, j: nat, tx: Tx)
    requires OnCourse(txs, cfg, j, tx)
    ensures HeldSince(txs, cfg, 0, tx)
  {
  }

  lemma HeldComesFrom(txs: seq<Tx>, cfg: Config, j: nat, tx: Tx)
    requires HeldSince(txs, cfg, j, tx)
    ensures tx in txs
  {
    var i :| j <= i <= |txs| && Holds(Run(EMPTY, txs, i, cfg), tx);
    RunComesFrom(txs, cfg, i);
    var k :| 0 <= k < i <= |txs| && txs[k] == Run(EMPTY, txs, i, cfg).pending[tx.hash];
  }

  /** A transaction of the run that is pending in a tracking state holds its own slot there. */
  lemma PendingHoldsSlot(t: ValidCore, txs: seq<Tx>, cfg: Config, j: nat, tx: Tx)
    requires j <= |txs| && Tracks(t, txs, cfg, j) && HashesNameOne(txs) && tx in txs && tx.hash in t.pending
    ensures Holds(t, tx)
  {
    var held := t.pending[tx.hash];
    assert Queued(t, held);
    OccupantHash(t, held.sender, held.nonce);
    assert Occupant(t, held.sender, held.nonce) == held;
    HeldFromStart(txs, cfg, j, held);
    HeldComesFrom(txs, cfg, 0, held);
    var a :| 0 <= a < |txs| && txs[a] == held;
    var b :| 0 <= b < |txs| && txs[b] == tx;
  }

  lemma AdmittedIsHeld(txs: seq<Tx>, cfg: Config, j: nat)
    requires j < |txs| && Decide(Run(EMPTY, txs, j, cfg), txs[j], cfg).IsAdmitted()
    ensures HeldSince(txs, cfg, j + 1, txs[j])
  {
    AdmittedHoldsSlot(Run(EMPTY, txs, j, cfg), txs[j], cfg);
    assert Holds(Run(EMPTY, txs, j + 1, cfg), txs[j]);
  }

  lemma FinallyOccupied(t: ValidCore, txs: seq<Tx>, cfg: Config, j: nat, s: Address, n: U64)
    requires j <= |txs| && Tracks(t, txs, cfg, j) && Occupied(t, s, n)
    ensures Occupied(RunAll(EMPTY, txs, cfg), s, n)
  {
    hide Admit, Bijective, OnCourse;
    HeldFromStart(txs, cfg, j, Occupant(t, s, n));
    var i :| 0 <= i <= |txs| && Holds(Run(EMPTY, txs, i, cfg), Occupant(t, s, n));
    SlotHeldOn(txs, cfg, i, |txs|, s, n);
  }

  /** Within the final slots, a queue that lacks one of them is not full. */
  lemma RoomLeft(t: ValidCore, txs: seq<Tx>, cfg: Config, s: Address, n: U64)
    requires forall k :: Occupied(t, s, k) ==> Occupied(RunAll(EMPTY, txs, cfg), s, k)
    requires Occupied(RunAll(EMPTY, txs, cfg), s, n) && !Occupied(t, s, n)
    ensures |QueueOf(t, s)| < cfg.maxPendingPerSender
  {
    hide Run, WellFormed;
    var end := RunAll(EMPTY, txs, cfg);
    var small, large := QueueOf(t, s).Keys, QueueOf(end, s).Keys;
    forall k | k in small ensures k in large {
      assert Occupied(t, s, k);
      assert Occupied(end, s, k);
    }
    QueuesWithinLimit(txs, cfg, |txs|, s);
    Counting.SubsetSize(small + {n}, large);
  }

  lemma QueueHasRoom(t: ValidCore, txs: seq<Tx>, cfg: Config, j: nat, s: Address, n: U64)
    requires j <= |txs| && Tracks(t, txs, cfg, j)
    requires Occupied(RunAll(EMPTY, txs, cfg), s, n) && !Occupied(t, s, n)
    ensures |QueueOf(t, s)| < cfg.maxPendingPerSender
  {
    hide Run, Tracks, WellFormed;
    forall k | Occupied(t, s, k) ensures Occupied(RunAll(EMPTY, txs, cfg), s, k) {
      FinallyOccupied(t, txs, cfg, j, s, k);
    }
    RoomLeft(t, txs, cfg, s, n);
  }

  // ---------------------------------------------------------------- one re-admission

  lemma FinalSlotFilled(txs: seq<Tx>, cfg: Config, j: nat, s: Address, n: U64)
    requires j < |txs| && AdmitsAt(txs, cfg, j, s, n)
    ensures Occupied(RunAll(EMPTY, txs, cfg), s, n)
  {
    AdmittedHoldsSlot(Run(EMPTY, txs, j, cfg), txs[j], cfg);
    SlotHeldOn(txs, cfg, j + 1, |txs|, s, n);
  }

  /** An empty slot takes the transaction again. */
  lemma ReadmitToFreeSlot(t: ValidCore, txs: seq<Tx>, cfg: Config, j: nat)
    requires j < |txs| && HashesNameOne(txs) && Tracks(t, txs, cfg, j)
    requires Decide(Run(EMPTY, txs, j, cfg), txs[j], cfg).IsAdmitted()
    requires !Occupied(t, txs[j].sender, txs[j].nonce)
    ensures Decide(t, txs[j], cfg) == Admitted
  {
    hide Tracks, HashesNameOne;
    var tx := txs[j];
    if tx.hash in t.pending {
      PendingHoldsSlot(t, txs, cfg, j, tx);
    }
    FinalSlotFilled(txs, cfg, j, tx.sender, tx.nonce);
    QueueHasRoom(t, txs, cfg, j, tx.sender, tx.nonce);
  }

  lemma HigherBidRefuses(t: ValidCore, tx: Tx, cfg: Config)
    requires Occupied(t, tx.sender, tx.nonce) && tx.hash !in t.pending
    requires tx.Fee() < Threshold(Occupant(t, tx.sender, tx.nonce).Fee(), cfg.bumpBps)
    ensures Decide(t, tx, cfg) == UnderpricedReplacement
  {
  }

  lemma HolderFacts(t: ValidCore, txs: seq<Tx>, cfg: Config, j: nat, s: Address, n: U64)
    requires j <= |txs| && HashesNameOne(txs) && Tracks(t, txs, cfg, j) && Occupied(t, s, n)
    ensures HeldSince(txs, cfg, 0, Occupant(t, s, n))
  {
    HeldFromStart(txs, cfg, j, Occupant(t, s, n));
  }

  /** Facing a holder the run had before, the transaction outbids it all the more. */
  lemma EarlierHolderYields(t: ValidCore, txs: seq<Tx>, cfg: Config, j: nat, i: nat)
    requires i <= j < |txs| && txs[j].hash !in t.pending
    requires Decide(Run(EMPTY, txs, j, cfg), txs[j], cfg).IsAdmitted()
    requires Occupied(t, txs[j].sender, txs[j].nonce)
    requires Holds(Run(EMPTY, txs, i, cfg), Occupant(t, txs[j].sender, txs[j].nonce))
    ensures Decide(t, txs[j], cfg) == Replaced(Occupant(t, txs[j].sender, txs[j].nonce).hash)
  {
    hide Run, Tracks;
    var tx, c := txs[j], Run(EMPTY, txs, j, cfg);
    SlotHeldOn(txs, cfg, i, j, tx.sender, tx.nonce);
    var holder, occupant := Occupant(t, tx.sender, tx.nonce), Occupant(c, tx.sender, tx.nonce);
    assert NotBelow(occupant, holder, cfg);
    AdmittedMeetsThreshold(c, tx, cfg);
    ThresholdReplaces(t, tx, cfg);
  }

  lemma AdmittedMeetsThreshold(c: ValidCore, tx: Tx, cfg: Config)
    requires Decide(c, tx, cfg).IsAdmitted() && Occupied(c, tx.sender, tx.nonce)
    ensures tx.Fee() >= Threshold(Occupant(c, tx.sender, tx.nonce).Fee(), cfg.bumpBps)
  {
  }

  lemma ThresholdReplaces(t: ValidCore, tx: Tx, cfg: Config)
    requires Occupied(t, tx.sender, tx.nonce) && tx.hash !in t.pending
    requires tx.Fee() >= Threshold(Occupant(t, tx.sender, tx.nonce).Fee(), cfg.bumpBps)
    ensures Decide(t, tx, cfg) == Replaced(Occupant(t, tx.sender, tx.nonce).hash)
  {
  }

  /** A newcomer to a taken slot replaces its occupant or is refused. */
  lemma TakenSlotDecides(t: ValidCore, tx: Tx, cfg: Config)
    requires Occupied(t, tx.sender, tx.nonce)
    ensures !Decide(t, tx, cfg).IsAdmitted() || Decide(t, tx, cfg) == Replaced(Occupant(t, tx.sender, tx.nonce).hash)
  {
  }

  /** A taken slot either keeps a holder that comes later in the run, or yields as it did then. */
  lemma ReadmitToTakenSlot(t: ValidCore, txs: seq<Tx>, cfg: Config, j: nat)
    requires j < |txs| && HashesNameOne(txs) && Tracks(t, txs, cfg, j)
    requires Decide(Run(EMPTY, txs, j, cfg), txs[j], cfg).IsAdmitted()
    requires Occupied(t, txs[j].sender, txs[j].nonce)
    ensures var holder := Occupant(t, txs[j].sender, txs[j].nonce);
      || Decide(t, txs[j], cfg) == Replaced(holder.hash)
      || (!Decide(t, txs[j], cfg).IsAdmitted() && HeldSince(txs, cfg, j + 1, holder))
  {
    hide Tracks, HashesNameOne, Admit, Run, WellFormed, Threshold;
    var tx := txs[j];
    var holder := Occupant(t, tx.sender, tx.nonce);
    HolderFacts(t, txs, cfg, j, tx.sender, tx.nonce);
    var i :| 0 <= i <= |txs| && Holds(Run(EMPTY, txs, i, cfg), holder);
    if tx.hash in t.pending {
      PendingHoldsSlot(t, txs, cfg, j, tx);
      AdmittedIsHeld(txs, cfg, j);
    } else if i <= j {
      EarlierHolderYields(t, txs, cfg, j, i);
    } else {
      TakenSlotDecides(t, tx, cfg);
    }
  }

  /** Entries outside the touched slot keep a place later in the run. */
  lemma HeldElsewhere(txs: seq<Tx>, cfg: Config, j: nat, tx: Tx)
    requires j < |txs| && HeldSince(txs, cfg, j, tx)
    requires !AdmitsAt(txs, cfg, j, tx.sender, tx.nonce)
    ensures HeldSince(txs, cfg, j + 1, tx)
  {
    var i :| j <= i <= |txs| && Holds(Run(EMPTY, txs, i, cfg), tx);
    if i == j {
      OtherSlotsStay(Run(EMPTY, txs, j, cfg), txs[j], cfg, tx.sender, tx.nonce);
      assert Holds(Run(EMPTY, txs, j + 1, cfg), tx);
    }
  }

  lemma OnCourseElsewhere(txs: seq<Tx>, cfg: Config, j: nat, tx: Tx)
    requires j < |txs| && OnCourse(txs, cfg, j, tx) && !AdmitsAt(txs, cfg, j, tx.sender, tx.nonce)
    ensures OnCourse(txs, cfg, j + 1, tx)
  {
    hide AdmitsAt, HeldSince, Refilled;
    if HeldSince(txs, cfg, j, tx) {
      HeldElsewhere(txs, cfg, j, tx);
    } else {
      RefilledLater(txs, cfg, j, tx.sender, tx.nonce);
    }
  }

  lemma RefilledLater(txs: seq<Tx>, cfg: Config, j: nat, s: Address, n: U64)
    requires j < |txs| && Refilled(txs, cfg, j, s, n) && !AdmitsAt(txs, cfg, j, s, n)
    ensures Refilled(txs, cfg, j + 1, s, n)
  {
    var i :| j <= i < |txs| && AdmitsAt(txs, cfg, i, s, n);
    assert i != j;
  }

  /** What the touched slot of the re-admitted state holds has a place later in the run. */
  lemma TouchedSlot(t: ValidCore, txs: seq<Tx>, cfg: Config, j: nat)
    requires j < |txs| && HashesNameOne(txs) && Tracks(t, txs, cfg, j)
    requires Decide(Run(EMPTY, txs, j, cfg), txs[j], cfg).IsAdmitted()
    ensures var t', tx := Admit(t, txs[j], cfg), txs[j];
      && WellFormed(t') && Occupied(t', tx.sender, tx.nonce)
      && HeldSince(txs, cfg, j + 1, Occupant(t', tx.sender, tx.nonce))
  {
    hide Tracks, HashesNameOne, HeldSince;
    var tx := txs[j];
    AdmitKeepsInvariants(t, tx, cfg);
    if Occupied(t, tx.sender, tx.nonce) {
      ReadmitToTakenSlot(t, txs, cfg, j);
    } else {
      ReadmitToFreeSlot(t, txs, cfg, j);
    }
    if Decide(t, tx, cfg).IsAdmitted() {
      AdmittedHoldsSlot(t, tx, cfg);
      AdmittedIsHeld(txs, cfg, j);
    }
  }

  /** Re-admitting what the run admitted at `j` keeps the state on track. */
  lemma ReadmissionTracks(t: ValidCore, txs: seq<Tx>, cfg: Config, j: nat)
    requires j < |txs| && HashesNameOne(txs) && Tracks(t, txs, cfg, j)
    requires Decide(Run(EMPTY, txs, j, cfg), txs[j], cfg).IsAdmitted()
    ensures WellFormed(Admit(t, txs[j], cfg)) && Tracks(Admit(t, txs[j], cfg), txs, cfg, j + 1)
  {
    hide HashesNameOne, HeldSince, Refilled, Bijective, Decide, Admit;
    var tx := txs[j];
    AdmitKeepsInvariants(t, tx, cfg);
    var t': ValidCore := Admit(t, tx, cfg);
    TouchedSlot(t, txs, cfg, j);
    forall s, n | s != tx.sender || n != tx.nonce
      ensures Occupied(t', s, n) ==> OnCourse(txs, cfg, j + 1, Occupant(t', s, n))
      ensures Occupied(RunAll(EMPTY, txs, cfg), s, n) && !Occupied(t', s, n) ==> Refilled(txs, cfg, j + 1, s, n)
    {
      OtherSlotsStay(t, tx, cfg, s, n);
      if Occupied(t', s, n) {
        OccupantFills(t, s, n);
        OnCourseElsewhere(txs, cfg, j, Occupant(t, s, n));
      } else if Occupied(RunAll(EMPTY, txs, cfg), s, n) {
        RefilledLater(txs, cfg, j, s, n);
      }
    }
  }

  /** A submission the run refused needs no re-admission. */
  lemma RefusalTracks(t: ValidCore, txs: seq<Tx>, cfg: Config, j: nat)
    requires j < |txs| && Tracks(t, txs, cfg, j)
    requires !Decide(Run(EMPTY, txs, j, cfg), txs[j], cfg).IsAdmitted()
    ensures Tracks(t, txs, cfg, j + 1)
  {
    hide HeldSince, Refilled, Bijective, Decide, Admit;
    forall s, n
      ensures Occupied(t, s, n) ==> OnCourse(txs, cfg, j + 1, Occupant(t, s, n))
      ensures Occupied(RunAll(EMPTY, txs, cfg), s, n) && !Occupied(t, s, n) ==> Refilled(txs, cfg, j + 1, s, n)
    {
      if Occupied(t, s, n) {
        OccupantFills(t, s, n);
        OnCourseElsewhere(txs, cfg, j, Occupant(t, s, n));
      } else if Occupied(RunAll(EMPTY, txs, cfg), s, n) {
        RefilledLater(txs, cfg, j, s, n);
      }
    }
  }

  /** At the end of the run a tracking state is the final state. */
  lemma TracksToTheEnd(t: ValidCore, txs: seq<Tx>, cfg: Config)
    requires Tracks(t, txs, cfg, |txs|)
    ensures t == RunAll(EMPTY, txs, cfg)
  {
    hide Bijective;
    var end := RunAll(EMPTY, txs, cfg);
    EmptyIsBijective();
    RunKeepsBijection(EMPTY, txs, |txs|, cfg);
    forall s, n ensures SameSlot(t, end, s, n) {
      if Occupied(t, s, n) {
        OccupantFills(t, s, n);
        assert OnCourse(txs, cfg, |txs|, Occupant(t, s, n));
      }
    }
    SlotsDetermineState(t, end);
  }

  // ---------------------------------------------------------------- snapshots are on track

  /** Whatever the snapshot lacks of the final state is filled in after it was taken. */
  ghost predicate LosesOnlyRefilled(t: ValidCore, txs: seq<Tx>, cfg: Config, taken: nat)
    requires taken <= |txs|
  {
    var c := Run(EMPTY, txs, taken, cfg);
    && (forall s, n :: Occupied(t, s, n) ==> SameSlot(t, c, s, n))
    && (forall s, n :: Occupied(c, s, n) && !Occupied(t, s, n) ==> Refilled(txs, cfg, taken, s, n))
  }

  /** Such a snapshot is on track from every earlier watermark on: the overlap does no harm. */
  lemma SnapshotTracks(t: ValidCore, txs: seq<Tx>, cfg: Config, taken: nat, j: nat)
    requires j <= taken <= |txs| && Bijective(t) && LosesOnlyRefilled(t, txs, cfg, taken)
    ensures Tracks(t, txs, cfg, j)
  {
    hide Bijective, AdmitsAt, Run;
    var c := Run(EMPTY, txs, taken, cfg);
    forall s, n | Occupied(t, s, n) ensures HeldSince(txs, cfg, j, Occupant(t, s, n)) {
      assert SameSlot(t, c, s, n);
      assert Holds(c, Occupant(t, s, n));
    }
    forall s, n | Occupied(RunAll(EMPTY, txs, cfg), s, n) && !Occupied(t, s, n)
      ensures Refilled(txs, cfg, j, s, n)
    {
      if !Occupied(c, s, n) {
        ChangedSlotRefilled(txs, cfg, taken, |txs|, s, n);
      }
      var i :| taken <= i < |txs| && AdmitsAt(txs, cfg, i, s, n);
      assert j <= i;
    }
  }

  lemma ChangedSlotRefilled(txs: seq<Tx>, cfg: Config, a: nat, b: nat, s: Address, n: U64)
    requires a <= b <= |txs| && !SameSlot(Run(EMPTY, txs, a, cfg), Run(EMPTY, txs, b, cfg), s, n)
    ensures Refilled(txs, cfg, a, s, n)
  {
    if !Refilled(txs, cfg, a, s, n) {
      SlotUnchanged(txs, cfg, a, b, s, n);
    }
  }

  /**
    Any part of an earlier state is on track from `j` on when each slot of the final state
    has its final occupant already or is filled from `j` on.
   */
  lemma CompletedTracks(t: ValidCore, txs: seq<Tx>, cfg: Config, taken: nat, j: nat)
    requires taken <= |txs| && j <= |txs| && Bijective(t)
    requires forall s, n :: Occupied(t, s, n) ==> SameSlot(t, Run(EMPTY, txs, taken, cfg), s, n)
    requires var end := RunAll(EMPTY, txs, cfg);
      forall s, n :: Occupied(end, s, n) ==> SameSlot(t, end, s, n) || Refilled(txs, cfg, j, s, n)
    ensures Tracks(t, txs, cfg, j)
  {
    hide Bijective, AdmitsAt, Run, Refilled;
    var c, end := Run(EMPTY, txs, taken, cfg), RunAll(EMPTY, txs, cfg);
    forall s, n | Occupied(t, s, n) ensures OnCourse(txs, cfg, j, Occupant(t, s, n)) {
      assert SameSlot(t, c, s, n);
      OccupantFills(t, s, n);
      assert Holds(c, Occupant(t, s, n));
      SlotHeldOn(txs, cfg, taken, |txs|, s, n);
      if SameSlot(t, end, s, n) {
        assert Holds(end, Occupant(t, s, n));
      }
    }
  }

  // ---------------------------------------------------------------- overlap without sanitising

  /** The state after re-admitting submissions `lo` to `j` of the run to `t`. */
  ghost function Readmitted(t: ValidCore, txs: seq<Tx>, lo: nat, j: nat, cfg: Config): ValidCore
    requires lo <= j <= |txs|
    decreases j
  {
    if j == lo then t
    else
      var earlier := Readmitted(t, txs, lo, j - 1, cfg);
      AdmitKeepsInvariants(earlier, txs[j - 1], cfg);
      Admit(earlier, txs[j - 1], cfg)
  }

  /** A state that fills every slot the run has filled by `j`, with holders from then or later. */
  ghost predicate CoversSlots(t: ValidCore, txs: seq<Tx>, cfg: Config, j: nat)
    requires j <= |txs|
  {
    && (forall s, n :: Occupied(Run(EMPTY, txs, j, cfg), s, n) ==> Occupied(t, s, n))
    && (forall s, n :: Occupied(t, s, n) ==> HeldSince(txs, cfg, j, Occupant(t, s, n)))
  }

  /** A slot the run already filled is at least as hard to take from its holder as from the run's occupant. */
  lemma HolderNotBelow(t: ValidCore, txs: seq<Tx>, cfg: Config, j: nat, s: Address, n: U64)
    requires j <= |txs| && CoversSlots(t, txs, cfg, j)
    requires Occupied(t, s, n) && Occupied(Run(EMPTY, txs, j, cfg), s, n)
    ensures NotBelow(Occupant(t, s, n), Occupant(Run(EMPTY, txs, j, cfg), s, n), cfg)
  {
    hide NotBelow, Admit;
    var i :| j <= i <= |txs| && Holds(Run(EMPTY, txs, i, cfg), Occupant(t, s, n));
    SlotHeldOn(txs, cfg, j, i, s, n);
  }

  /** A full queue of the run never takes another nonce. */
  lemma {:induction false} FullQueueFrozen(txs: seq<Tx>, cfg: Config, j: nat, i: nat, s: Address)
    requires j <= i <= |txs| && |QueueOf(Run(EMPTY, txs, j, cfg), s)| >= cfg.maxPendingPerSender
    ensures QueueOf(Run(EMPTY, txs, i, cfg), s).Keys == QueueOf(Run(EMPTY, txs, j, cfg), s).Keys
    decreases i
  {
    hide Admit;
    if j < i {
      FullQueueFrozen(txs, cfg, j, i - 1, s);
      SameSizeKeys(QueueOf(Run(EMPTY, txs, i - 1, cfg), s), QueueOf(Run(EMPTY, txs, j, cfg), s));
      QueueLengthStep(Run(EMPTY, txs, i - 1, cfg), txs[i - 1], cfg, s);
    }
  }

  lemma SameSizeKeys(a: Queue, b: Queue)
    requires a.Keys == b.Keys
    ensures |a| == |b|
  {
    assert |a| == |a.Keys| && |b| == |b.Keys|;
  }

  /** Refused at a taken slot then, refused there again, unless it is the occupant coming back. */
  lemma RefusedAtTakenSlot(t: ValidCore, txs: seq<Tx>, cfg: Config, j: nat)
    requires j < |txs| && HashesNameOne(txs) && CoversSlots(t, txs, cfg, j)
    requires !Decide(Run(EMPTY, txs, j, cfg), txs[j], cfg).IsAdmitted()
    requires Occupied(Run(EMPTY, txs, j, cfg), txs[j].sender, txs[j].nonce)
    ensures !Decide(t, txs[j], cfg).IsAdmitted() || Holds(Run(EMPTY, txs, j, cfg), txs[j])
  {
    hide HashesNameOne, Run;
    var tx, c := txs[j], Run(EMPTY, txs, j, cfg);
    HolderNotBelow(t, txs, cfg, j, tx.sender, tx.nonce);
    RefusedFee(c, txs, cfg, j);
    if tx.hash !in t.pending && !Holds(c, tx) {
      HigherBidRefuses(t, tx, cfg);
    }
  }

  /** A refused transaction is its slot's occupant, or bids below the occupant's threshold. */
  lemma RefusedFee(c: ValidCore, txs: seq<Tx>, cfg: Config, j: nat)
    requires j < |txs| && HashesNameOne(txs) && c == Run(EMPTY, txs, j, cfg)
    requires Occupied(c, txs[j].sender, txs[j].nonce) && !Decide(c, txs[j], cfg).IsAdmitted()
    ensures var occupant := Occupant(c, txs[j].sender, txs[j].nonce);
      txs[j] == occupant || txs[j].Fee() < Threshold(occupant.Fee(), cfg.bumpBps)
  {
    hide Run;
    var tx := txs[j];
    if tx.hash in c.pending {
      KnownInRun(txs, cfg, j, tx);
      assert Queued(c, tx);
      OccupantHash(c, tx.sender, tx.nonce);
    }
  }

  lemma KnownInRun(txs: seq<Tx>, cfg: Config, j: nat, tx: Tx)
    requires j <= |txs| && HashesNameOne(txs) && tx in txs && tx.hash in Run(EMPTY, txs, j, cfg).pending
    ensures Bijective(Run(EMPTY, txs, j, cfg)) && Run(EMPTY, txs, j, cfg).pending[tx.hash] == tx
  {
    EmptyIsBijective();
    RunKeepsBijection(EMPTY, txs, j, cfg);
    RunComesFrom(txs, cfg, j);
    KnownByHash(Run(EMPTY, txs, j, cfg), txs, j, tx);
  }

  lemma PendingOccupies(txs: seq<Tx>, cfg: Config, j: nat, tx: Tx)
    requires j <= |txs| && HashesNameOne(txs) && tx in txs
    ensures tx.hash in Run(EMPTY, txs, j, cfg).pending ==> Occupied(Run(EMPTY, txs, j, cfg), tx.sender, tx.nonce)
  {
    if tx.hash in Run(EMPTY, txs, j, cfg).pending {
      KnownInRun(txs, cfg, j, tx);
      assert Queued(Run(EMPTY, txs, j, cfg), tx);
    }
  }

  /** Refused by a full queue then, refused again. */
  lemma RefusedByFullQueue(t: ValidCore, txs: seq<Tx>, cfg: Config, j: nat)
    requires j < |txs| && HashesNameOne(txs) && CoversSlots(t, txs, cfg, j)
    requires !Decide(Run(EMPTY, txs, j, cfg), txs[j], cfg).IsAdmitted()
    requires !Occupied(Run(EMPTY, txs, j, cfg), txs[j].sender, txs[j].nonce)
    ensures !Decide(t, txs[j], cfg).IsAdmitted()
  {
    hide Tracks, HashesNameOne, Run;
    var tx, c := txs[j], Run(EMPTY, txs, j, cfg);
    PendingOccupies(txs, cfg, j, tx);
    assert |QueueOf(c, tx.sender)| >= cfg.maxPendingPerSender;
    if Occupied(t, tx.sender, tx.nonce) {
      var i :| j <= i <= |txs| && Holds(Run(EMPTY, txs, i, cfg), Occupant(t, tx.sender, tx.nonce));
      FullQueueFrozen(txs, cfg, j, i, tx.sender);
    } else {
      forall n | n in QueueOf(c, tx.sender) ensures n in QueueOf(t, tx.sender) {
        assert Occupied(c, tx.sender, n);
      }
      Counting.SubsetSize(QueueOf(c, tx.sender).Keys, QueueOf(t, tx.sender).Keys);
      SameSizeKeys(QueueOf(t, tx.sender), QueueOf(t, tx.sender));
    }
  }

  /** Holders of untouched slots keep holding them at some point after `j`. */
  lemma StillHeld(t: ValidCore, txs: seq<Tx>, cfg: Config, j: nat)
    requires j < |txs| && CoversSlots(t, txs, cfg, j) && WellFormed(Admit(t, txs[j], cfg))
    requires Decide(t, txs[j], cfg).IsAdmitted() || Decide(Run(EMPTY, txs, j, cfg), txs[j], cfg).IsAdmitted() ==>
      var t', tx := Admit(t, txs[j], cfg), txs[j];
      Occupied(t', tx.sender, tx.nonce) && HeldSince(txs, cfg, j + 1, Occupant(t', tx.sender, tx.nonce))
    ensures var t' := Admit(t, txs[j], cfg);
      forall s, n :: Occupied(t', s, n) ==> HeldSince(txs, cfg, j + 1, Occupant(t', s, n))
  {
    hide Decide, HeldSince, Run, Admit;
    var t', tx := Admit(t, txs[j], cfg), txs[j];
    forall s, n | Occupied(t', s, n) ensures HeldSince(txs, cfg, j + 1, Occupant(t', s, n)) {
      if !AdmitsAt(txs, cfg, j, s, n) && !(Decide(t, tx, cfg).IsAdmitted() && s == tx.sender && n == tx.nonce) {
        OtherSlotsStay(t, tx, cfg, s, n);
        OccupantFills(t, s, n);
        HeldElsewhere(txs, cfg, j, Occupant(t, s, n));
      }
    }
  }

  lemma RefusedStays(t: ValidCore, tx: Tx, cfg: Config)
    requires !Decide(t, tx, cfg).IsAdmitted()
    ensures Admit(t, tx, cfg) == t
  {
  }

  /** Re-admitting a transaction that is on course keeps a state on track. */
  lemma OnCourseTracks(t: ValidCore, txs: seq<Tx>, cfg: Config, j: nat, tx: Tx)
    requires j <= |txs| && Tracks(t, txs, cfg, j) && OnCourse(txs, cfg, j, tx)
    ensures WellFormed(Admit(t, tx, cfg)) && Tracks(Admit(t, tx, cfg), txs, cfg, j)
  {
    hide OnCourse, Refilled, Bijective, Decide, Admit;
    AdmitKeepsInvariants(t, tx, cfg);
    var t': ValidCore := Admit(t, tx, cfg);
    if Decide(t, tx, cfg).IsAdmitted() {
      AdmittedHoldsSlot(t, tx, cfg);
    }
    forall s, n
      ensures Occupied(t', s, n) ==> OnCourse(txs, cfg, j, Occupant(t', s, n))
      ensures Occupied(RunAll(EMPTY, txs, cfg), s, n) && !Occupied(t', s, n) ==> Refilled(txs, cfg, j, s, n)
    {
      if !(Decide(t, tx, cfg).IsAdmitted() && s == tx.sender && n == tx.nonce) {
        OtherSlotsStay(t, tx, cfg, s, n);
      }
    }
  }

  /** A refused submission that is admitted again is the occupant the run had then. */
  lemma OccupantComesBack(t: ValidCore, txs: seq<Tx>, cfg: Config, j: nat)
    requires j < |txs| && Tracks(t, txs, cfg, j + 1) && Holds(Run(EMPTY, txs, j, cfg), txs[j])
    requires !Decide(Run(EMPTY, txs, j, cfg), txs[j], cfg).IsAdmitted() && Decide(t, txs[j], cfg).IsAdmitted()
    ensures var t', tx := Admit(t, txs[j], cfg), txs[j];
      && WellFormed(t') && Tracks(t', txs, cfg, j + 1) && Occupied(t', tx.sender, tx.nonce)
      && HeldSince(txs, cfg, j + 1, Occupant(t', tx.sender, tx.nonce))
  {
    hide Tracks, Decide, Admit;
    RefusedStays(Run(EMPTY, txs, j, cfg), txs[j], cfg);
    assert Holds(Run(EMPTY, txs, j + 1, cfg), txs[j]);
    OnCourseTracks(t, txs, cfg, j + 1, txs[j]);
    AdmittedHoldsSlot(t, txs[j], cfg);
  }

  /** Re-admitting any submission of the run, admitted then or not, keeps a covering state on track. */
  lemma AnyReadmissionTracks(t: ValidCore, txs: seq<Tx>, cfg: Config, j: nat)
    requires j < |txs| && HashesNameOne(txs) && Tracks(t, txs, cfg, j) && CoversSlots(t, txs, cfg, j)
    ensures var t' := Admit(t, txs[j], cfg);
      WellFormed(t') && Tracks(t', txs, cfg, j + 1) && CoversSlots(t', txs, cfg, j + 1)
  {
    hide Tracks, HashesNameOne, Decide, Bijective, HeldSince;
    var tx, c := txs[j], Run(EMPTY, txs, j, cfg);
    AdmitKeepsInvariants(t, tx, cfg);
    if Decide(c, tx, cfg).IsAdmitted() {
      ReadmissionTracks(t, txs, cfg, j);
      TouchedSlot(t, txs, cfg, j);
    } else {
      if Occupied(c, tx.sender, tx.nonce) {
        RefusedAtTakenSlot(t, txs, cfg, j);
      } else {
        RefusedByFullQueue(t, txs, cfg, j);
      }
      RefusalTracks(t, txs, cfg, j);
      if Decide(t, tx, cfg).IsAdmitted() {
        OccupantComesBack(t, txs, cfg, j);
      } else {
        RefusedStays(t, tx, cfg);
      }
    }
    StillHeld(t, txs, cfg, j);
    forall s, n | Occupied(Run(EMPTY, txs, j + 1, cfg), s, n) ensures Occupied(Admit(t, tx, cfg), s, n) {
      SlotStep(c, tx, cfg, s, n);
      SlotStep(t, tx, cfg, s, n);
    }
  }

  lemma {:induction false} ReadmittedTracks(t: ValidCore, txs: seq<Tx>, cfg: Config, lo: nat, j: nat)
    requires lo <= j <= |txs| && HashesNameOne(txs) && Tracks(t, txs, cfg, lo) && CoversSlots(t, txs, cfg, lo)
    ensures Tracks(Readmitted(t, txs, lo, j, cfg), txs, cfg, j)
    ensures CoversSlots(Readmitted(t, txs, lo, j, cfg), txs, cfg, j)
    decreases j
  {
    hide Tracks, HashesNameOne, CoversSlots, Admit;
    if lo < j {
      ReadmittedTracks(t, txs, cfg, lo, j - 1);
      AnyReadmissionTracks(Readmitted(t, txs, lo, j - 1, cfg), txs, cfg, j - 1);
    }
  }

  lemma {:induction false} ReadmittedIsRun(t: ValidCore, txs: seq<Tx>, lo: nat, i: nat, cfg: Config)
    requires lo + i <= |txs|
    ensures Run(t, txs[lo..], i, cfg) == Readmitted(t, txs, lo, lo + i, cfg)
  {
    hide Admit;
    if i > 0 {
      ReadmittedIsRun(t, txs, lo, i - 1, cfg);
    }
  }

  /**
    Overlapping recovery without sanitising. A snapshot taken after `taken` admissions but
    stamped with an earlier watermark, followed by admitting everything after the
    watermark again, whatever its first outcome was, ends in the uninterrupted run's state.
   */
  lemma OverlapIsHarmless(txs: seq<Tx>, cfg: Config, watermark: nat, taken: nat)
    requires watermark <= taken <= |txs| && HashesNameOne(txs)
    ensures RunAll(Run(EMPTY, txs, taken, cfg), txs[watermark..], cfg) == RunAll(EMPTY, txs, cfg)
  {
    hide Tracks, CoversSlots, HashesNameOne, Admit, Bijective;
    var t := Run(EMPTY, txs, taken, cfg);
    EmptyIsBijective();
    RunKeepsBijection(EMPTY, txs, taken, cfg);
    SnapshotLosesNothing(txs, cfg, watermark, taken);
    SnapshotTracks(t, txs, cfg, taken, watermark);
    ReadmittedTracks(t, txs, cfg, watermark, |txs|);
    TracksToTheEnd(Readmitted(t, txs, watermark, |txs|, cfg), txs, cfg);
    ReadmittedIsRun(t, txs, watermark, |txs| - watermark, cfg);
  }

  lemma SnapshotLosesNothing(txs: seq<Tx>, cfg: Config, watermark: nat, taken: nat)
    requires watermark <= taken <= |txs|
    ensures LosesOnlyRefilled(Run(EMPTY, txs, taken, cfg), txs, cfg, taken)
    ensures CoversSlots(Run(EMPTY, txs, taken, cfg), txs, cfg, watermark)
  {
    hide Admit, Decide;
    forall s, n | Occupied(Run(EMPTY, txs, watermark, cfg), s, n) ensures Occupied(Run(EMPTY, txs, taken, cfg), s, n) {
      SlotHeldOn(txs, cfg, watermark, taken, s, n);
    }
  }
}
