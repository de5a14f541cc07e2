/**
  Restarts that replay reorgs. A reorged transaction is re-admitted from its stored row,
  at whatever point of the log it was reorged and however often.
 */
module Reorged {
  import opened Prelude
  import opened SchedulerModel
  import opened EventLog
  import opened EventStore
  import opened Fees
  import opened History
  import opened Lists
  import opened LogRefinement
  import opened Recovery
  import opened Rehydration
  import opened Snapshot
  import opened Sanitize
  import opened Restart
  import opened Bootstrap
  import opened ReplayFrames
  import Counting

  // ---------------------------------------------------------------- any list of admitted transactions

  /** A state every one of whose entries held its slot at some point of the run. */
  ghost predicate Within(t: ValidCore, txs: seq<Tx>, cfg: Config) {
    Bijective(t) && forall s, n :: Occupied(t, s, n) ==> HeldSince(txs, cfg, 0, Occupant(t, s, n))
  }

  lemma WithinIsFinal(t: ValidCore, txs: seq<Tx>, cfg: Config, s: Address, n: U64)
    requires Within(t, txs, cfg) && Occupied(t, s, n)
    ensures Occupied(RunAll(EMPTY, txs, cfg), s, n)
  {
    hide Admit, Bijective;
    OccupantFills(t, s, n);
    var i :| 0 <= i <= |txs| && Holds(Run(EMPTY, txs, i, cfg), Occupant(t, s, n));
    SlotHeldOn(txs, cfg, i, |txs|, s, n);
  }

  lemma WithinHoldsOwnSlot(t: ValidCore, txs: seq<Tx>, cfg: Config, tx: Tx)
    requires Within(t, txs, cfg) && HashesNameOne(txs) && tx in txs && tx.hash in t.pending
    ensures Holds(t, tx)
  {
    hide HashesNameOne, HeldSince;
    PendingHolds(t, tx.hash);
    var held := t.pending[tx.hash];
    HeldComesFrom(txs, cfg, 0, held);
    SameHashSameTx(txs, held, tx);
  }

  /** Admitting what held its slot at some point of the run stays within the run. */
  lemma StaysWithin(t: ValidCore, txs: seq<Tx>, cfg: Config, tx: Tx)
    requires Within(t, txs, cfg) && HeldSince(txs, cfg, 0, tx)
    ensures WellFormed(Admit(t, tx, cfg)) && Within(Admit(t, tx, cfg), txs, cfg)
  {
    hide HeldSince, Bijective, Decide, Admit;
    AdmitKeepsInvariants(t, tx, cfg);
    var t': ValidCore := Admit(t, tx, cfg);
    if Decide(t, tx, cfg).IsAdmitted() {
      AdmittedHoldsSlot(t, tx, cfg);
    }
    forall s, n | Occupied(t', s, n) ensures HeldSince(txs, cfg, 0, Occupant(t', s, n)) {
      if !(Decide(t, tx, cfg).IsAdmitted() && s == tx.sender && n == tx.nonce) {
        OtherSlotsStay(t, tx, cfg, s, n);
      }
    }
  }

  /** Who holds the transaction's slot in the end. */
  ghost function Final(txs: seq<Tx>, cfg: Config, tx: Tx): Tx
    requires Occupied(RunAll(EMPTY, txs, cfg), tx.sender, tx.nonce)
  {
    Occupant(RunAll(EMPTY, txs, cfg), tx.sender, tx.nonce)
  }

  /** The transaction is not its slot's final occupant, but bids enough to replace it. */
  ghost predicate Challenges(txs: seq<Tx>, cfg: Config, tx: Tx) {
    && Occupied(RunAll(EMPTY, txs, cfg), tx.sender, tx.nonce)
    && Final(txs, cfg, tx).hash != tx.hash
    && tx.Fee() >= Threshold(Final(txs, cfg, tx).Fee(), cfg.bumpBps)
  }

  /** No holder of a slot was harder to replace than its final occupant. */
  lemma FinalNotBelow(txs: seq<Tx>, cfg: Config, tx: Tx)
    requires HeldSince(txs, cfg, 0, tx)
    ensures Occupied(RunAll(EMPTY, txs, cfg), tx.sender, tx.nonce) && NotBelow(Final(txs, cfg, tx), tx, cfg)
  {
    hide Admit, NotBelow;
    var i :| 0 <= i <= |txs| && Holds(Run(EMPTY, txs, i, cfg), tx);
    SlotHeldOn(txs, cfg, i, |txs|, tx.sender, tx.nonce);
  }

  /** The final occupant bid enough to replace every other holder before it. */
  lemma {:induction false} FinalBids(txs: seq<Tx>, cfg: Config, i: nat, j: nat, s: Address, n: U64)
    requires i <= j <= |txs| && Occupied(Run(EMPTY, txs, i, cfg), s, n)
    ensures var first := Occupant(Run(EMPTY, txs, i, cfg), s, n);
      && Occupied(Run(EMPTY, txs, j, cfg), s, n)
      && var last := Occupant(Run(EMPTY, txs, j, cfg), s, n);
         last == first || last.Fee() >= Threshold(first.Fee(), cfg.bumpBps)
    decreases j
  {
    hide Admit, Decide, Threshold, NotBelow, Occupied, Occupant;
    if i < j {
      FinalBids(txs, cfg, i, j - 1, s, n);
      SlotHeldOn(txs, cfg, i, j - 1, s, n);
      SlotBids(Run(EMPTY, txs, j - 1, cfg), txs[j - 1], cfg, s, n, Occupant(Run(EMPTY, txs, i, cfg), s, n));
    }
  }

  lemma SlotBids(c: ValidCore, tx: Tx, cfg: Config, s: Address, n: U64, first: Tx)
    requires Occupied(c, s, n) && NotBelow(Occupant(c, s, n), first, cfg)
    requires Occupant(c, s, n) == first || Occupant(c, s, n).Fee() >= Threshold(first.Fee(), cfg.bumpBps)
    ensures WellFormed(Admit(c, tx, cfg)) && Occupied(Admit(c, tx, cfg), s, n)
    ensures var last := Occupant(Admit(c, tx, cfg), s, n);
      last == first || last.Fee() >= Threshold(first.Fee(), cfg.bumpBps)
  {
    hide Admit, Decide, Threshold;
    SlotStep(c, tx, cfg, s, n);
  }

  lemma HeldIsOutbid(txs: seq<Tx>, cfg: Config, tx: Tx)
    requires HeldSince(txs, cfg, 0, tx)
    ensures Occupied(RunAll(EMPTY, txs, cfg), tx.sender, tx.nonce)
    ensures Final(txs, cfg, tx) == tx || Final(txs, cfg, tx).Fee() >= Threshold(tx.Fee(), cfg.bumpBps)
  {
    hide Run, Threshold;
    var i :| 0 <= i <= |txs| && Holds(Run(EMPTY, txs, i, cfg), tx);
    FinalBids(txs, cfg, i, |txs|, tx.sender, tx.nonce);
  }

  /** Once a slot holds its final occupant, only a challenger takes it. */
  lemma FinalStays(t: ValidCore, txs: seq<Tx>, cfg: Config, tx: Tx, s: Address, n: U64)
    requires !Challenges(txs, cfg, tx) && Occupied(t, s, n) && Occupied(RunAll(EMPTY, txs, cfg), s, n)
    requires SameSlot(t, RunAll(EMPTY, txs, cfg), s, n) && Occupant(RunAll(EMPTY, txs, cfg), s, n).hash != tx.hash
    ensures WellFormed(Admit(t, tx, cfg)) && SameSlot(Admit(t, tx, cfg), RunAll(EMPTY, txs, cfg), s, n)
  {
    hide Admit, Run, Threshold;
    AdmitKeepsInvariants(t, tx, cfg);
    if s == tx.sender && n == tx.nonce {
      if tx.hash !in t.pending {
        HigherBidRefuses(t, tx, cfg);
      }
      RefusedStays(t, tx, cfg);
    } else {
      OtherSlotsStay(t, tx, cfg, s, n);
    }
  }

  /** A held transaction that bids enough takes its slot from any holder, or finds it free. */
  lemma BidTakesSlot(t: ValidCore, txs: seq<Tx>, cfg: Config, tx: Tx)
    requires HashesNameOne(txs) && Within(t, txs, cfg) && HeldSince(txs, cfg, 0, tx)
    requires forall y :: Holds(t, y) && y.sender == tx.sender && y.nonce == tx.nonce && y != tx ==>
      tx.Fee() >= Threshold(y.Fee(), cfg.bumpBps)
    ensures WellFormed(Admit(t, tx, cfg)) && Holds(Admit(t, tx, cfg), tx)
  {
    hide Admit, Run, HashesNameOne, Within, HeldSince, Threshold;
    AdmitKeepsInvariants(t, tx, cfg);
    HeldComesFrom(txs, cfg, 0, tx);
    if tx.hash in t.pending {
      WithinHoldsOwnSlot(t, txs, cfg, tx);
      RefusedStays(t, tx, cfg);
    } else {
      if Occupied(t, tx.sender, tx.nonce) {
        HolderYields(t, tx, cfg);
      } else {
        HeldIsOutbid(txs, cfg, tx);
        forall k | Occupied(t, tx.sender, k) ensures Occupied(RunAll(EMPTY, txs, cfg), tx.sender, k) {
          WithinIsFinal(t, txs, cfg, tx.sender, k);
        }
        RoomLeft(t, txs, cfg, tx.sender, tx.nonce);
      }
      AdmittedHoldsSlot(t, tx, cfg);
    }
  }

  lemma HolderYields(t: ValidCore, tx: Tx, cfg: Config)
    requires Occupied(t, tx.sender, tx.nonce) && tx.hash !in t.pending
    requires forall y :: Holds(t, y) && y.sender == tx.sender && y.nonce == tx.nonce && y != tx ==>
      tx.Fee() >= Threshold(y.Fee(), cfg.bumpBps)
    ensures Decide(t, tx, cfg).IsAdmitted()
  {
    hide Threshold;
    var y := Occupant(t, tx.sender, tx.nonce);
    OccupantFills(t, tx.sender, tx.nonce);
    OccupantIsPending(t, tx.sender, tx.nonce);
    assert Holds(t, y);
    ThresholdReplaces(t, tx, cfg);
  }

  lemma HolderIsHeld(t: ValidCore, txs: seq<Tx>, cfg: Config, y: Tx)
    requires Within(t, txs, cfg) && Holds(t, y)
    ensures HeldSince(txs, cfg, 0, y)
  {
  }

  /** The final occupant of a slot takes it whenever it comes. */
  lemma FinalTakesSlot(t: ValidCore, txs: seq<Tx>, cfg: Config, s: Address, n: U64)
    requires HashesNameOne(txs) && Within(t, txs, cfg) && Occupied(RunAll(EMPTY, txs, cfg), s, n)
    ensures var end := RunAll(EMPTY, txs, cfg);
      var t' := Admit(t, Occupant(end, s, n), cfg);
      WellFormed(t') && SameSlot(t', end, s, n)
  {
    hide Admit, Run, HashesNameOne, Within, HeldSince, Threshold;
    var end := RunAll(EMPTY, txs, cfg);
    var final := Occupant(end, s, n);
    OccupantFills(end, s, n);
    FinalIsHeld(txs, cfg, s, n);
    forall y | Holds(t, y) && y.sender == s && y.nonce == n && y != final
      ensures final.Fee() >= Threshold(y.Fee(), cfg.bumpBps)
    {
      HolderIsHeld(t, txs, cfg, y);
      HeldIsOutbid(txs, cfg, y);
    }
    BidTakesSlot(t, txs, cfg, final);
  }

  lemma FinalIsHeld(txs: seq<Tx>, cfg: Config, s: Address, n: U64)
    requires Occupied(RunAll(EMPTY, txs, cfg), s, n)
    ensures HeldSince(txs, cfg, 0, Occupant(RunAll(EMPTY, txs, cfg), s, n))
  {
    hide Run;
    var end := RunAll(EMPTY, txs, cfg);
    OccupantFills(end, s, n);
    assert Holds(end, Occupant(end, s, n));
  }

  /** A challenger takes its slot whenever it comes. */
  lemma ChallengerTakesSlot(t: ValidCore, txs: seq<Tx>, cfg: Config, tx: Tx)
    requires HashesNameOne(txs) && Within(t, txs, cfg) && HeldSince(txs, cfg, 0, tx) && Challenges(txs, cfg, tx)
    ensures WellFormed(Admit(t, tx, cfg)) && Holds(Admit(t, tx, cfg), tx)
  {
    hide Admit, Run, HashesNameOne, Within, HeldSince, Threshold;
    forall y | Holds(t, y) && y.sender == tx.sender && y.nonce == tx.nonce && y != tx
      ensures tx.Fee() >= Threshold(y.Fee(), cfg.bumpBps)
    {
      HolderIsHeld(t, txs, cfg, y);
      FinalNotBelow(txs, cfg, y);
    }
    BidTakesSlot(t, txs, cfg, tx);
  }

  // ---------------------------------------------------------------- which lists lead to the end

  /** The hash of some transaction listed at positions `from` to `i`. */
  ghost predicate Contains(list: seq<Tx>, from: nat, i: nat, h: TxHash)
    requires i <= |list|
  {
    exists k :: from <= k < i && list[k].hash == h
  }

  /** The transaction challenges for the slot of `final`. */
  ghost predicate ChallengesSlot(txs: seq<Tx>, cfg: Config, tx: Tx, final: Tx) {
    Challenges(txs, cfg, tx) && tx.sender == final.sender && tx.nonce == final.nonce
  }

  /** Of the first `i`, every challenger for the slot of `final` is followed by `final` itself. */
  ghost predicate Answered(txs: seq<Tx>, cfg: Config, list: seq<Tx>, i: nat, final: Tx)
    requires i <= |list|
  {
    forall k :: 0 <= k < i && ChallengesSlot(txs, cfg, list[k], final) ==> Contains(list, k + 1, i, final.hash)
  }

  /** The final occupant was there or has come, and has answered all challengers. */
  ghost predicate Due(txs: seq<Tx>, cfg: Config, start: ValidCore, list: seq<Tx>, i: nat, final: Tx)
    requires i <= |list|
  {
    (final.hash in start.pending || Contains(list, 0, i, final.hash)) && Answered(txs, cfg, list, i, final)
  }

  /** Every final occupant that is due is in its slot. */
  ghost predicate Settled(t: ValidCore, start: ValidCore, txs: seq<Tx>, cfg: Config, list: seq<Tx>, i: nat)
    requires i <= |list|
  {
    var end := RunAll(EMPTY, txs, cfg);
    forall s, n :: Occupied(end, s, n) && Due(txs, cfg, start, list, i, Occupant(end, s, n)) ==> SameSlot(t, end, s, n)
  }

  /** Unless it comes now, a final occupant that is due was due before, and has not just been challenged. */
  lemma DueBefore(txs: seq<Tx>, cfg: Config, start: ValidCore, list: seq<Tx>, i: nat, final: Tx)
    requires i < |list| && Due(txs, cfg, start, list, i + 1, final) && list[i].hash != final.hash
    ensures Due(txs, cfg, start, list, i, final)
    ensures list[i].sender == final.sender && list[i].nonce == final.nonce ==> !Challenges(txs, cfg, list[i])
  {
    hide Challenges;
    forall k | 0 <= k < i && ChallengesSlot(txs, cfg, list[k], final) ensures Contains(list, k + 1, i, final.hash) {
      assert Contains(list, k + 1, i + 1, final.hash);
    }
  }

  lemma SettledStep(t: ValidCore, start: ValidCore, txs: seq<Tx>, cfg: Config, list: seq<Tx>, i: nat)
    requires i < |list| && HashesNameOne(txs) && Within(t, txs, cfg) && HeldSince(txs, cfg, 0, list[i])
    requires Settled(t, start, txs, cfg, list, i)
    ensures WellFormed(Admit(t, list[i], cfg)) && Settled(Admit(t, list[i], cfg), start, txs, cfg, list, i + 1)
  {
    hide Admit, Run, HashesNameOne, Within, HeldSince, SameSlot, Due, Challenges;
    var end, tx := RunAll(EMPTY, txs, cfg), list[i];
    AdmitKeepsInvariants(t, tx, cfg);
    forall s, n | Occupied(end, s, n) && Due(txs, cfg, start, list, i + 1, Occupant(end, s, n))
      ensures SameSlot(Admit(t, tx, cfg), end, s, n)
    {
      var final := Occupant(end, s, n);
      OccupantFromRun(txs, cfg, |txs|, s, n);
      OccupantFills(end, s, n);
      HeldComesFrom(txs, cfg, 0, tx);
      if final.hash == tx.hash {
        SameHashSameTx(txs, final, tx);
        FinalTakesSlot(t, txs, cfg, s, n);
      } else {
        DueBefore(txs, cfg, start, list, i, final);
        SameSlotOccupied(t, end, s, n);
        if s == tx.sender && n == tx.nonce {
          FinalStays(t, txs, cfg, tx, s, n);
        } else {
          OtherSlotsStay(t, tx, cfg, s, n);
          SameSlotTwice(t, Admit(t, tx, cfg), end, s, n);
        }
      }
    }
  }

  lemma SameSlotTwice(a: ValidCore, b: ValidCore, c: ValidCore, s: Address, n: U64)
    requires SameSlot(a, b, s, n) && SameSlot(a, c, s, n)
    ensures SameSlot(b, c, s, n)
  {
  }

  lemma SameSlotOccupied(a: ValidCore, b: ValidCore, s: Address, n: U64)
    requires SameSlot(a, b, s, n) && Occupied(b, s, n)
    ensures Occupied(a, s, n)
  {
  }

  lemma {:induction false} SettledAlong(t: ValidCore, txs: seq<Tx>, cfg: Config, list: seq<Tx>, i: nat)
    requires i <= |list| && HashesNameOne(txs) && Within(t, txs, cfg)
    requires forall k :: 0 <= k < |list| ==> HeldSince(txs, cfg, 0, list[k])
    requires Settled(t, t, txs, cfg, list, 0)
    ensures Within(Run(t, list, i, cfg), txs, cfg) && Settled(Run(t, list, i, cfg), t, txs, cfg, list, i)
  {
    hide Admit, HashesNameOne, Within, HeldSince, Settled;
    if i > 0 {
      SettledAlong(t, txs, cfg, list, i - 1);
      StaysWithin(Run(t, list, i - 1, cfg), txs, cfg, list[i - 1]);
      SettledStep(Run(t, list, i - 1, cfg), t, txs, cfg, list, i - 1);
    }
  }

  lemma PartIsWithin(t: ValidCore, txs: seq<Tx>, cfg: Config, taken: nat)
    requires taken <= |txs| && PartOf(t, txs, cfg, taken)
    ensures Within(t, txs, cfg)
  {
    hide Bijective, Run;
    forall s, n | Occupied(t, s, n) ensures HeldSince(txs, cfg, 0, Occupant(t, s, n)) {
      assert SameSlot(t, Run(EMPTY, txs, taken, cfg), s, n);
      OccupantFills(t, s, n);
      assert Holds(Run(EMPTY, txs, taken, cfg), Occupant(t, s, n));
    }
  }

  lemma PartIsSettled(t: ValidCore, txs: seq<Tx>, cfg: Config, taken: nat, list: seq<Tx>)
    requires taken <= |txs| && HashesNameOne(txs) && PartOf(t, txs, cfg, taken)
    ensures Settled(t, t, txs, cfg, list, 0)
  {
    hide HashesNameOne, PartOf, Run, Answered;
    var end := RunAll(EMPTY, txs, cfg);
    forall s, n | Occupied(end, s, n) && Due(txs, cfg, t, list, 0, Occupant(end, s, n)) ensures SameSlot(t, end, s, n) {
      PartPendingIsFinal(t, txs, cfg, taken, s, n);
    }
  }

  /** Every transaction pending in the end is there already or is listed. */
  ghost predicate Supplied(t: ValidCore, end: ValidCore, list: seq<Tx>) {
    forall h :: h in end.pending ==> h in t.pending || Contains(list, 0, |list|, h)
  }

  /** A listed challenger is followed by the final occupant of its slot. */
  ghost predicate IsAnswered(txs: seq<Tx>, cfg: Config, list: seq<Tx>, k: nat)
    requires k < |list| && Challenges(txs, cfg, list[k])
  {
    Contains(list, k + 1, |list|, Final(txs, cfg, list[k]).hash)
  }

  /** Every listed challenger is answered. */
  ghost predicate ChallengersAnswered(txs: seq<Tx>, cfg: Config, list: seq<Tx>) {
    forall k :: 0 <= k < |list| && Challenges(txs, cfg, list[k]) ==> IsAnswered(txs, cfg, list, k)
  }

  lemma AnsweredAtEnd(txs: seq<Tx>, cfg: Config, list: seq<Tx>, s: Address, n: U64)
    requires ChallengersAnswered(txs, cfg, list) && Occupied(RunAll(EMPTY, txs, cfg), s, n)
    ensures Answered(txs, cfg, list, |list|, Occupant(RunAll(EMPTY, txs, cfg), s, n))
  {
    hide Run;
    OccupantFills(RunAll(EMPTY, txs, cfg), s, n);
  }

  /** An unanswered challenger keeps the final occupant out. */
  lemma UnansweredStays(t: ValidCore, txs: seq<Tx>, cfg: Config, list: seq<Tx>, k: nat)
    requires k < |list| && HashesNameOne(txs) && Within(Run(t, list, k, cfg), txs, cfg)
    requires HeldSince(txs, cfg, 0, list[k]) && Challenges(txs, cfg, list[k])
    requires !IsAnswered(txs, cfg, list, k)
    ensures Final(txs, cfg, list[k]).hash !in RunAll(t, list, cfg).pending
  {
    hide Admit, HashesNameOne, HeldSince, Challenges;
    var tx, before, after := list[k], Run(t, list, k, cfg), Run(t, list, k + 1, cfg);
    FinalHolds(txs, cfg, tx);
    ChallengerTakesSlot(before, txs, cfg, tx);
    StaysWithin(before, txs, cfg, tx);
    OustedIsGone(after, txs, cfg, tx);
    StaysOut(t, list, k + 1, |list|, cfg, Final(txs, cfg, tx).hash);
  }

  lemma FinalHolds(txs: seq<Tx>, cfg: Config, tx: Tx)
    requires Challenges(txs, cfg, tx)
    ensures Occupied(RunAll(EMPTY, txs, cfg), tx.sender, tx.nonce)
    ensures var final := Final(txs, cfg, tx);
      && final in txs && final.hash != tx.hash && final.sender == tx.sender && final.nonce == tx.nonce
  {
    hide Run;
    OccupantFromRun(txs, cfg, |txs|, tx.sender, tx.nonce);
    OccupantFills(RunAll(EMPTY, txs, cfg), tx.sender, tx.nonce);
  }

  lemma OustedIsGone(t: ValidCore, txs: seq<Tx>, cfg: Config, tx: Tx)
    requires HashesNameOne(txs) && Within(t, txs, cfg) && Holds(t, tx) && Challenges(txs, cfg, tx)
    ensures Final(txs, cfg, tx).hash !in t.pending
  {
    hide Run, HashesNameOne, Within;
    FinalHolds(txs, cfg, tx);
    if Final(txs, cfg, tx).hash in t.pending {
      WithinHoldsOwnSlot(t, txs, cfg, Final(txs, cfg, tx));
    }
  }

  lemma {:induction false} StaysOut(t: ValidCore, list: seq<Tx>, from: nat, i: nat, cfg: Config, h: TxHash)
    requires from <= i <= |list| && h !in Run(t, list, from, cfg).pending && !Contains(list, from, |list|, h)
    ensures h !in Run(t, list, i, cfg).pending
    decreases i
  {
    hide Admit;
    if from < i {
      StaysOut(t, list, from, i - 1, cfg, h);
      OnlyNewcomerAppears(Run(t, list, i - 1, cfg), list[i - 1], cfg, h);
    }
  }

  /**
    Whatever of the run's admitted transactions is re-admitted to a part of an earlier
    state, in whatever order and however often, at whatever bids: it ends in the run's state
    if and only if every transaction pending in the end was there or is re-admitted, and
    every one that bids enough to replace a slot's final occupant is followed by it.
   */
  lemma AnyReadmissionsIff(t: ValidCore, txs: seq<Tx>, cfg: Config, taken: nat, list: seq<Tx>)
    requires taken <= |txs| && HashesNameOne(txs) && PartOf(t, txs, cfg, taken)
    requires forall k :: 0 <= k < |list| ==> HeldSince(txs, cfg, 0, list[k])
    ensures var end := RunAll(EMPTY, txs, cfg);
      RunAll(t, list, cfg) == end <==> Supplied(t, end, list) && ChallengersAnswered(txs, cfg, list)
  {
    hide HashesNameOne, PartOf, HeldSince, Within, Run, Contains, SameSlot, Bijective, Challenges, Settled;
    var end := RunAll(EMPTY, txs, cfg);
    PartIsWithin(t, txs, cfg, taken);
    PartIsSettled(t, txs, cfg, taken, list);
    if Supplied(t, end, list) && ChallengersAnswered(txs, cfg, list) {
      SuppliedEnds(t, txs, cfg, list);
    }
    if RunAll(t, list, cfg) == end {
      forall h | h in end.pending && h !in t.pending ensures Contains(list, 0, |list|, h) {
        OnlySubmittedAppear(t, list, |list|, cfg, h);
        ContainsOne(list, h);
      }
      forall k | 0 <= k < |list| && Challenges(txs, cfg, list[k]) ensures IsAnswered(txs, cfg, list, k) {
        SettledAlong(t, txs, cfg, list, k);
        EndedIsAnswered(t, txs, cfg, list, k);
      }
    }
  }

  lemma EndedIsAnswered(t: ValidCore, txs: seq<Tx>, cfg: Config, list: seq<Tx>, k: nat)
    requires k < |list| && HashesNameOne(txs) && Within(Run(t, list, k, cfg), txs, cfg)
    requires HeldSince(txs, cfg, 0, list[k]) && Challenges(txs, cfg, list[k])
    requires RunAll(t, list, cfg) == RunAll(EMPTY, txs, cfg)
    ensures IsAnswered(txs, cfg, list, k)
  {
    hide Run, HashesNameOne, Within, HeldSince, Contains, Challenges;
    FinalHolds(txs, cfg, list[k]);
    FinalIsPending(txs, cfg, list[k]);
    if !IsAnswered(txs, cfg, list, k) {
      UnansweredStays(t, txs, cfg, list, k);
    }
  }

  lemma FinalIsPending(txs: seq<Tx>, cfg: Config, tx: Tx)
    requires Challenges(txs, cfg, tx)
    ensures Occupied(RunAll(EMPTY, txs, cfg), tx.sender, tx.nonce)
    ensures Final(txs, cfg, tx).hash in RunAll(EMPTY, txs, cfg).pending
  {
    hide Run;
    OccupantIsPending(RunAll(EMPTY, txs, cfg), tx.sender, tx.nonce);
  }

  lemma SuppliedEnds(t: ValidCore, txs: seq<Tx>, cfg: Config, list: seq<Tx>)
    requires HashesNameOne(txs) && Within(t, txs, cfg) && Settled(t, t, txs, cfg, list, 0)
    requires forall k :: 0 <= k < |list| ==> HeldSince(txs, cfg, 0, list[k])
    requires Supplied(t, RunAll(EMPTY, txs, cfg), list) && ChallengersAnswered(txs, cfg, list)
    ensures RunAll(t, list, cfg) == RunAll(EMPTY, txs, cfg)
  {
    hide HashesNameOne, HeldSince, Within, Run, Contains, SameSlot, Bijective, ChallengersAnswered, Answered;
    var end, last := RunAll(EMPTY, txs, cfg), RunAll(t, list, cfg);
    SettledAlong(t, txs, cfg, list, |list|);
    forall s, n ensures SameSlot(last, end, s, n) {
      if Occupied(end, s, n) {
        OccupantIsPending(end, s, n);
        AnsweredAtEnd(txs, cfg, list, s, n);
        assert Due(txs, cfg, t, list, |list|, Occupant(end, s, n));
      } else {
        NeitherOccupied(last, txs, cfg, s, n);
      }
    }
    WithinIsBijective(last, txs, cfg);
    EmptyIsBijective();
    RunKeepsBijection(EMPTY, txs, |txs|, cfg);
    SlotsDetermineState(last, end);
  }

  lemma NeitherOccupied(t: ValidCore, txs: seq<Tx>, cfg: Config, s: Address, n: U64)
    requires Within(t, txs, cfg) && !Occupied(RunAll(EMPTY, txs, cfg), s, n)
    ensures SameSlot(t, RunAll(EMPTY, txs, cfg), s, n)
  {
    hide Within, Run;
    if Occupied(t, s, n) {
      WithinIsFinal(t, txs, cfg, s, n);
    }
  }

  lemma WithinIsBijective(t: ValidCore, txs: seq<Tx>, cfg: Config)
    requires Within(t, txs, cfg)
    ensures Bijective(t)
  {
  }

  lemma ContainsOne(list: seq<Tx>, h: TxHash)
    requires exists j :: 0 <= j < |list| && list[j].hash == h
    ensures Contains(list, 0, |list|, h)
  {
  }

  /** With raising bids nobody challenges a final occupant. */
  lemma NobodyChallenges(txs: seq<Tx>, cfg: Config, tx: Tx)
    requires AllRaising(txs, cfg) && HeldSince(txs, cfg, 0, tx)
    ensures !Challenges(txs, cfg, tx)
  {
    hide Admit, Threshold;
    var i :| 0 <= i <= |txs| && Holds(Run(EMPTY, txs, i, cfg), tx);
    SlotChain(txs, cfg, i, |txs|, tx.sender, tx.nonce);
    RunComesFrom(txs, cfg, |txs|);
    OccupantRaises(RunAll(EMPTY, txs, cfg), txs, |txs|, cfg, tx.sender, tx.nonce);
    Raises(Occupant(RunAll(EMPTY, txs, cfg), tx.sender, tx.nonce).Fee(), cfg.bumpBps);
  }

  // ---------------------------------------------------------------- restarts that replay reorgs

  function IsNoReorg(): Payload -> bool {
    (p: Payload) => !p.TxReorged?
  }

  /** The log as it would be without its reorgs. */
  function WithoutReorgs(log: seq<Payload>): seq<Payload> {
    Retain(log, IsNoReorg())
  }

  /** Two parts of one log of the run as in `RecordsRun`, with any reorgs mixed in besides. */
  ghost predicate RecordsWithReorgs(txs: seq<Tx>, cfg: Config, unseen: seq<Payload>, seen: seq<Payload>) {
    RecordsRun(txs, cfg, WithoutReorgs(unseen), WithoutReorgs(seen))
  }

  /** Of the reorged transactions that have a row, the run admitted every one at some point. */
  ghost predicate ReorgsAdmitted(txs: seq<Tx>, cfg: Config, seen: seq<Payload>, rows: map<TxHash, Tx>) {
    forall p :: p in seen && p.TxReorged? && p.hash in rows ==> HeldSince(txs, cfg, 0, rows[p.hash])
  }

  lemma DecodedIsHeld(txs: seq<Tx>, cfg: Config, unseen: seq<Payload>, seen: seq<Payload>, tx: Tx)
    requires RecordsWithReorgs(txs, cfg, unseen, seen) && TxDecoded(tx) in seen
    ensures HeldSince(txs, cfg, 0, tx)
  {
    hide Log, Run, Recorded, RetainUpTo, Decide;
    var rest := WithoutReorgs(seen);
    RetainMembers(seen, IsNoReorg(), |seen|);
    RetainMembers(rest, IsRecording(), |rest|);
    RecordsOfLog(txs, cfg, |txs|);
    assert IsNoReorg()(TxDecoded(tx)) && IsRecording()(TxDecoded(tx));
    assert TxDecoded(tx) in rest;
    var j :| 0 <= j < |rest| && rest[j] == TxDecoded(tx);
    assert TxDecoded(tx) in Records(rest);
    var k :| 0 <= k < |Records(rest)| && Records(rest)[k] == TxDecoded(tx);
    var at := |Records(WithoutReorgs(unseen))| + k;
    assert Recorded(txs, cfg, |txs|)[at] == TxDecoded(tx);
    var i := DecodingSubmission(txs, cfg, |txs|, at);
    AdmittedIsHeld(txs, cfg, i);
  }

  /** Everything such a restart re-admits held its slot at some point of the run. */
  lemma {:induction false} ReplayedIsHeld(
      txs: seq<Tx>, cfg: Config, unseen: seq<Payload>, seen: seq<Payload>, rows: map<TxHash, Tx>, i: nat, k: nat)
    requires RecordsWithReorgs(txs, cfg, unseen, seen) && ReorgsAdmitted(txs, cfg, seen, rows)
    requires i <= |seen| && k < |ReplayTxsUpTo(seen, rows, i)|
    ensures HeldSince(txs, cfg, 0, ReplayTxsUpTo(seen, rows, i)[k])
  {
    hide RecordsWithReorgs, HeldSince;
    if k < |ReplayTxsUpTo(seen, rows, i - 1)| {
      ReplayedIsHeld(txs, cfg, unseen, seen, rows, i - 1, k);
    } else if seen[i - 1].TxDecoded? {
      assert seen[i - 1] == TxDecoded(seen[i - 1].tx);
      DecodedIsHeld(txs, cfg, unseen, seen, seen[i - 1].tx);
    } else {
      assert seen[i - 1] in seen;
    }
  }

  /**
    A restart that replays reorgs of transactions the run had admitted. Unless the snapshot
    is rejected for a broken ready run, it ends in the run's state if and only if every
    transaction pending in the end was kept or is re-admitted, by its decoding or its reorg,
    and the final occupant of a slot is re-admitted after every one that bids enough to
    replace it.
   */
  lemma ReorgedRestartIff(
      txs: seq<Tx>, cfg: Config, taken: nat, unseen: seq<Payload>, seen: seq<Payload>, watermark: U64,
      rows: map<TxHash, Tx>)
    requires taken <= |txs| && HashesNameOne(txs)
    requires RecordsWithReorgs(txs, cfg, unseen, seen) && ReorgsAdmitted(txs, cfg, seen, rows)
    ensures var c, end, removed := Run(EMPTY, txs, taken, cfg), RunAll(EMPTY, txs, cfg), Removed(seen);
      var start, list := StartState(Some(Persist(c).(eventSeqHi := watermark)), seen), ReplayTxs(seen, rows);
      if Counting.Classified(c, true) <= removed || RunsKept(c, removed) then
        && start == Success(Kept(c, removed)) && WellFormed(start.value)
        && (RunAll(start.value, list, cfg) == end <==>
            Supplied(start.value, end, list) && ChallengersAnswered(txs, cfg, list))
      else start == Failure(ExecutableFrontierMismatch)
  {
    hide HashesNameOne, RecordsWithReorgs, ReorgsAdmitted, RunsKept, Bijective, PartOf, Restore, Sanitized,
      Supplied, ChallengersAnswered, HeldSince, Removed, Kept, WellFormed, ReplayTxsUpTo, Run, Counting.Classified;
    var c, removed, list := Run(EMPTY, txs, taken, cfg), Removed(seen), ReplayTxs(seen, rows);
    EmptyIsBijective();
    RunKeepsBijection(EMPTY, txs, taken, cfg);
    SanitizedRestore(c, removed, watermark);
    KeptIsPart(txs, cfg, taken, removed);
    forall k | 0 <= k < |list| ensures HeldSince(txs, cfg, 0, list[k]) {
      ReplayedIsHeld(txs, cfg, unseen, seen, rows, |seen|, k);
    }
    AnyReadmissionsIff(Kept(c, removed), txs, cfg, taken, list);
  }

  lemma {:induction false} DecodedIsReplayed(events: seq<Payload>, rows: map<TxHash, Tx>, i: nat, h: TxHash)
    requires i <= |events| && exists k :: 0 <= k < i && events[k].TxDecoded? && events[k].tx.hash == h
    ensures Contains(ReplayTxsUpTo(events, rows, i), 0, |ReplayTxsUpTo(events, rows, i)|, h)
  {
    var earlier, all := ReplayTxsUpTo(events, rows, i - 1), ReplayTxsUpTo(events, rows, i);
    var last := events[i - 1];
    if last.TxDecoded? && last.tx.hash == h {
      assert all[|earlier|].hash == h;
    } else {
      DecodedIsReplayed(events, rows, i - 1, h);
      var k :| 0 <= k < |earlier| && earlier[k].hash == h;
      assert all[k] == earlier[k];
    }
  }

  lemma DecodedWithoutReorgs(seen: seq<Payload>, rows: map<TxHash, Tx>, h: TxHash)
    requires DecodedIn(WithoutReorgs(seen), h)
    ensures Contains(ReplayTxs(seen, rows), 0, |ReplayTxs(seen, rows)|, h)
  {
    hide RetainUpTo, ReplayTxsUpTo, Contains;
    var rest := WithoutReorgs(seen);
    RetainMembers(seen, IsNoReorg(), |seen|);
    var k :| 0 <= k < |rest| && rest[k].TxDecoded? && rest[k].tx.hash == h;
    assert rest[k] in rest;
    DecodedIsReplayed(seen, rows, |seen|, h);
  }

  /**
    With raising bids, and everything unseen recorded before the snapshot, reorgs do no
    harm: the restart ends in the run's state if and only if each transaction that is
    pending both in the snapshot and in the end, and is removed by an event the restart
    sees, is also decoded or reorged by one.
   */
  lemma ReorgsAreHarmless(
      txs: seq<Tx>, cfg: Config, taken: nat, unseen: seq<Payload>, seen: seq<Payload>, watermark: U64,
      rows: map<TxHash, Tx>)
    requires taken <= |txs| && HashesNameOne(txs) && AllRaising(txs, cfg)
    requires RecordsWithReorgs(txs, cfg, unseen, seen) && ReorgsAdmitted(txs, cfg, seen, rows)
    requires |Records(WithoutReorgs(unseen))| <= |Records(Log(EMPTY, txs, taken, cfg))|
    ensures var c, end, removed := Run(EMPTY, txs, taken, cfg), RunAll(EMPTY, txs, cfg), Removed(seen);
      var start, list := StartState(Some(Persist(c).(eventSeqHi := watermark)), seen), ReplayTxs(seen, rows);
      if Counting.Classified(c, true) <= removed || RunsKept(c, removed) then
        && start.Success? && WellFormed(start.value)
        && (RunAll(start.value, list, cfg) == end <==>
            forall h :: h in c.pending && h in end.pending && h in removed ==> Contains(list, 0, |list|, h))
      else start == Failure(ExecutableFrontierMismatch)
  {
    hide HashesNameOne, AllRaising, ReorgsAdmitted, RunsKept, Restore, Sanitized, WellFormed, Removed,
      DecodedIn, Contains, Challenges, HeldSince, ReplayTxsUpTo, Run, Log, Records, Counting.Classified;
    var c, end := Run(EMPTY, txs, taken, cfg), RunAll(EMPTY, txs, cfg);
    var removed, list := Removed(seen), ReplayTxs(seen, rows);
    ReorgedRestartIff(txs, cfg, taken, unseen, seen, watermark, rows);
    forall h | h in end.pending && h !in c.pending ensures Contains(list, 0, |list|, h) {
      NewcomersAreSeen(txs, cfg, taken, WithoutReorgs(unseen), WithoutReorgs(seen), h);
      DecodedWithoutReorgs(seen, rows, h);
    }
    forall k | 0 <= k < |list| ensures !Challenges(txs, cfg, list[k]) {
      ReplayedIsHeld(txs, cfg, unseen, seen, rows, |seen|, k);
      NobodyChallenges(txs, cfg, list[k]);
    }
    assert forall h :: h in Kept(c, removed).pending <==> h in c.pending && h !in removed;
  }

  // ---------------------------------------------------------------- reorgs in the event store

  /** The arrivals record the run, with any quiet and foreign events and reorgs mixed in. */
  ghost predicate StoresWithReorgs(arrivals: seq<Envelope>, txs: seq<Tx>, cfg: Config) {
    Numbered(arrivals) && Records(WithoutReorgs(Payloads(arrivals))) == Records(Log(EMPTY, txs, |txs|, cfg))
  }

  lemma {:induction false} WithoutReorgsConcat(a: seq<Payload>, b: seq<Payload>, i: nat)
    requires i <= |b|
    ensures RetainUpTo(a + b, IsNoReorg(), |a| + i) == WithoutReorgs(a) + RetainUpTo(b, IsNoReorg(), i)
  {
    if i == 0 {
      RetainPrefix(a, b, |a|);
    } else {
      WithoutReorgsConcat(a, b, i - 1);
      assert (a + b)[|a| + i - 1] == b[i - 1];
    }
  }

  lemma {:induction false} RetainPrefix(a: seq<Payload>, b: seq<Payload>, i: nat)
    requires i <= |a|
    ensures RetainUpTo(a + b, IsNoReorg(), i) == RetainUpTo(a, IsNoReorg(), i)
  {
    if i > 0 {
      RetainPrefix(a, b, i - 1);
    }
  }

  lemma CutWithReorgs(arrivals: seq<Envelope>, txs: seq<Tx>, cfg: Config, cut: nat)
    requires StoresWithReorgs(arrivals, txs, cfg) && cut <= |arrivals|
    ensures Numbered(arrivals)
    ensures RecordsWithReorgs(txs, cfg, Payloads(arrivals[..cut]), Payloads(arrivals[cut..]))
  {
    hide Log, RetainUpTo, Numbered;
    var unseen, seen := Payloads(arrivals[..cut]), Payloads(arrivals[cut..]);
    assert Payloads(arrivals) == unseen + seen;
    WithoutReorgsConcat(unseen, seen, |seen|);
    var rest := WithoutReorgs(seen);
    RecordsConcat(WithoutReorgs(unseen), rest, |rest|);
  }

  /** The executed restart with reorgs among the arrivals, for a ring of any capacity. */
  lemma BootstrapWithReorgsIff(
      txs: seq<Tx>, cfg: Config, taken: nat, arrivals: seq<Envelope>, capacity: nat, read: nat,
      rows: map<TxHash, Tx>)
    requires taken <= |txs| && HashesNameOne(txs) && read <= |arrivals| && StoresWithReorgs(arrivals, txs, cfg)
    requires ReorgsAdmitted(txs, cfg, Payloads(arrivals), rows)
    ensures var c, end := Run(EMPTY, txs, taken, cfg), RunAll(EMPTY, txs, cfg);
      var watermark := WatermarkAt(arrivals, capacity, read);
      var seen := Payloads(Seen(arrivals, capacity, watermark));
      var start, list := StartState(Some(Persist(c).(eventSeqHi := watermark)), seen), ReplayTxs(seen, rows);
      if Counting.Classified(c, true) <= Removed(seen) || RunsKept(c, Removed(seen)) then
        && start == Success(Kept(c, Removed(seen))) && WellFormed(start.value)
        && (RunAll(start.value, list, cfg) == end <==>
            Supplied(start.value, end, list) && ChallengersAnswered(txs, cfg, list))
      else start == Failure(ExecutableFrontierMismatch)
  {
    hide HashesNameOne, RecordsWithReorgs, RunsKept, StartState, Removed, Kept, Run, WellFormed, HeldSince,
      Supplied, ChallengersAnswered, Counting.Classified, LastOf, RetainUpTo, StoresWithReorgs, ReplayTxsUpTo;
    var watermark, cut := WatermarkAt(arrivals, capacity, read), CutAt(arrivals, capacity, read);
    CutWithReorgs(arrivals, txs, cfg, cut);
    SeenIsTail(arrivals, capacity, read);
    var unseen, seen := Payloads(arrivals[..cut]), Payloads(arrivals[cut..]);
    forall p | p in seen ensures p in Payloads(arrivals) {
      var k :| 0 <= k < |seen| && seen[k] == p;
      assert Payloads(arrivals)[cut + k] == p;
    }
    ReorgedRestartIff(txs, cfg, taken, unseen, seen, watermark, rows);
  }

  // ---------------------------------------------------------------- where reorgs do harm

  /** The state that holds one transaction. */
  function Single(tx: Tx): Core {
    Core(map[tx.hash := tx], map[tx.sender := map[tx.nonce := tx.hash]])
  }

  /** Two transactions that compete for one slot. */
  predicate Rivals(a: Tx, b: Tx) {
    a.hash != b.hash && a.sender == b.sender && a.nonce == b.nonce
  }

  lemma FirstTakes(tx: Tx, cfg: Config)
    requires cfg.maxPendingPerSender > 0
    ensures Admit(EMPTY, tx, cfg) == Single(tx)
  {
    assert |QueueOf(EMPTY, tx.sender)| == 0;
  }

  lemma SingleIsWellFormed(tx: Tx)
    ensures WellFormed(Single(tx)) && Bijective(Single(tx))
  {
    assert tx.nonce in Single(tx).queues[tx.sender].Keys;
  }

  lemma RivalDecides(a: Tx, b: Tx, cfg: Config)
    requires Rivals(a, b)
    ensures WellFormed(Single(a))
    ensures Admit(Single(a), b, cfg) == if b.Fee() >= Threshold(a.Fee(), cfg.bumpBps) then Single(b) else Single(a)
  {
    hide Threshold;
    SingleIsWellFormed(a);
    assert Occupied(Single(a), b.sender, b.nonce) && Occupant(Single(a), b.sender, b.nonce) == a;
    assert Remove(Single(a), a.hash).pending == map[];
    assert QueueOf(Single(a), b.sender)[b.nonce := b.hash] == map[b.nonce := b.hash];
    assert Put(Remove(Single(a), a.hash), b) == Single(b);
  }

  lemma ReadmitTwo(list: seq<Tx>, cfg: Config)
    requires |list| == 2 && Rivals(list[0], list[1]) && cfg.maxPendingPerSender > 0
    ensures RunAll(EMPTY, list, cfg) ==
      Single(list[if list[1].Fee() >= Threshold(list[0].Fee(), cfg.bumpBps) then 1 else 0])
  {
    hide Admit, Threshold, Single;
    FirstTakes(list[0], cfg);
    RivalDecides(list[0], list[1], cfg);
    assert Run(EMPTY, list, 0, cfg) == EMPTY;
    assert Run(EMPTY, list, 1, cfg) == Single(list[0]);
  }

  lemma {:induction false} ReplayOutcome(
      first: Payload, events: seq<Payload>, tx: Tx, a: Admission, rows: map<TxHash, Tx>, i: nat)
    requires first.TxReorged? && first.hash in rows && i <= |events| && WellShaped(events, tx, a)
    requires forall k :: 0 <= k < |events| ==> !events[k].TxReorged?
    ensures ReplayTxsUpTo([first] + events, rows, i + 1) ==
      [rows[first.hash]] + if a.IsAdmitted() && DecodedAt(a) < i then [tx] else []
  {
    var log := [first] + events;
    if i == 0 {
      assert ReplayTxsUpTo(log, rows, 0) == [] && log[0] == first;
    } else {
      ReplayOutcome(first, events, tx, a, rows, i - 1);
      assert log[i] == events[i - 1];
    }
  }

  lemma {:induction false} ReorgRemovesNothing(first: Payload, events: seq<Payload>, i: nat)
    requires first.TxReorged? && i <= |events|
    ensures RemovedUpTo([first] + events, i + 1) == RemovedUpTo(events, i)
  {
    var log := [first] + events;
    if i == 0 {
      assert RemovedUpTo(log, 0) == {} && log[0] == first;
    } else {
      ReorgRemovesNothing(first, events, i - 1);
      assert log[i] == events[i - 1];
    }
  }

  lemma LogHasNoReorg(txs: seq<Tx>, cfg: Config, i: nat)
    requires i <= |txs|
    ensures WithoutReorgs(Log(EMPTY, txs, i, cfg)) == Log(EMPTY, txs, i, cfg)
  {
    hide Log, Recorded, RetainUpTo;
    var log := Log(EMPTY, txs, i, cfg);
    RecordsOfLog(txs, cfg, i);
    RetainMembers(log, IsRecording(), |log|);
    forall p | p in log ensures IsNoReorg()(p) {
      if p.TxReorged? {
        assert IsRecording()(p);
        var j :| 0 <= j < |log| && log[j] == p;
        assert p in Records(log);
        var k :| 0 <= k < |Records(log)| && Records(log)[k] == p;
        NoReorgRecorded(txs, cfg, i, k);
      }
    }
    RetainAll(log, IsNoReorg(), |log|);
    assert log[..|log|] == log;
  }

  /** A reorg logged just before the events of the last submission. */
  lemma ReorgBeforeLast(txs: seq<Tx>, cfg: Config, first: Payload, events: seq<Payload>)
    requires |txs| > 0 && first.TxReorged? && events == StepEvents(txs, cfg, |txs| - 1)
    requires WellShaped(events, txs[|txs| - 1], StepAdmission(txs, cfg))
    requires forall k :: 0 <= k < |events| ==> !events[k].TxReorged?
    ensures RecordsWithReorgs(txs, cfg, Log(EMPTY, txs, |txs| - 1, cfg), [first] + events)
  {
    hide Log, Run, AdmitOutcome, OutcomeEvents, StepEvents, RetainUpTo, Records;
    RecordsOfLog(txs, cfg, |txs|);
    RecordsOfLog(txs, cfg, |txs| - 1);
    LogHasNoReorg(txs, cfg, |txs| - 1);
    OnlyFirstLeaves(first, events, |events|);
    assert events[..|events|] == events;
    forall p | p in events ensures IsRecording()(p) {
    }
    RetainAll(events, IsRecording(), |events|);
    RecordsIsWhole(events);
  }

  ghost function StepAdmission(txs: seq<Tx>, cfg: Config): Admission
    requires |txs| > 0
  {
    Decide(Run(EMPTY, txs, |txs| - 1, cfg), txs[|txs| - 1], cfg)
  }

  lemma {:induction false} OnlyFirstLeaves(first: Payload, events: seq<Payload>, i: nat)
    requires first.TxReorged? && i <= |events| && forall k :: 0 <= k < |events| ==> !events[k].TxReorged?
    ensures RetainUpTo([first] + events, IsNoReorg(), i + 1) == events[..i]
  {
    var log := [first] + events;
    if i == 0 {
      assert RetainUpTo(log, IsNoReorg(), 0) == [] && log[0] == first;
    } else {
      OnlyFirstLeaves(first, events, i - 1);
      assert log[i] == events[i - 1];
    }
  }

  lemma KeptOfSingle(tx: Tx, watermark: U64, seen: seq<Payload>)
    requires Removed(seen) == {tx.hash} || Removed(seen) == {}
    ensures StartState(Some(Persist(Single(tx)).(eventSeqHi := watermark)), seen) ==
      Success(if Removed(seen) == {} then Single(tx) else EMPTY)
  {
    hide Removed, Restore, Sanitized, Persist, RunsKept;
    var c, removed := Single(tx), Removed(seen);
    SingleIsWellFormed(tx);
    SanitizedRestore(c, removed, watermark);
    if removed == {} {
      NothingBroken(c);
    } else {
      assert KeptQueue(c.queues[tx.sender], removed) == map[];
      assert Kept(c, removed) == EMPTY;
      assert Counting.Classified(c, true) <= removed;
    }
  }

  lemma NothingBroken(c: Core)
    requires Bijective(c)
    ensures Kept(c, {}) == c && RunsKept(c, {})
  {
    hide RunsKept, Counting.Classified, Bijective;
    EveryQueueFilled(c);
    forall s | s in c.queues ensures KeptQueue(c.queues[s], {}) == c.queues[s] {
    }
    assert Kept(c, {}).queues == c.queues && Kept(c, {}).pending == c.pending;
    assert Counting.Classified(c, true) - {} == Counting.Classified(c, true);
    SameReadinessIff(c, {});
  }

  lemma EveryQueueFilled(c: Core)
    requires Bijective(c)
    ensures forall s :: s in c.queues ==> c.queues[s] != map[]
  {
  }

  /** `a` holds a slot, `h` is refused for it, and `b` replaces `a`. */
  ghost predicate Contest(a: Tx, h: Tx, b: Tx, cfg: Config) {
    && cfg.maxPendingPerSender > 0 && Rivals(a, h) && Rivals(a, b) && Rivals(h, b)
    && h.Fee() < Threshold(a.Fee(), cfg.bumpBps) <= b.Fee()
  }

  /** What a restart sees of it from a snapshot taken before the replacement, with a reorg of `h`. */
  lemma ContestSeen(a: Tx, h: Tx, b: Tx, cfg: Config, reorg: Payload)
    requires Contest(a, h, b, cfg) && reorg.TxReorged? && reorg.hash == h.hash
    ensures var txs := [a, h, b];
      var seen := [reorg] + StepEvents(txs, cfg, 2);
      && RecordsWithReorgs(txs, cfg, Log(EMPTY, txs, 2, cfg), seen)
      && Removed(seen) == {a.hash} && ReplayTxs(seen, map[h.hash := h]) == [h, b]
  {
    hide Admit, Threshold, Log, Run, RemovedUpTo, Single, RecordsWithReorgs, AdmitOutcome, OutcomeEvents,
      WellShaped, ReplayTxsUpTo, Decide;
    var txs := [a, h, b];
    ThreeRivals(a, h, b, cfg);
    ReplacesSingle(a, b, cfg);
    var c, events := Run(EMPTY, txs, 2, cfg), StepEvents(txs, cfg, 2);
    var outcome := AdmitOutcome(c, b, cfg);
    OutcomeDecision(c, b, cfg);
    OutcomeShape(b, outcome);
    forall k | 0 <= k < |events| ensures !events[k].TxReorged? {
      NoReorgInStep(b, outcome, k);
    }
    ReorgBeforeLast(txs, cfg, reorg, events);
    ReplacementRemoves(c, b, cfg);
    RemovedIsWhole(reorg, events);
    ShapeDecodes(events, b, outcome.admission);
    ReplayOutcome(reorg, events, b, outcome.admission, map[h.hash := h], |events|);
  }

  /**
    A reorged transaction that the run had refused: a restart that replays the reorg before
    the replacement puts it into the slot the sanitising emptied, and ends in the run's
    state exactly when the replacement bids enough to replace it too.
   */
  lemma RefusedReorgIff(a: Tx, h: Tx, b: Tx, cfg: Config, watermark: U64, reorg: Payload)
    requires Contest(a, h, b, cfg) && reorg.TxReorged? && reorg.hash == h.hash
    ensures var txs := [a, h, b];
      var c, end, seen := Run(EMPTY, txs, 2, cfg), RunAll(EMPTY, txs, cfg), [reorg] + StepEvents(txs, cfg, 2);
      && HashesNameOne(txs) && RecordsWithReorgs(txs, cfg, Log(EMPTY, txs, 2, cfg), seen)
      && StartState(Some(Persist(c).(eventSeqHi := watermark)), seen) == Success(EMPTY)
      && (RunAll(EMPTY, ReplayTxs(seen, map[h.hash := h]), cfg) == end <==> b.Fee() >= Threshold(h.Fee(), cfg.bumpBps))
  {
    hide Threshold, Run, Log, StepEvents, Persist, Removed, Single, StartState, RecordsWithReorgs, ReplayTxsUpTo;
    ContestSeen(a, h, b, cfg, reorg);
    ThreeRivals(a, h, b, cfg);
    KeptOfSingle(a, watermark, [reorg] + StepEvents([a, h, b], cfg, 2));
    ReadmitTwo([h, b], cfg);
    SinglesDiffer(h, b);
  }

  lemma RemovedIsWhole(first: Payload, events: seq<Payload>)
    requires first.TxReorged?
    ensures Removed([first] + events) == Removed(events)
  {
    ReorgRemovesNothing(first, events, |events|);
  }

  lemma SinglesDiffer(a: Tx, b: Tx)
    requires a.hash != b.hash
    ensures Single(a) != Single(b)
  {
    assert a.hash in Single(a).pending;
  }

  lemma ReplacesSingle(a: Tx, b: Tx, cfg: Config)
    requires Rivals(a, b) && b.Fee() >= Threshold(a.Fee(), cfg.bumpBps)
    ensures WellFormed(Single(a)) && Decide(Single(a), b, cfg) == Replaced(a.hash)
  {
    hide Threshold;
    SingleIsWellFormed(a);
    assert Occupied(Single(a), b.sender, b.nonce) && Occupant(Single(a), b.sender, b.nonce) == a;
  }

  lemma ThreeRivals(a: Tx, h: Tx, b: Tx, cfg: Config)
    requires Contest(a, h, b, cfg)
    ensures HashesNameOne([a, h, b])
    ensures Run(EMPTY, [a, h, b], 2, cfg) == Single(a) && RunAll(EMPTY, [a, h, b], cfg) == Single(b)
  {
    hide Admit, Threshold, Single;
    var txs := [a, h, b];
    FirstTakes(a, cfg);
    RivalDecides(a, h, cfg);
    RivalDecides(a, b, cfg);
    assert Run(EMPTY, txs, 0, cfg) == EMPTY;
    assert Run(EMPTY, txs, 1, cfg) == Single(a);
    assert Run(EMPTY, txs, 2, cfg) == Single(a);
  }

  /** An instance: bids of 100, 109 and 110 under a ten per cent bump. */
  lemma RefusedReorgFails(watermark: U64, reorg: Payload)
    requires reorg.TxReorged? && reorg.hash == 5
    ensures var txs, rows := [Bid(2, 8, 100), Bid(5, 8, 109), Bid(4, 8, 110)], map[5 := Bid(5, 8, 109)];
      var seen := [reorg] + StepEvents(txs, TEN_PERCENT, 2);
      RunAll(EMPTY, ReplayTxs(seen, rows), TEN_PERCENT) != RunAll(EMPTY, txs, TEN_PERCENT)
  {
    hide Run, StepEvents, ReplayTxsUpTo, StartState, Persist;
    assert Threshold(100, 1000) == 110 && Threshold(109, 1000) == 120;
    RefusedReorgIff(Bid(2, 8, 100), Bid(5, 8, 109), Bid(4, 8, 110), TEN_PERCENT, watermark, reorg);
  }

  /**
    A reorg of an admitted transaction does harm exactly when its bid challenges the one
    that replaced it: outside the raising range, bids can change places back.
   */
  lemma ReplacedReorgIff(a: Tx, b: Tx, cfg: Config, watermark: U64, reorg: Payload)
    requires cfg.maxPendingPerSender > 0 && Rivals(a, b) && b.Fee() >= Threshold(a.Fee(), cfg.bumpBps)
    requires reorg.TxReorged? && reorg.hash == a.hash
    ensures var txs, rows, seen := [a, b], map[a.hash := a], [reorg];
      var end := RunAll(EMPTY, txs, cfg);
      var start := StartState(Some(Persist(end).(eventSeqHi := watermark)), seen);
      && HashesNameOne(txs) && RecordsWithReorgs(txs, cfg, Log(EMPTY, txs, 2, cfg), seen)
      && ReorgsAdmitted(txs, cfg, seen, rows) && start == Success(end)
      && (RunAll(end, ReplayTxs(seen, rows), cfg) == end <==> a.Fee() < Threshold(b.Fee(), cfg.bumpBps))
  {
    hide Admit, Threshold, Log, Persist, Single, StartState, RecordsWithReorgs, HeldSince, HashesNameOne;
    var txs, rows, seen := [a, b], map[a.hash := a], [reorg];
    TwoRivals(a, b, cfg);
    OnlyReorg(txs, cfg, reorg);
    assert RemovedUpTo(seen, 0) == {} && Removed(seen) == {};
    KeptOfSingle(b, watermark, seen);
    assert ReplayTxsUpTo(seen, rows, 0) == [] && ReplayTxs(seen, rows) == [a];
    RivalDecides(b, a, cfg);
    assert Run(Single(b), [a], 0, cfg) == Single(b);
    SinglesDiffer(a, b);
  }

  /** A whole log of the run followed by a reorg. */
  lemma OnlyReorg(txs: seq<Tx>, cfg: Config, reorg: Payload)
    requires reorg.TxReorged?
    ensures RecordsWithReorgs(txs, cfg, Log(EMPTY, txs, |txs|, cfg), [reorg])
  {
    hide Log;
    LogHasNoReorg(txs, cfg, |txs|);
    assert RetainUpTo([reorg], IsNoReorg(), 0) == [] && WithoutReorgs([reorg]) == [];
    assert Records([]) == [];
  }

  lemma TwoRivals(a: Tx, b: Tx, cfg: Config)
    requires cfg.maxPendingPerSender > 0 && Rivals(a, b) && b.Fee() >= Threshold(a.Fee(), cfg.bumpBps)
    ensures HashesNameOne([a, b]) && RunAll(EMPTY, [a, b], cfg) == Single(b) && HeldSince([a, b], cfg, 0, a)
  {
    hide Admit, Threshold;
    ReadmitTwo([a, b], cfg);
    FirstTakes(a, cfg);
    assert Run(EMPTY, [a, b], 0, cfg) == EMPTY;
    assert Holds(Run(EMPTY, [a, b], 1, cfg), a);
  }
}