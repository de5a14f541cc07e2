/**
  What runs of admissions do to the slots of a fresh scheduler: occupants only get more
  expensive, so admitting an earlier transaction again changes nothing.
 */
module History {
  import opened Prelude
  import opened Fees
  import opened SchedulerModel

  /** Bids for which every accepted replacement raises the bid. */
  predicate Raising(tx: Tx, cfg: Config) {
    InRaisingRange(tx.Fee(), cfg.bumpBps)
  }

  ghost predicate AllRaising(txs: seq<Tx>, cfg: Config) {
    forall k :: 0 <= k < |txs| ==> Raising(txs[k], cfg)
  }

  /** A hash names one transaction. */
  ghost predicate HashesNameOne(txs: seq<Tx>) {
    forall a, b :: 0 <= a < |txs| && 0 <= b < |txs| && txs[a].hash == txs[b].hash ==> txs[a] == txs[b]
  }

  /** Every pending transaction is one of the first `i` submitted. */
  ghost predicate ComesFrom(c: Core, txs: seq<Tx>, i: nat) {
    forall h :: h in c.pending ==> exists k :: 0 <= k < i <= |txs| && txs[k] == c.pending[h]
  }

  // ---------------------------------------------------------------- one step at one slot

  /** An admission leaves a slot alone, fills it, or raises its bid past the threshold. */
  lemma SlotStep(c: ValidCore, tx: Tx, cfg: Config, s: Address, n: U64)
    ensures WellFormed(Admit(c, tx, cfg))
    ensures Occupied(c, s, n) ==> Occupied(Admit(c, tx, cfg), s, n)
    ensures Occupied(c, s, n) ==>
      || Occupant(Admit(c, tx, cfg), s, n) == Occupant(c, s, n)
      || (&& Decide(c, tx, cfg) == Replaced(Occupant(c, s, n).hash) && tx.sender == s && tx.nonce == n
          && Occupant(Admit(c, tx, cfg), s, n) == tx
          && tx.Fee() >= Threshold(Occupant(c, s, n).Fee(), cfg.bumpBps))
    ensures !Occupied(c, s, n) && Occupied(Admit(c, tx, cfg), s, n) ==>
      && Decide(c, tx, cfg) == Admitted && tx.sender == s && tx.nonce == n
      && Occupant(Admit(c, tx, cfg), s, n) == tx
  {
    AdmitKeepsInvariants(c, tx, cfg);
    if Decide(c, tx, cfg).IsAdmitted() {
      var removed := AdmitIsPut(c, tx, cfg);
      if tx.sender == s && tx.nonce == n {
      } else if Occupied(c, s, n) {
        assert FillsSlot(c, c.queues[s][n], s, n);
        if Occupied(c, tx.sender, tx.nonce) {
          assert FillsSlot(c, c.queues[tx.sender][tx.nonce], tx.sender, tx.nonce);
        }
      }
    }
  }

  /** An admitted transaction holds its slot right afterwards. */
  lemma AdmittedHoldsSlot(c: ValidCore, tx: Tx, cfg: Config)
    requires Decide(c, tx, cfg).IsAdmitted()
    ensures WellFormed(Admit(c, tx, cfg)) && Occupied(Admit(c, tx, cfg), tx.sender, tx.nonce)
    ensures Occupant(Admit(c, tx, cfg), tx.sender, tx.nonce) == tx
  {
    AdmitKeepsInvariants(c, tx, cfg);
    var removed := AdmitIsPut(c, tx, cfg);
  }

  lemma InsertedSize(q: Queue, n: U64, h: TxHash)
    ensures q[n := h].Keys == q.Keys + {n}
    ensures |q[n := h]| == |q| + if n in q then 0 else 1
  {
    assert |q[n := h]| == |q[n := h].Keys| && |q| == |q.Keys|;
    if n in q {
      assert q[n := h].Keys == q.Keys;
    }
  }

  lemma QueueLengthStep(c: ValidCore, tx: Tx, cfg: Config, s: Address)
    ensures |QueueOf(c, s)| <= |QueueOf(Admit(c, tx, cfg), s)|
    ensures |QueueOf(c, s)| >= cfg.maxPendingPerSender ==> QueueOf(Admit(c, tx, cfg), s).Keys == QueueOf(c, s).Keys
    ensures |QueueOf(c, s)| <= cfg.maxPendingPerSender ==> |QueueOf(Admit(c, tx, cfg), s)| <= cfg.maxPendingPerSender
  {
    hide Admit, WellFormed;
    QueueAfterAdmit(c, tx, cfg, s);
    if Decide(c, tx, cfg).IsAdmitted() && s == tx.sender {
      var q := QueueOf(c, s);
      InsertedSize(q, tx.nonce, tx.hash);
      assert tx.nonce in q ==> q.Keys + {tx.nonce} == q.Keys;
    }
  }

  lemma QueueAfterAdmit(c: ValidCore, tx: Tx, cfg: Config, s: Address)
    ensures QueueOf(Admit(c, tx, cfg), s) ==
      if Decide(c, tx, cfg).IsAdmitted() && s == tx.sender then QueueOf(c, s)[tx.nonce := tx.hash] else QueueOf(c, s)
  {
    hide Decide;
    if Decide(c, tx, cfg).IsAdmitted() {
      var removed := AdmitIsPut(c, tx, cfg);
    }
  }

  // ---------------------------------------------------------------- re-admission

  lemma Raises(fee: U128, bumpBps: U16)
    requires InRaisingRange(fee, bumpBps)
    ensures Threshold(fee, bumpBps) > fee
  {
    ThresholdRaisesIff(fee, bumpBps);
  }

  /** Once a transaction is refused, one more admission of anything else does not change that. */
  lemma RefusalPersists(c: ValidCore, next: Tx, tx: Tx, cfg: Config)
    requires Bijective(c) && !Decide(c, tx, cfg).IsAdmitted()
    requires tx.hash in c.pending ==> c.pending[tx.hash] == tx
    requires Raising(tx, cfg) && Raising(next, cfg)
    ensures WellFormed(Admit(c, next, cfg)) && !Decide(Admit(c, next, cfg), tx, cfg).IsAdmitted()
  {
    hide Admit, Threshold, WellFormed;
    AdmitKeepsInvariants(c, next, cfg);
    SlotStep(c, next, cfg, tx.sender, tx.nonce);
    QueueLengthStep(c, next, cfg, tx.sender);
    Raises(tx.Fee(), cfg.bumpBps);
    Raises(next.Fee(), cfg.bumpBps);
    var c' := Admit(c, next, cfg);
    if tx.hash in c.pending {
      assert Queued(c, tx);
      assert Occupant(c, tx.sender, tx.nonce) == tx;
    }
    if Occupied(c, tx.sender, tx.nonce) && Occupant(c', tx.sender, tx.nonce) == next {
      var bid := Occupant(c, tx.sender, tx.nonce).Fee();
      if tx.hash !in c.pending {
        assert tx.Fee() < Threshold(bid, cfg.bumpBps);
      }
    }
  }

  lemma {:induction false} RunComesFrom(txs: seq<Tx>, cfg: Config, i: nat)
    requires i <= |txs|
    ensures ComesFrom(Run(EMPTY, txs, i, cfg), txs, i)
  {
    hide Admit;
    if i > 0 {
      RunComesFrom(txs, cfg, i - 1);
      StepComesFrom(Run(EMPTY, txs, i - 1, cfg), txs, i - 1, cfg);
    }
  }

  lemma StepComesFrom(c: ValidCore, txs: seq<Tx>, i: nat, cfg: Config)
    requires i < |txs| && ComesFrom(c, txs, i)
    ensures ComesFrom(Admit(c, txs[i], cfg), txs, i + 1)
  {
    hide Decide, WellFormed;
    var c' := Admit(c, txs[i], cfg);
    forall h | h in c'.pending ensures exists k :: 0 <= k < i + 1 <= |txs| && txs[k] == c'.pending[h] {
      if h in c.pending && c'.pending[h] == c.pending[h] {
        var k :| 0 <= k < i <= |txs| && txs[k] == c.pending[h];
      } else {
        assert c'.pending[h] == txs[i];
      }
    }
  }

  lemma {:induction false} RefusedFromThenOn(txs: seq<Tx>, cfg: Config, i: nat, j: nat)
    requires i < j <= |txs|
    requires AllRaising(txs, cfg) && HashesNameOne(txs)
    ensures !Decide(Run(EMPTY, txs, j, cfg), txs[i], cfg).IsAdmitted()
    decreases j
  {
    hide Admit, Bijective, ComesFrom, Decide;
    if j == i + 1 {
      RefusedRightAfter(Run(EMPTY, txs, i, cfg), txs[i], cfg);
    } else {
      var c := Run(EMPTY, txs, j - 1, cfg);
      RefusedFromThenOn(txs, cfg, i, j - 1);
      EmptyIsBijective();
      RunKeepsBijection(EMPTY, txs, j - 1, cfg);
      RunComesFrom(txs, cfg, j - 1);
      KnownByHash(c, txs, j - 1, txs[i]);
      RefusalPersists(c, txs[j - 1], txs[i], cfg);
    }
  }

  lemma EmptyIsBijective()
    ensures Bijective(EMPTY)
  {
  }

  lemma KnownByHash(c: ValidCore, txs: seq<Tx>, i: nat, tx: Tx)
    requires ComesFrom(c, txs, i) && HashesNameOne(txs) && tx in txs
    ensures tx.hash in c.pending ==> c.pending[tx.hash] == tx
  {
    if tx.hash in c.pending {
      var k :| 0 <= k < i <= |txs| && txs[k] == c.pending[tx.hash];
      assert c.pending[tx.hash].hash == tx.hash;
      var j :| 0 <= j < |txs| && txs[j] == tx;
    }
  }

  lemma RefusedRightAfter(c: ValidCore, tx: Tx, cfg: Config)
    ensures WellFormed(Admit(c, tx, cfg)) && !Decide(Admit(c, tx, cfg), tx, cfg).IsAdmitted()
  {
    AdmitKeepsInvariants(c, tx, cfg);
    if Decide(c, tx, cfg).IsAdmitted() {
      var removed := AdmitIsPut(c, tx, cfg);
    }
  }

  /**
    After any run of a fresh scheduler, admitting any transaction of that run again,
    whatever its first outcome was, changes neither the pending set nor the queues.
   */
  lemma ReadmissionIsNoOp(txs: seq<Tx>, cfg: Config, i: nat)
    requires i < |txs| && AllRaising(txs, cfg) && HashesNameOne(txs)
    ensures Admit(RunAll(EMPTY, txs, cfg), txs[i], cfg) == RunAll(EMPTY, txs, cfg)
  {
    RefusedFromThenOn(txs, cfg, i, |txs|);
  }

  /**
    The bidding range is exact. Any transaction outside it can be replaced by an equal
    bid and then replace it back, so a third admission does change the queues.
   */
  lemma ReadmissionChangesOutsideRange(tx: Tx, cfg: Config)
    requires cfg.maxPendingPerSender >= 1 && !Raising(tx, cfg)
    ensures var rival := tx.(hash := tx.hash + 1);
      var c := RunAll(EMPTY, [tx, rival], cfg);
      Admit(c, tx, cfg).queues != c.queues
  {
    var rival := tx.(hash := tx.hash + 1);
    TwoAdmissions(tx, rival, cfg);
    ThresholdRaisesIff(tx.Fee(), cfg.bumpBps);
    AdmitKeepsInvariants(EMPTY, tx, cfg);
    var c1: ValidCore := Admit(EMPTY, tx, cfg);
    AdmittedHoldsSlot(EMPTY, tx, cfg);
    SwapsBack(c1, tx, rival, cfg);
    var c2: ValidCore := Admit(c1, rival, cfg);
    SwapsBack(c2, rival, tx, cfg);
  }

  lemma TwoAdmissions(a: Tx, b: Tx, cfg: Config)
    ensures WellFormed(Admit(EMPTY, a, cfg))
    ensures RunAll(EMPTY, [a, b], cfg) == Admit(Admit(EMPTY, a, cfg), b, cfg)
  {
    AdmitKeepsInvariants(EMPTY, a, cfg);
    var txs := [a, b];
    assert Run(EMPTY, txs, 0, cfg) == EMPTY;
    assert Run(EMPTY, txs, 1, cfg) == Admit(EMPTY, txs[0], cfg);
    assert Run(EMPTY, txs, 2, cfg) == Admit(Run(EMPTY, txs, 1, cfg), txs[1], cfg);
  }

  /** An equal bid outside the raising range takes the slot. */
  lemma SwapsBack(c: ValidCore, holder: Tx, rival: Tx, cfg: Config)
    requires Occupied(c, holder.sender, holder.nonce) && Occupant(c, holder.sender, holder.nonce) == holder
    requires c.pending.Keys == {holder.hash} && rival.hash != holder.hash
    requires rival.sender == holder.sender && rival.nonce == holder.nonce && rival.Fee() == holder.Fee()
    requires Threshold(holder.Fee(), cfg.bumpBps) <= holder.Fee()
    ensures WellFormed(Admit(c, rival, cfg)) && Admit(c, rival, cfg).queues != c.queues
    ensures Occupied(Admit(c, rival, cfg), rival.sender, rival.nonce)
    ensures Occupant(Admit(c, rival, cfg), rival.sender, rival.nonce) == rival
    ensures Admit(c, rival, cfg).pending.Keys == {rival.hash}
  {
    assert Decide(c, rival, cfg) == Replaced(holder.hash);
    AdmittedHoldsSlot(c, rival, cfg);
  }

  // ---------------------------------------------------------------- occupants over a run

  /** Bids at a slot never fall: a later occupant is the same or bids past the earlier one's threshold. */
  ghost predicate Outbids(later: Tx, earlier: Tx, cfg: Config) {
    later == earlier || (later.Fee() > earlier.Fee() && later.Fee() >= Threshold(earlier.Fee(), cfg.bumpBps))
  }

  lemma {:induction false} SlotChain(txs: seq<Tx>, cfg: Config, i: nat, j: nat, s: Address, n: U64)
    requires i <= j <= |txs| && AllRaising(txs, cfg)
    requires Occupied(Run(EMPTY, txs, i, cfg), s, n)
    ensures Occupied(Run(EMPTY, txs, j, cfg), s, n)
    ensures Outbids(Occupant(Run(EMPTY, txs, j, cfg), s, n), Occupant(Run(EMPTY, txs, i, cfg), s, n), cfg)
    decreases j
  {
    hide Admit, Decide, ComesFrom, Outbids;
    var first := Occupant(Run(EMPTY, txs, i, cfg), s, n);
    if i == j {
      OutbidsSelf(first, cfg);
    } else {
      SlotChain(txs, cfg, i, j - 1, s, n);
      var c := Run(EMPTY, txs, j - 1, cfg);
      RunComesFrom(txs, cfg, j - 1);
      OccupantRaises(c, txs, j - 1, cfg, s, n);
      SlotOutbids(c, txs[j - 1], cfg, s, n, first);
    }
  }

  lemma OutbidsSelf(tx: Tx, cfg: Config)
    ensures Outbids(tx, tx, cfg)
  {
  }

  lemma OccupantRaises(c: ValidCore, txs: seq<Tx>, i: nat, cfg: Config, s: Address, n: U64)
    requires ComesFrom(c, txs, i) && AllRaising(txs, cfg) && Occupied(c, s, n)
    ensures Raising(Occupant(c, s, n), cfg)
  {
    var h := Occupant(c, s, n).hash;
    var k :| 0 <= k < i <= |txs| && txs[k] == c.pending[h];
  }

  lemma SlotOutbids(c: ValidCore, tx: Tx, cfg: Config, s: Address, n: U64, first: Tx)
    requires Occupied(c, s, n) && Raising(Occupant(c, s, n), cfg) && Outbids(Occupant(c, s, n), first, cfg)
    ensures WellFormed(Admit(c, tx, cfg)) && Occupied(Admit(c, tx, cfg), s, n)
    ensures Outbids(Occupant(Admit(c, tx, cfg), s, n), first, cfg)
  {
    SlotStep(c, tx, cfg, s, n);
    Raises(Occupant(c, s, n).Fee(), cfg.bumpBps);
  }

  /** Whatever the bids, a filled slot stays filled and its threshold never falls. */
  lemma {:induction false} SlotHeldOn(txs: seq<Tx>, cfg: Config, i: nat, j: nat, s: Address, n: U64)
    requires i <= j <= |txs| && Occupied(Run(EMPTY, txs, i, cfg), s, n)
    ensures Occupied(Run(EMPTY, txs, j, cfg), s, n)
    ensures NotBelow(Occupant(Run(EMPTY, txs, j, cfg), s, n), Occupant(Run(EMPTY, txs, i, cfg), s, n), cfg)
    decreases j
  {
    hide Admit, Decide, NotBelow;
    var first := Occupant(Run(EMPTY, txs, i, cfg), s, n);
    if i == j {
      NotBelowSelf(first, cfg);
    } else {
      SlotHeldOn(txs, cfg, i, j - 1, s, n);
      SlotNotBelow(Run(EMPTY, txs, j - 1, cfg), txs[j - 1], cfg, s, n, first);
    }
  }

  /** It takes at least as high a bid to replace `later` as to replace `earlier`. */
  ghost predicate NotBelow(later: Tx, earlier: Tx, cfg: Config) {
    Threshold(later.Fee(), cfg.bumpBps) >= Threshold(earlier.Fee(), cfg.bumpBps)
  }

  lemma NotBelowSelf(tx: Tx, cfg: Config)
    ensures NotBelow(tx, tx, cfg)
  {
  }

  lemma SlotNotBelow(c: ValidCore, tx: Tx, cfg: Config, s: Address, n: U64, first: Tx)
    requires Occupied(c, s, n) && NotBelow(Occupant(c, s, n), first, cfg)
    ensures WellFormed(Admit(c, tx, cfg)) && Occupied(Admit(c, tx, cfg), s, n)
    ensures NotBelow(Occupant(Admit(c, tx, cfg), s, n), first, cfg)
  {
    hide Threshold;
    SlotStep(c, tx, cfg, s, n);
    var bid, incumbent := tx.Fee(), Occupant(c, s, n).Fee();
    if bid >= Threshold(incumbent, cfg.bumpBps) {
      ThresholdNeverFalls(incumbent, bid, cfg.bumpBps);
    }
  }

  // ---------------------------------------------------------------- the geometric bound

  /** Whether admission `i` of the run replaced the occupant of a slot. */
  ghost predicate ReplacesSlot(txs: seq<Tx>, cfg: Config, i: nat, s: Address, n: U64)
    requires i < |txs|
  {
    txs[i].sender == s && txs[i].nonce == n && Decide(Run(EMPTY, txs, i, cfg), txs[i], cfg).Replaced?
  }

  /** How often the slot changed hands during the first `i` admissions. */
  ghost function Replacements(txs: seq<Tx>, cfg: Config, i: nat, s: Address, n: U64): nat
    requires i <= |txs|
  {
    if i == 0 then 0
    else Replacements(txs, cfg, i - 1, s, n) + if ReplacesSlot(txs, cfg, i - 1, s, n) then 1 else 0
  }

  /** The bid that first filled the slot during the first `i` admissions. */
  ghost function FirstBid(txs: seq<Tx>, cfg: Config, i: nat, s: Address, n: U64): U128
    requires i <= |txs|
  {
    if i == 0 then 0
    else if Occupied(Run(EMPTY, txs, i - 1, cfg), s, n) then FirstBid(txs, cfg, i - 1, s, n)
    else if Occupied(Run(EMPTY, txs, i, cfg), s, n) then Occupant(Run(EMPTY, txs, i, cfg), s, n).Fee()
    else 0
  }

  /** Bids whose scaled product does not saturate. */
  ghost predicate BelowSaturation(txs: seq<Tx>, cfg: Config) {
    forall k :: 0 <= k < |txs| ==> txs[k].Fee() * (BPS + cfg.bumpBps) <= U128_MAX
  }

  ghost predicate BidGrew(first: nat, bid: nat, k: nat, bumpBps: nat) {
    bid * Pow(BPS, k) >= first * Pow(BPS + bumpBps, k)
  }

  lemma BidGrowsOnce(first: nat, bid: nat, bid': nat, k: nat, bumpBps: nat)
    requires BidGrew(first, bid, k, bumpBps)
    requires bid' * BPS >= bid * (BPS + bumpBps)
    ensures BidGrew(first, bid', k + 1, bumpBps)
  {
    GrowthStep(first, bid, bid', Pow(BPS, k), Pow(BPS + bumpBps, k), BPS + bumpBps);
  }

  lemma GrowthStep(first: nat, bid: nat, bid': nat, p: nat, q: nat, r: nat)
    requires bid * p >= first * q && bid' * BPS >= bid * r
    ensures bid' * (BPS * p) >= first * (r * q)
  {
    calc {
      bid' * (BPS * p);
      { Regroup(bid', BPS, p); }
      (bid' * BPS) * p;
      >= { MulMonotone(bid * r, bid' * BPS, p); }
      (bid * r) * p;
      { Regroup(bid, r, p); Regroup(bid, p, r); }
      (bid * p) * r;
      >= { MulMonotone(first * q, bid * p, r); }
      (first * q) * r;
      { Regroup(first, r, q); Regroup(first, q, r); }
      first * (r * q);
    }
  }

  lemma Regroup(a: nat, b: nat, c: nat)
    ensures (a * b) * c == a * (b * c) && b * c == c * b
  {
  }

  lemma MulMonotone(a: nat, b: nat, c: nat)
    requires a <= b
    ensures a * c <= b * c
  {
  }

  lemma FirstBidGrew(bid: nat, bumpBps: nat)
    ensures BidGrew(bid, bid, 0, bumpBps)
  {
  }

  lemma OccupantScales(c: ValidCore, txs: seq<Tx>, i: nat, cfg: Config, s: Address, n: U64)
    requires ComesFrom(c, txs, i) && BelowSaturation(txs, cfg) && Occupied(c, s, n)
    ensures Threshold(Occupant(c, s, n).Fee(), cfg.bumpBps) * BPS >= Occupant(c, s, n).Fee() * (BPS + cfg.bumpBps)
  {
    var h := Occupant(c, s, n).hash;
    var k :| 0 <= k < i <= |txs| && txs[k] == c.pending[h];
    ThresholdScales(Occupant(c, s, n).Fee(), cfg.bumpBps);
  }

  /** A slot nobody filled yet was never replaced. */
  lemma {:induction false} FreeSlotUnreplaced(txs: seq<Tx>, cfg: Config, i: nat, s: Address, n: U64)
    requires i <= |txs| && !Occupied(Run(EMPTY, txs, i, cfg), s, n)
    ensures Replacements(txs, cfg, i, s, n) == 0
  {
    hide Admit;
    if i > 0 {
      var c := Run(EMPTY, txs, i - 1, cfg);
      SlotStep(c, txs[i - 1], cfg, s, n);
      FreeSlotUnreplaced(txs, cfg, i - 1, s, n);
    }
  }

  /**
    Replacements at a slot grow its bid geometrically: after k of them the bid is at
    least the first bid times ((10000 + bump) / 10000)^k.
   */
  lemma {:induction false} BidsGrowGeometrically(txs: seq<Tx>, cfg: Config, i: nat, s: Address, n: U64)
    requires i <= |txs| && BelowSaturation(txs, cfg)
    requires Occupied(Run(EMPTY, txs, i, cfg), s, n)
    ensures BidGrew(FirstBid(txs, cfg, i, s, n), Occupant(Run(EMPTY, txs, i, cfg), s, n).Fee(),
                    Replacements(txs, cfg, i, s, n), cfg.bumpBps)
  {
    hide Admit, ComesFrom, BidGrew, BelowSaturation, Threshold, Decide;
    if i > 0 {
      var c, tx := Run(EMPTY, txs, i - 1, cfg), txs[i - 1];
      SlotStep(c, tx, cfg, s, n);
      if Occupied(c, s, n) {
        BidsGrowGeometrically(txs, cfg, i - 1, s, n);
        if ReplacesSlot(txs, cfg, i - 1, s, n) {
          RunComesFrom(txs, cfg, i - 1);
          BidGrowsByStep(c, txs, i - 1, cfg, FirstBid(txs, cfg, i - 1, s, n), Replacements(txs, cfg, i - 1, s, n));
        }
      } else {
        FreeSlotUnreplaced(txs, cfg, i - 1, s, n);
        FirstBidGrew(Occupant(Run(EMPTY, txs, i, cfg), s, n).Fee(), cfg.bumpBps);
      }
    }
  }

  lemma BidGrowsByStep(c: ValidCore, txs: seq<Tx>, i: nat, cfg: Config, first: U128, k: nat)
    requires i < |txs| && Decide(c, txs[i], cfg).Replaced? && Occupied(c, txs[i].sender, txs[i].nonce)
    requires ComesFrom(c, txs, i) && BelowSaturation(txs, cfg)
    requires BidGrew(first, Occupant(c, txs[i].sender, txs[i].nonce).Fee(), k, cfg.bumpBps)
    ensures WellFormed(Admit(c, txs[i], cfg)) && Occupied(Admit(c, txs[i], cfg), txs[i].sender, txs[i].nonce)
    ensures BidGrew(first, Occupant(Admit(c, txs[i], cfg), txs[i].sender, txs[i].nonce).Fee(), k + 1, cfg.bumpBps)
  {
    var tx := txs[i];
    var bid := Occupant(c, tx.sender, tx.nonce).Fee();
    AdmittedHoldsSlot(c, tx, cfg);
    OccupantScales(c, txs, i, cfg, tx.sender, tx.nonce);
    MulMonotone(Threshold(bid, cfg.bumpBps), tx.Fee(), BPS);
    BidGrowsOnce(first, bid, tx.Fee(), k, cfg.bumpBps);
  }

  lemma ReplacementBid(c: ValidCore, tx: Tx, cfg: Config)
    requires Decide(c, tx, cfg).Replaced?
    ensures Occupied(c, tx.sender, tx.nonce)
    ensures tx.Fee() >= Threshold(Occupant(c, tx.sender, tx.nonce).Fee(), cfg.bumpBps)
  {
  }

  /** Replacements per slot are bounded by the rise of its bid, when every bid is in the raising range. */
  lemma {:induction false} ReplacementsAreBounded(txs: seq<Tx>, cfg: Config, i: nat, s: Address, n: U64)
    requires i <= |txs| && AllRaising(txs, cfg)
    requires Occupied(Run(EMPTY, txs, i, cfg), s, n)
    ensures FirstBid(txs, cfg, i, s, n) + Replacements(txs, cfg, i, s, n) <=
      Occupant(Run(EMPTY, txs, i, cfg), s, n).Fee()
  {
    hide Admit, ComesFrom, WellFormed, Threshold, AllRaising, Decide, Raising;
    if i > 0 {
      var c, tx := Run(EMPTY, txs, i - 1, cfg), txs[i - 1];
      SlotStep(c, tx, cfg, s, n);
      if Occupied(c, s, n) {
        ReplacementsAreBounded(txs, cfg, i - 1, s, n);
        if ReplacesSlot(txs, cfg, i - 1, s, n) {
          AdmittedHoldsSlot(c, tx, cfg);
          ReplacementBid(c, tx, cfg);
          RunComesFrom(txs, cfg, i - 1);
          OccupantRaises(c, txs, i - 1, cfg, s, n);
          Raises(Occupant(c, s, n).Fee(), cfg.bumpBps);
        }
      } else {
        FreeSlotUnreplaced(txs, cfg, i - 1, s, n);
      }
    }
  }
}
