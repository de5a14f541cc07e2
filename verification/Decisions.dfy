/**
  What the scheduler decides about one submission, read off the fields of the
  transactions, the queues and the configuration.
 */
module Decisions {
  import opened Prelude
  import opened Fees
  import opened SchedulerModel

  /**
    The transaction bids `f`. Types 0 and 1 bid their gas price; any other type bids its
    max fee, or its gas price if it has none. A missing bid counts as zero.
   */
  ghost predicate PutsUp(tx: Tx, f: nat) {
    if tx.txType == 0 || tx.txType == 1 then tx.gasPrice == Some(f) || (tx.gasPrice == None && f == 0)
    else
      || tx.maxFee == Some(f)
      || (tx.maxFee == None && tx.gasPrice == Some(f))
      || (tx.maxFee == None && tx.gasPrice == None && f == 0)
  }

  /** A bid of `f` is enough to replace a bid of `g`: by ten-thousandths, capped at the largest `u128`. */
  predicate Beats(f: nat, g: nat, bumpBps: nat) {
    10_000 * f >= if g * (10_000 + bumpBps) <= U128_MAX then g * (10_000 + bumpBps) else U128_MAX
  }

  lemma PutsUpFee(tx: Tx, f: nat)
    ensures PutsUp(tx, f) <==> f == tx.Fee()
  {
  }

  lemma ThresholdMetIff(f: U128, g: U128, bumpBps: U16)
    ensures f >= Threshold(g, bumpBps) <==> Beats(f, g, bumpBps)
  {
    var scaled: nat := g * (BPS + bumpBps);
    CeilingMetIff(f, Clamped(scaled));
  }

  lemma CeilingMetIff(f: nat, n: nat)
    ensures f >= DivCeil(n, BPS) <==> 10_000 * f >= n
  {
  }

  /** The transaction queued at the slot of a submission. */
  ghost predicate HoldsSlot(c: Core, incumbent: Tx, sender: Address, nonce: U64) {
    && sender in c.queues && nonce in c.queues[sender] && c.queues[sender][nonce] == incumbent.hash
    && incumbent.hash in c.pending && c.pending[incumbent.hash] == incumbent
  }

  /**
    At an occupied slot a fresh submission replaces the incumbent exactly when its bid is
    enough, whatever else the two transactions carry; otherwise it is refused as underpriced.
   */
  lemma OccupiedSlotDecision(c: ValidCore, tx: Tx, cfg: Config, incumbent: Tx, f: nat, g: nat)
    requires tx.hash !in c.pending && HoldsSlot(c, incumbent, tx.sender, tx.nonce)
    requires PutsUp(tx, f) && PutsUp(incumbent, g)
    ensures Decide(c, tx, cfg) ==
      if Beats(f, g, cfg.bumpBps) then Replaced(incumbent.hash) else UnderpricedReplacement
  {
    hide Threshold, Beats;
    PutsUpFee(tx, f);
    PutsUpFee(incumbent, g);
    ThresholdMetIff(f, g, cfg.bumpBps);
  }

  /** Among later types only the max fees matter, whatever the gas prices. */
  lemma MaxFeesDecide(c: ValidCore, tx: Tx, cfg: Config, incumbent: Tx, f: U128, g: U128)
    requires tx.hash !in c.pending && HoldsSlot(c, incumbent, tx.sender, tx.nonce)
    requires tx.txType >= 2 && incumbent.txType >= 2 && tx.maxFee == Some(f) && incumbent.maxFee == Some(g)
    ensures Decide(c, tx, cfg) == Replaced(incumbent.hash) <==>
      10_000 * f >= if g * (10_000 + cfg.bumpBps) <= U128_MAX then g * (10_000 + cfg.bumpBps) else U128_MAX
    ensures Decide(c, tx, cfg) in {Replaced(incumbent.hash), UnderpricedReplacement}
  {
    OccupiedSlotDecision(c, tx, cfg, incumbent, f, g);
  }

  /** Among legacy and access-list transactions only the gas prices matter, whatever the max fees. */
  lemma GasPricesDecide(c: ValidCore, tx: Tx, cfg: Config, incumbent: Tx, f: U128, g: U128)
    requires tx.hash !in c.pending && HoldsSlot(c, incumbent, tx.sender, tx.nonce)
    requires tx.txType <= 1 && incumbent.txType <= 1 && tx.gasPrice == Some(f) && incumbent.gasPrice == Some(g)
    ensures Decide(c, tx, cfg) == Replaced(incumbent.hash) <==>
      10_000 * f >= if g * (10_000 + cfg.bumpBps) <= U128_MAX then g * (10_000 + cfg.bumpBps) else U128_MAX
    ensures Decide(c, tx, cfg) in {Replaced(incumbent.hash), UnderpricedReplacement}
  {
    OccupiedSlotDecision(c, tx, cfg, incumbent, f, g);
  }

  /** How many transactions the sender has queued. */
  ghost predicate Queues(c: Core, sender: Address, count: nat) {
    if sender in c.queues then count == |c.queues[sender]| else count == 0
  }

  /** A pending hash is refused as a duplicate; a free slot is filled unless the sender's queue is at its limit. */
  lemma FreeSlotDecision(c: ValidCore, tx: Tx, cfg: Config, count: nat)
    requires !(tx.sender in c.queues && tx.nonce in c.queues[tx.sender]) && Queues(c, tx.sender, count)
    ensures Decide(c, tx, cfg) ==
      if tx.hash in c.pending then Duplicate
      else if count < cfg.maxPendingPerSender then Admitted
      else SenderLimitReached
  {
  }

  /** A duplicate is refused as such before its bid is looked at, and nothing else is. */
  lemma DuplicateIff(c: ValidCore, tx: Tx, cfg: Config)
    ensures Decide(c, tx, cfg) == Duplicate <==> tx.hash in c.pending
  {
  }

  /** What an admission does to every hash and every slot. */
  lemma AdmittedState(c: ValidCore, tx: Tx, cfg: Config, h: TxHash, s: Address, n: U64)
    ensures var d, c' := Decide(c, tx, cfg), Admit(c, tx, cfg);
      if d == Admitted || d.Replaced? then
        && (h in c'.pending <==> h == tx.hash || (h in c.pending && d != Replaced(h)))
        && (h in c'.pending ==> c'.pending[h] == if h == tx.hash then tx else c.pending[h])
        && (s in c'.queues && n in c'.queues[s] <==>
            (s == tx.sender && n == tx.nonce) || (s in c.queues && n in c.queues[s]))
        && (s in c'.queues && n in c'.queues[s] ==>
            c'.queues[s][n] == if s == tx.sender && n == tx.nonce then tx.hash else c.queues[s][n])
      else c' == c
  {
    var d := Decide(c, tx, cfg);
    if d.IsAdmitted() {
      var removed := AdmitIsPut(c, tx, cfg);
    }
  }
}
