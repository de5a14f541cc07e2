/** The admission counters over a run, and what a restart makes of them. */
module Accounting {
  import opened Prelude
  import opened SchedulerModel
  import opened EventLog
  import opened History
  import opened LogRefinement
  import opened Recovery
  import opened Rehydration
  import opened Scheduler

  /** The counters after the first `i` submissions. */
  ghost function TotalsAfter(start: Totals, c: ValidCore, txs: seq<Tx>, i: nat, cfg: Config): Totals
    requires i <= |txs|
  {
    if i == 0 then start
    else CountAdmission(TotalsAfter(start, c, txs, i - 1, cfg), Decide(Run(c, txs, i - 1, cfg), txs[i - 1], cfg))
  }

  /** The counters of a scheduler that admits a list to state `c` with all counters at zero. */
  ghost function FreshTotals(c: ValidCore, txs: seq<Tx>, cfg: Config): Totals {
    TotalsAfter(NO_TOTALS, c, txs, |txs|, cfg)
  }

  /** How many submissions the counters stand for. */
  function Submissions(t: Totals): nat {
    t.admitted + t.duplicate + t.underpricedReplacement + t.senderLimitDrop
  }

  lemma OneMore(t: Totals, a: Admission)
    requires Submissions(t) < U64_MAX && t.replacement <= t.admitted
    ensures var t' := CountAdmission(t, a);
      && Submissions(t') == Submissions(t) + 1 && t'.replacement <= t'.admitted
      && t'.admitted - t'.replacement == t.admitted - t.replacement + if a.Admitted? then 1 else 0
  {
  }

  /** Every submission counts once: as admitted, or under one reason for refusing it. */
  lemma {:induction false} SubmissionsCountOnce(c: ValidCore, txs: seq<Tx>, i: nat, cfg: Config)
    requires i <= |txs| <= U64_MAX
    ensures var t := TotalsAfter(NO_TOTALS, c, txs, i, cfg); Submissions(t) == i && t.replacement <= t.admitted
  {
    hide Decide, Run, CountAdmission, Submissions;
    if i > 0 {
      SubmissionsCountOnce(c, txs, i - 1, cfg);
      OneMore(TotalsAfter(NO_TOTALS, c, txs, i - 1, cfg), Decide(Run(c, txs, i - 1, cfg), txs[i - 1], cfg));
    } else {
      NothingCounted();
    }
  }

  lemma NothingCounted()
    ensures Submissions(NO_TOTALS) == 0
  {
  }

  /** The submissions among the first `i` that were decided as `decided` tells. */
  ghost function Deciding(c: ValidCore, txs: seq<Tx>, i: nat, cfg: Config, decided: Admission -> bool): set<nat>
    requires i <= |txs|
  {
    set j: nat | j < i && decided(Decide(Run(c, txs, j, cfg), txs[j], cfg))
  }

  lemma OneMoreDeciding(c: ValidCore, txs: seq<Tx>, i: nat, cfg: Config, decided: Admission -> bool)
    requires i < |txs|
    ensures |Deciding(c, txs, i + 1, cfg, decided)| ==
      |Deciding(c, txs, i, cfg, decided)| + if decided(Decide(Run(c, txs, i, cfg), txs[i], cfg)) then 1 else 0
  {
    hide Decide, Run;
    var now := if decided(Decide(Run(c, txs, i, cfg), txs[i], cfg)) then {i} else {};
    assert Deciding(c, txs, i + 1, cfg, decided) == Deciding(c, txs, i, cfg, decided) + now;
  }

  lemma NothingDecided(c: ValidCore, txs: seq<Tx>, cfg: Config, decided: Admission -> bool)
    ensures |Deciding(c, txs, 0, cfg, decided)| == 0
  {
    assert Deciding(c, txs, 0, cfg, decided) == {};
  }

  /**
    Each counter is the number of submissions of the run with its outcome; a replacement
    counts as an admission as well.
   */
  lemma {:induction false} CountersAreCounts(c: ValidCore, txs: seq<Tx>, i: nat, cfg: Config)
    requires i <= |txs| <= U64_MAX
    ensures var t := TotalsAfter(NO_TOTALS, c, txs, i, cfg);
      && t.duplicate == |Deciding(c, txs, i, cfg, (a: Admission) => a == Duplicate)|
      && t.underpricedReplacement == |Deciding(c, txs, i, cfg, (a: Admission) => a == UnderpricedReplacement)|
      && t.senderLimitDrop == |Deciding(c, txs, i, cfg, (a: Admission) => a == SenderLimitReached)|
      && t.replacement == |Deciding(c, txs, i, cfg, (a: Admission) => a.Replaced?)|
      && t.admitted == |Deciding(c, txs, i, cfg, (a: Admission) => a == Admitted || a.Replaced?)|
  {
    hide Decide, Run, Deciding;
    if i == 0 {
      NothingDecided(c, txs, cfg, (a: Admission) => a == Duplicate);
      NothingDecided(c, txs, cfg, (a: Admission) => a == UnderpricedReplacement);
      NothingDecided(c, txs, cfg, (a: Admission) => a == SenderLimitReached);
      NothingDecided(c, txs, cfg, (a: Admission) => a.Replaced?);
      NothingDecided(c, txs, cfg, (a: Admission) => a == Admitted || a.Replaced?);
    } else {
      CountersAreCounts(c, txs, i - 1, cfg);
      SubmissionsCountOnce(c, txs, i - 1, cfg);
      OneMoreDeciding(c, txs, i - 1, cfg, (a: Admission) => a == Duplicate);
      OneMoreDeciding(c, txs, i - 1, cfg, (a: Admission) => a == UnderpricedReplacement);
      OneMoreDeciding(c, txs, i - 1, cfg, (a: Admission) => a == SenderLimitReached);
      OneMoreDeciding(c, txs, i - 1, cfg, (a: Admission) => a.Replaced?);
      OneMoreDeciding(c, txs, i - 1, cfg, (a: Admission) => a == Admitted || a.Replaced?);
    }
  }

  lemma PutSize(c: Core, tx: Tx, removed: set<TxHash>)
    requires tx.hash !in c.pending && removed <= c.pending.Keys
    ensures |Put(c.(pending := c.pending - removed), tx).pending| == |c.pending| - |removed| + 1
  {
    var rest := c.pending - removed;
    assert rest.Keys == c.pending.Keys - removed;
    assert rest[tx.hash := tx].Keys == rest.Keys + {tx.hash};
    assert |rest| == |rest.Keys| && |c.pending| == |c.pending.Keys|;
    assert |rest[tx.hash := tx]| == |rest[tx.hash := tx].Keys|;
  }

  lemma AdmitSize(c: ValidCore, tx: Tx, cfg: Config)
    ensures |Admit(c, tx, cfg).pending| == |c.pending| + if Decide(c, tx, cfg).Admitted? then 1 else 0
  {
    hide WellFormed, Put, Admit;
    if Decide(c, tx, cfg).IsAdmitted() {
      var removed := AdmitIsPut(c, tx, cfg);
      ReplacedIsPending(c, tx, cfg);
      PutSize(c, tx, removed);
    } else {
      RejectedOutcome(c, tx, cfg, Decide(c, tx, cfg));
    }
  }

  lemma ReplacedIsPending(c: ValidCore, tx: Tx, cfg: Config)
    ensures Decide(c, tx, cfg).Replaced? ==> Decide(c, tx, cfg).replacedHash in c.pending
  {
    if Decide(c, tx, cfg).Replaced? {
      OccupantHash(c, tx.sender, tx.nonce);
      OccupantIsPending(c, tx.sender, tx.nonce);
    }
  }

  /** The pending transactions are those admitted less those replaced. */
  lemma {:induction false} PendingIsAccounted(c: ValidCore, txs: seq<Tx>, i: nat, cfg: Config)
    requires i <= |txs| <= U64_MAX
    ensures var t := TotalsAfter(NO_TOTALS, c, txs, i, cfg);
      |Run(c, txs, i, cfg).pending| == |c.pending| + t.admitted - t.replacement
  {
    hide Decide, Admit, CountAdmission, Submissions, WellFormed;
    if i > 0 {
      PendingIsAccounted(c, txs, i - 1, cfg);
      SubmissionsCountOnce(c, txs, i - 1, cfg);
      OneMore(TotalsAfter(NO_TOTALS, c, txs, i - 1, cfg), Decide(Run(c, txs, i - 1, cfg), txs[i - 1], cfg));
      AdmitSize(Run(c, txs, i - 1, cfg), txs[i - 1], cfg);
    }
  }

  // ---------------------------------------------------------------- what a log decodes

  lemma {:induction false} DecodedConcat(a: seq<Payload>, b: seq<Payload>, i: nat)
    requires i <= |b|
    ensures DecodedUpTo(a + b, |a| + i) == DecodedTxs(a) + DecodedUpTo(b, i)
  {
    if i == 0 {
      DecodedPrefix(a, b, |a|);
    } else {
      DecodedConcat(a, b, i - 1);
      assert (a + b)[|a| + i - 1] == b[i - 1];
    }
  }

  lemma {:induction false} StepDecodes(events: seq<Payload>, tx: Tx, a: Admission, i: nat)
    requires i <= |events| && WellShaped(events, tx, a)
    ensures DecodedUpTo(events, i) == if a.IsAdmitted() && DecodedAt(a) < i then [tx] else []
  {
    if i > 0 {
      StepDecodes(events, tx, a, i - 1);
    }
  }

  lemma NothingDecoded()
    ensures DecodedTxs([]) == []
  {
  }

  /** A run decodes at most its submissions, and all of them only in their order. */
  lemma {:induction false} RunDecodes(txs: seq<Tx>, cfg: Config, i: nat)
    requires i <= |txs|
    ensures |DecodedTxs(Recorded(txs, cfg, i))| <= i
    ensures |DecodedTxs(Recorded(txs, cfg, i))| == i ==> DecodedTxs(Recorded(txs, cfg, i)) == txs[..i]
  {
    hide StepEvents, Run, Decide, DecodedUpTo;
    if i == 0 {
      NothingDecoded();
    } else {
      RunDecodes(txs, cfg, i - 1);
      var step := StepEvents(txs, cfg, i - 1);
      StepShape(txs, cfg, i - 1);
      StepDecodes(step, txs[i - 1], Decide(Run(EMPTY, txs, i - 1, cfg), txs[i - 1], cfg), |step|);
      DecodedConcat(Recorded(txs, cfg, i - 1), step, |step|);
    }
  }

  lemma SeenDecodes(txs: seq<Tx>, cfg: Config, unseen: seq<Payload>, seen: seq<Payload>)
    requires RecordsRun(txs, cfg, unseen, seen)
    ensures |DecodedTxs(seen)| <= |txs|
    ensures |DecodedTxs(seen)| == |txs| ==> DecodedTxs(seen) == txs
  {
    hide Records, Log, Recorded, DecodedUpTo;
    RecordsOfLog(txs, cfg, |txs|);
    RunDecodes(txs, cfg, |txs|);
    DecodedConcat(Records(unseen), Records(seen), |Records(seen)|);
    RecordsDecodeTheSame(seen, |seen|);
    RecordsIsWhole(seen);
  }

  // ---------------------------------------------------------------- counters after a restart

  lemma QueuedIsPending(c: ValidCore, s: Address, n: U64)
    requires s in c.queues && n in c.queues[s]
    ensures c.queues[s][n] in c.pending
  {
    assert FillsSlot(c, c.queues[s][n], s, n);
  }

  lemma NoPendingIsEmpty(c: ValidCore)
    requires |c.pending| == 0
    ensures c == EMPTY
  {
    assert c.pending == map[];
    if exists s :: s in c.queues {
      var s :| s in c.queues;
      var n :| n in c.queues[s];
      QueuedIsPending(c, s, n);
    }
    assert c.queues == map[];
  }

  lemma AllSubmittedAtHand(t: ValidCore, txs: seq<Tx>, cfg: Config, seen: seq<Payload>)
    requires DecodedTxs(seen) == txs
    ensures AllAtHand(t, RunAll(EMPTY, txs, cfg), seen)
  {
    hide DecodedIn, Run;
    RunComesFrom(txs, cfg, |txs|);
    forall h | h in RunAll(EMPTY, txs, cfg).pending ensures DecodedIn(seen, h) {
      var k :| 0 <= k < |txs| && txs[k] == RunAll(EMPTY, txs, cfg).pending[h];
      DecodedComesFrom(seen, |seen|, k);
    }
  }

  /**
    Counters restart at zero, so after a restart they equal those of the uninterrupted run
    exactly when the restart begins with nothing and re-admits every submission.
   */
  lemma RestartedTotalsIff(
      start: ValidCore, txs: seq<Tx>, cfg: Config, taken: nat, unseen: seq<Payload>, seen: seq<Payload>)
    requires taken <= |txs| <= U64_MAX && HashesNameOne(txs)
    requires PartOf(start, txs, cfg, taken) && RecordsRun(txs, cfg, unseen, seen)
    ensures FreshTotals(start, DecodedTxs(seen), cfg) == FreshTotals(EMPTY, txs, cfg) <==>
      start == EMPTY && DecodedTxs(seen) == txs
  {
    hide HashesNameOne, PartOf, RecordsRun, Run, TotalsAfter, DecodedUpTo, AllAtHand;
    var list := DecodedTxs(seen);
    SeenDecodes(txs, cfg, unseen, seen);
    if FreshTotals(start, list, cfg) == FreshTotals(EMPTY, txs, cfg) {
      SubmissionsCountOnce(start, list, |list|, cfg);
      SubmissionsCountOnce(EMPTY, txs, |txs|, cfg);
      AllSubmittedAtHand(start, txs, cfg, seen);
      EndsAsTheRunIff(start, txs, cfg, taken, unseen, seen);
      PendingIsAccounted(start, list, |list|, cfg);
      PendingIsAccounted(EMPTY, txs, |txs|, cfg);
      NoPendingIsEmpty(start);
    }
  }
}
