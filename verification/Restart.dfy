/** The restart as it is executed: sanitise, restore, re-admit; start empty when the snapshot is rejected. */
module Restart {
  import opened Prelude
  import opened SchedulerModel
  import opened EventLog
  import opened History
  import opened LogRefinement
  import opened Rehydration
  import opened Snapshot
  import opened Sanitize
  import opened Lists
  import opened Scheduler
  import opened Accounting
  import Counting

  /** What one event contributes to the re-admissions; a reorged transaction comes from its stored row. */
  function ReplayTx(event: Payload, rows: map<TxHash, Tx>): Option<Tx> {
    match event
    case TxDecoded(tx) => Some(tx)
    case TxReorged(h, _, _) => if h in rows then Some(rows[h]) else None
    case _ => None
  }

  function ReplayTxsUpTo(events: seq<Payload>, rows: map<TxHash, Tx>, i: nat): (r: seq<Tx>)
    requires i <= |events|
    ensures |r| <= i
  {
    if i == 0 then []
    else
      var next := ReplayTx(events[i - 1], rows);
      ReplayTxsUpTo(events, rows, i - 1) + if next.Some? then [next.value] else []
  }

  function ReplayTxs(events: seq<Payload>, rows: map<TxHash, Tx>): seq<Tx> {
    ReplayTxsUpTo(events, rows, |events|)
  }

  method CollectReplayTxs(events: seq<Payload>, rows: map<TxHash, Tx>) returns (txs: seq<Tx>)
    ensures txs == ReplayTxs(events, rows)
  {
    txs := [];
    for i := 0 to |events|
      invariant txs == ReplayTxsUpTo(events, rows, i)
    {
      var next := ReplayTx(events[i], rows);
      if next.Some? {
        txs := txs + [next.value];
      }
    }
  }

  /** Admits a list of transactions in order, discarding the outcomes. */
  method ReadmitAll(s: SchedulerState, txs: seq<Tx>, cfg: Config)
    requires s.Valid() && |s.pending| + |txs| <= U64_MAX
    modifies s
    ensures s.Valid() && s.Model() == RunAll(old(s.Model()), txs, cfg)
    ensures s.totals == TotalsAfter(old(s.totals), old(s.Model()), txs, |txs|, cfg)
  {
    hide SchedulerModel.Admit, WellFormed, Counting.CountsExact, Counting.Classified, CountAdmission, Decide;
    ghost var start: ValidCore, totals := s.Model(), s.totals;
    for i := 0 to |txs|
      invariant s.Valid() && |s.pending| <= |start.pending| + i
      invariant s.Model() == Run(start, txs, i, cfg)
      invariant s.totals == TotalsAfter(totals, start, txs, i, cfg)
    {
      PendingGrowsByAtMostOne(s.Model(), txs[i], cfg);
      OutcomeDecision(s.Model(), txs[i], cfg);
      var _ := s.Admit(txs[i], cfg);
    }
  }

  /** A scheduler rebuilt from an optional snapshot and the transactions to re-admit. */
  method Rehydrate(snapshot: Option<PersistedSnapshot>, txs: seq<Tx>, cfg: Config)
    returns (r: Result<SchedulerState, SnapshotError>)
    requires snapshot.Some? ==> |snapshot.value.pending| + |txs| <= U64_MAX
    requires |txs| <= U64_MAX
    ensures r.Success? ==> fresh(r.value) && r.value.Valid()
    ensures snapshot.None? ==>
      r.Success? && r.value.Model() == RunAll(EMPTY, txs, cfg) && r.value.totals == FreshTotals(EMPTY, txs, cfg)
    ensures snapshot.Some? ==>
      match Restore(snapshot.value)
      case Failure(e) => r == Failure(e)
      case Success(c) =>
        && WellFormed(c) && r.Success? && r.value.Model() == RunAll(c, txs, cfg)
        && r.value.totals == FreshTotals(c, txs, cfg)
  {
    if snapshot.None? {
      var s := new SchedulerState();
      ReadmitAll(s, txs, cfg);
      return Success(s);
    }
    RestoredWithinPending(snapshot.value);
    r := SchedulerState.FromPersistedSnapshot(snapshot.value);
    if r.Success? {
      ReadmitAll(r.value, txs, cfg);
    }
  }

  lemma RestoredWithinPending(snapshot: PersistedSnapshot)
    ensures var r := Restore(snapshot); r.Success? ==> |r.value.pending| <= |snapshot.pending| && WellFormed(r.value)
  {
    RestoredIsWellFormed(snapshot);
    LoadKeysByHash(snapshot.pending, |snapshot.pending|);
  }

  lemma {:induction false} RetainShorter<T>(s: seq<T>, keep: T -> bool, i: nat)
    requires i <= |s|
    ensures |RetainUpTo(s, keep, i)| <= i
  {
    if i > 0 {
      RetainShorter(s, keep, i - 1);
    }
  }

  lemma SanitizedNoLarger(snapshot: PersistedSnapshot, removed: set<TxHash>)
    ensures |Sanitized(snapshot, removed).pending| <= |snapshot.pending|
  {
    RetainShorter(snapshot.pending, TxKept(removed), |snapshot.pending|);
  }

  /** What a restart starts from: the restored snapshot, or nothing. */
  ghost function StartState(snapshot: Option<PersistedSnapshot>, events: seq<Payload>): Result<Core, SnapshotError> {
    if snapshot.None? then Success(EMPTY) else Restore(Sanitized(snapshot.value, Removed(events)))
  }

  /**
    Builds the scheduler of a new process from the rehydration plan. A rejected snapshot
    means an empty scheduler and a request to rebuild it from the node's pending pool.
   */
  method RestartFromPlan(
      snapshot: Option<PersistedSnapshot>, events: seq<Payload>, requiresRebuild: bool, rows: map<TxHash, Tx>,
      cfg: Config)
    returns (s: SchedulerState, rebuild: bool)
    requires |events| + (if snapshot.Some? then |snapshot.value.pending| else 0) <= U64_MAX
    ensures fresh(s) && s.Valid()
    ensures match StartState(snapshot, events)
      case Success(c) =>
        && WellFormed(c) && s.Model() == RunAll(c, ReplayTxs(events, rows), cfg) && rebuild == requiresRebuild
        && s.totals == FreshTotals(c, ReplayTxs(events, rows), cfg)
      case Failure(_) => s.Model() == EMPTY && s.totals == NO_TOTALS && rebuild
  {
    hide Restore, Sanitized, Removed, SchedulerModel.Admit, Counting.CountsExact, Counting.Classified;
    rebuild := requiresRebuild;
    var sanitized := None;
    if snapshot.Some? {
      SanitizedNoLarger(snapshot.value, Removed(events));
      var clean := SanitizeSnapshot(snapshot.value, events);
      sanitized := Some(clean);
    }
    var txs := CollectReplayTxs(events, rows);
    var r := Rehydrate(sanitized, txs, cfg);
    match r {
      case Success(state) => s := state;
      case Failure(_) =>
        rebuild := true;
        s := new SchedulerState();
    }
  }

  // ---------------------------------------------------------------- the restart recovers the run

  lemma {:induction false} NoReorgRecorded(txs: seq<Tx>, cfg: Config, i: nat, k: nat)
    requires i <= |txs| && k < |Recorded(txs, cfg, i)|
    ensures !Recorded(txs, cfg, i)[k].TxReorged?
  {
    hide AdmitOutcome, Run;
    var earlier := Recorded(txs, cfg, i - 1);
    if k < |earlier| {
      NoReorgRecorded(txs, cfg, i - 1, k);
    } else {
      var outcome := AdmitOutcome(Run(EMPTY, txs, i - 1, cfg), txs[i - 1], cfg);
      NoReorgInStep(txs[i - 1], outcome, k - |earlier|);
    }
  }

  lemma NoReorgInStep(tx: Tx, outcome: Outcome, k: nat)
    requires k < |OutcomeEvents(tx, outcome)|
    ensures !OutcomeEvents(tx, outcome)[k].TxReorged?
  {
    TransitionEventAt(outcome.transitions, |outcome.transitions|);
    var decision := DecisionEvents(tx, outcome.admission);
    if k >= |decision| {
      assert OutcomeEvents(tx, outcome)[k] == TransitionEvent(outcome.transitions[k - |decision|]);
    }
  }

  lemma {:induction false} ReplayIsDecoded(events: seq<Payload>, rows: map<TxHash, Tx>, i: nat)
    requires i <= |events| && forall k :: 0 <= k < |events| ==> !events[k].TxReorged?
    ensures ReplayTxsUpTo(events, rows, i) == DecodedUpTo(events, i)
  {
    if i > 0 {
      ReplayIsDecoded(events, rows, i - 1);
    }
  }

  lemma NoReorgSeen(txs: seq<Tx>, cfg: Config, unseen: seq<Payload>, seen: seq<Payload>)
    requires RecordsRun(txs, cfg, unseen, seen)
    ensures forall k :: 0 <= k < |seen| ==> !seen[k].TxReorged?
  {
    hide Log, Recorded, RetainUpTo;
    RecordsOfLog(txs, cfg, |txs|);
    RetainMembers(seen, IsRecording(), |seen|);
    forall k | 0 <= k < |seen| ensures !seen[k].TxReorged? {
      if IsRecording()(seen[k]) {
        var j :| 0 <= j < |Records(seen)| && Records(seen)[j] == seen[k];
        assert Recorded(txs, cfg, |txs|)[|Records(unseen)| + j] == seen[k];
        NoReorgRecorded(txs, cfg, |txs|, |Records(unseen)| + j);
      }
    }
  }

  /** Whatever part of a run's log is replayed, what it re-admits is what it decodes. */
  lemma ReplaysWhatIsDecoded(
      txs: seq<Tx>, cfg: Config, unseen: seq<Payload>, seen: seq<Payload>, rows: map<TxHash, Tx>)
    requires RecordsRun(txs, cfg, unseen, seen)
    ensures ReplayTxs(seen, rows) == DecodedTxs(seen)
  {
    hide RecordsRun, ReplayTxsUpTo, DecodedUpTo;
    NoReorgSeen(txs, cfg, unseen, seen);
    ReplayIsDecoded(seen, rows, |seen|);
  }

  /**
    What a restart from the plan yields for any run, snapshot and earlier watermark: the
    uninterrupted run's state, or the fallback exactly when sanitising breaks a ready run.
   */
  lemma RestartRecovers(
      txs: seq<Tx>, cfg: Config, taken: nat, below: seq<Payload>, above: seq<Payload>, watermark: U64,
      rows: map<TxHash, Tx>)
    requires taken <= |txs| && HashesNameOne(txs)
    requires SplitLog(txs, cfg, taken, below, above)
    ensures var c, removed := Run(EMPTY, txs, taken, cfg), Removed(above);
      var start := StartState(Some(Persist(c).(eventSeqHi := watermark)), above);
      if Counting.Classified(c, true) <= removed || RunsKept(c, removed) then
        && start.Success? && WellFormed(start.value)
        && RunAll(start.value, ReplayTxs(above, rows), cfg) == RunAll(EMPTY, txs, cfg)
      else start == Failure(ExecutableFrontierMismatch)
  {
    hide HashesNameOne, SplitLog, RecordsRun, RunsKept, Restore, Sanitized, Removed, Run,
      Counting.Classified, Records, Log;
    CrashRecovery(txs, cfg, taken, below, above, watermark);
    SplitLogRecords(txs, cfg, taken, below, above);
    ReplaysWhatIsDecoded(txs, cfg, below, above, rows);
  }
}
