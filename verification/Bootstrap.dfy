/**
  A restart from the event store: the snapshot's watermark, the plan read from the bounded
  ring, and what the sanitised restart makes of it when the ring has evicted events.
 */
module Bootstrap {
  import opened Prelude
  import opened Lists
  import opened SchedulerModel
  import opened EventLog
  import opened EventOrder
  import opened EventStore
  import opened EventPages
  import opened History
  import opened LogRefinement
  import opened Rehydration
  import opened Snapshot
  import opened Sanitize
  import opened Restart
  import opened Scheduler
  import opened Accounting
  import opened ReplayFrames
  import Counting

  // ---------------------------------------------------------------- the watermark

  /** The watermark read when the first `read` events have arrived. */
  function WatermarkAt(arrivals: seq<Envelope>, capacity: nat, read: nat): U64
    requires read <= |arrivals|
  {
    if capacity == 0 || read == 0 then 0 else arrivals[read - 1].seqId
  }

  /** The latest retained sequence id, or zero: what a snapshot is stamped with. */
  method ReadWatermark(ring: EventRing) returns (watermark: U64)
    requires ring.Valid() && Numbered(ring.arrivals)
    ensures watermark == WatermarkAt(ring.arrivals, ring.capacity, |ring.arrivals|)
  {
    var latest := ring.LatestSeqId();
    if latest.None? {
      return 0;
    }
    watermark := latest.value;
    LatestIsLast(ring.arrivals, ring.capacity, watermark);
  }

  // ---------------------------------------------------------------- what the plan replays

  /** The events a restart replays: the retained ones above the watermark. */
  function Seen(arrivals: seq<Envelope>, capacity: nat, watermark: U64): seq<Envelope> {
    Retain(LastOf(arrivals, capacity), Above(watermark))
  }

  /**
    How many of the first arrivals a restart does not see: those up to the watermark, which
    was read after `read` of them, and those evicted by now.
   */
  function CutAt(arrivals: seq<Envelope>, capacity: nat, read: nat): (cut: nat)
    requires read <= |arrivals|
    ensures cut <= |arrivals|
  {
    if |arrivals| <= capacity + read then if capacity == 0 then |arrivals| else read else |arrivals| - capacity
  }

  lemma SeenIsTail(arrivals: seq<Envelope>, capacity: nat, read: nat)
    requires Numbered(arrivals) && read <= |arrivals|
    ensures Seen(arrivals, capacity, WatermarkAt(arrivals, capacity, read)) ==
      arrivals[CutAt(arrivals, capacity, read)..]
  {
    var s, cut := LastOf(arrivals, capacity), CutAt(arrivals, capacity, read);
    var watermark := WatermarkAt(arrivals, capacity, read);
    var gone := |arrivals| - |s|;
    var p := cut - gone;
    forall k | 0 <= k < |s| ensures s[k].seqId > watermark <==> p <= k {
      RetainedArrival(arrivals, capacity, k);
    }
    SuffixIsAbove(s, watermark, p, |s|);
    assert s[p..|s|] == arrivals[cut..];
  }

  /** Builds the scheduler of a new process from the event store and the stored snapshot. */
  method Bootstrap(
      ring: EventRing, stored: Option<Stored>, finalized: Option<I64>, maxGapMs: U64,
      rows: map<TxHash, Tx>, cfg: Config)
    returns (s: SchedulerState, rebuild: bool)
    requires ring.Valid() && Numbered(ring.arrivals)
    requires ring.capacity + (if stored.Some? then |stored.value.snapshot.pending| else 0) <= U64_MAX
    ensures fresh(s) && s.Valid()
    ensures rebuild <==>
      && stored.Some?
      && var snapshot := stored.value.snapshot;
         || Outdated(finalized, stored.value.capturedAtUnixMs, maxGapMs)
         || StartState(Some(snapshot), Payloads(Seen(ring.arrivals, ring.capacity, snapshot.eventSeqHi))).Failure?
    ensures stored.None? ==> s.Model() == EMPTY && !rebuild
    ensures stored.Some? && TooOld(finalized, stored.value, maxGapMs) ==> s.Model() == EMPTY && rebuild
    ensures stored.Some? && !TooOld(finalized, stored.value, maxGapMs) ==>
      var snapshot := stored.value.snapshot;
      var seen := Payloads(Seen(ring.arrivals, ring.capacity, snapshot.eventSeqHi));
      match StartState(Some(snapshot), seen)
      case Success(c) =>
        && WellFormed(c) && s.Model() == RunAll(c, ReplayTxs(seen, rows), cfg) && !rebuild
        && s.totals == FreshTotals(c, ReplayTxs(seen, rows), cfg)
      case Failure(_) => s.Model() == EMPTY && s.totals == NO_TOTALS && rebuild
  {
    hide Restore, Sanitized, Removed, SchedulerModel.Admit, Counting.CountsExact, Counting.Classified, LastOf,
      Numbered, InOrder, ReplayTxsUpTo, RetainUpTo;
    NumberedRises(ring.arrivals, ring.capacity);
    NumberedIndex(ring.index, ring.events);
    var plan := RehydrationPlan(ring, stored, finalized, maxGapMs);
    PlanFits(plan.replayEvents, ring.arrivals, ring.capacity);
    s, rebuild := RestartFromPlan(plan.snapshot, Payloads(plan.replayEvents), plan.requiresRebuild, rows, cfg);
    if plan.snapshot.None? {
      NothingReplayed(rows, cfg);
    }
  }

  lemma PlanFits(planned: seq<Envelope>, arrivals: seq<Envelope>, capacity: nat)
    requires planned == [] || multiset(planned) <= multiset(LastOf(arrivals, capacity))
    ensures |planned| <= capacity
  {
    if planned != [] {
      var s := LastOf(arrivals, capacity);
      assert multiset(s) == multiset(planned) + (multiset(s) - multiset(planned));
      assert |multiset(planned)| == |planned| && |multiset(s)| == |s|;
    }
  }

  lemma NothingReplayed(rows: map<TxHash, Tx>, cfg: Config)
    ensures RunAll(EMPTY, ReplayTxs(Payloads([]), rows), cfg) == EMPTY
  {
    assert Payloads([]) == [];
    assert ReplayTxs([], rows) == [];
  }

  // ---------------------------------------------------------------- the restart recovers the run

  /** The arrivals record the run, with any quiet and foreign events mixed in. */
  ghost predicate Stores(arrivals: seq<Envelope>, txs: seq<Tx>, cfg: Config) {
    Numbered(arrivals) && Records(Payloads(arrivals)) == Records(Log(EMPTY, txs, |txs|, cfg))
  }

  lemma {:induction false} RecordsConcat(a: seq<Payload>, b: seq<Payload>, i: nat)
    requires i <= |b|
    ensures RetainUpTo(a + b, IsRecording(), |a| + i) == Records(a) + RetainUpTo(b, IsRecording(), i)
  {
    if i == 0 {
      RecordsPrefix(a, b, |a|);
    } else {
      RecordsConcat(a, b, i - 1);
      assert (a + b)[|a| + i - 1] == b[i - 1];
    }
  }

  lemma {:induction false} RecordsPrefix(a: seq<Payload>, b: seq<Payload>, i: nat)
    requires i <= |a|
    ensures RetainUpTo(a + b, IsRecording(), i) == RetainUpTo(a, IsRecording(), i)
  {
    if i > 0 {
      RecordsPrefix(a, b, i - 1);
    }
  }

  lemma CutRecordsRun(arrivals: seq<Envelope>, txs: seq<Tx>, cfg: Config, cut: nat)
    requires Stores(arrivals, txs, cfg) && cut <= |arrivals|
    ensures RecordsRun(txs, cfg, Payloads(arrivals[..cut]), Payloads(arrivals[cut..]))
  {
    hide Log, RetainUpTo;
    var unseen, seen := Payloads(arrivals[..cut]), Payloads(arrivals[cut..]);
    assert Payloads(arrivals) == unseen + seen;
    RecordsConcat(unseen, seen, |seen|);
  }

  /**
    The executed restart, exactly. Take any run and the numbered arrivals that record it, a
    snapshot taken after `taken` submissions and stamped with the watermark read when
    `read` events had arrived, and a ring of any capacity. The restart either rejects the
    snapshot because sanitising breaks a ready run, or ends in the run's state if and only
    if every transaction pending in the end was kept in the snapshot or is decoded by a
    retained event above the watermark.
   */
  lemma BootstrapRecoversIff(
      txs: seq<Tx>, cfg: Config, taken: nat, arrivals: seq<Envelope>, capacity: nat, read: nat,
      rows: map<TxHash, Tx>)
    requires taken <= |txs| && HashesNameOne(txs)
    requires Stores(arrivals, txs, cfg) && read <= |arrivals|
    ensures var c, end := Run(EMPTY, txs, taken, cfg), RunAll(EMPTY, txs, cfg);
      var watermark := WatermarkAt(arrivals, capacity, read);
      var seen := Payloads(Seen(arrivals, capacity, watermark));
      var start, removed := StartState(Some(Persist(c).(eventSeqHi := watermark)), seen), Removed(seen);
      if Counting.Classified(c, true) <= removed || RunsKept(c, removed) then
        && start == Success(Kept(c, removed)) && WellFormed(start.value)
        && (RunAll(start.value, ReplayTxs(seen, rows), cfg) == end <==> AllAtHand(start.value, end, seen))
      else start == Failure(ExecutableFrontierMismatch)
  {
    hide HashesNameOne, RecordsRun, RunsKept, Restore, Sanitized, Removed, Kept, Run, WellFormed,
      Counting.Classified, AllAtHand, Log, Records, LastOf, RetainUpTo, Stores;
    var watermark, cut := WatermarkAt(arrivals, capacity, read), CutAt(arrivals, capacity, read);
    StoresNumbered(arrivals, txs, cfg);
    SeenIsTail(arrivals, capacity, read);
    var unseen, seen := Payloads(arrivals[..cut]), Payloads(arrivals[cut..]);
    CutRecordsRun(arrivals, txs, cfg, cut);
    CrashRecoveryIff(txs, cfg, taken, unseen, seen, watermark);
    ReplaysWhatIsDecoded(txs, cfg, unseen, seen, rows);
  }

  lemma StoresNumbered(arrivals: seq<Envelope>, txs: seq<Tx>, cfg: Config)
    requires Stores(arrivals, txs, cfg)
    ensures Numbered(arrivals)
  {
  }

  ghost predicate NothingForeign(events: seq<Envelope>) {
    forall e :: e in events ==> !Foreign(e.payload)
  }

  lemma {:induction false} NothingForeignLoud(events: seq<Envelope>, i: nat)
    requires i <= |events| && NothingForeign(events)
    ensures RetainUpTo(Payloads(events), IsRecording(), i) == LoudUpTo(Payloads(events), i)
  {
    if i > 0 {
      NothingForeignLoud(events, i - 1);
      assert events[i - 1] in events;
    }
  }

  /**
    Eviction does no harm as long as everything the restart does not see records
    submissions that the snapshot holds: then it recovers the run or rejects the snapshot.
   */
  lemma BootstrapRecovers(
      txs: seq<Tx>, cfg: Config, taken: nat, arrivals: seq<Envelope>, capacity: nat, read: nat,
      rows: map<TxHash, Tx>)
    requires taken <= |txs| && HashesNameOne(txs)
    requires Stores(arrivals, txs, cfg) && read <= |arrivals| && NothingForeign(arrivals)
    requires |Records(Payloads(arrivals[..CutAt(arrivals, capacity, read)]))| <= |Records(Log(EMPTY, txs, taken, cfg))|
    ensures var c, watermark := Run(EMPTY, txs, taken, cfg), WatermarkAt(arrivals, capacity, read);
      var seen := Payloads(Seen(arrivals, capacity, watermark));
      var start, removed := StartState(Some(Persist(c).(eventSeqHi := watermark)), seen), Removed(seen);
      if Counting.Classified(c, true) <= removed || RunsKept(c, removed) then
        && start.Success? && WellFormed(start.value)
        && RunAll(start.value, ReplayTxs(seen, rows), cfg) == RunAll(EMPTY, txs, cfg)
      else start == Failure(ExecutableFrontierMismatch)
  {
    hide HashesNameOne, RunsKept, Restore, Sanitized, Removed, Run, WellFormed, Counting.Classified,
      LastOf, SplitLog, Stores, RetainUpTo, LoudUpTo, Log, NothingForeign;
    var watermark, cut := WatermarkAt(arrivals, capacity, read), CutAt(arrivals, capacity, read);
    StoresNumbered(arrivals, txs, cfg);
    SeenIsTail(arrivals, capacity, read);
    CutIsSplit(txs, cfg, taken, arrivals, cut);
    RestartRecovers(txs, cfg, taken, Payloads(arrivals[..cut]), Payloads(arrivals[cut..]), watermark, rows);
  }

  lemma CutIsSplit(txs: seq<Tx>, cfg: Config, taken: nat, arrivals: seq<Envelope>, cut: nat)
    requires taken <= |txs| && cut <= |arrivals| && Stores(arrivals, txs, cfg) && NothingForeign(arrivals)
    requires |Records(Payloads(arrivals[..cut]))| <= |Records(Log(EMPTY, txs, taken, cfg))|
    ensures SplitLog(txs, cfg, taken, Payloads(arrivals[..cut]), Payloads(arrivals[cut..]))
  {
    hide RetainUpTo, LoudUpTo, Log, Recorded, Stores;
    CutRecordsRun(arrivals, txs, cfg, cut);
    NothingForeignLoud(arrivals[..cut], cut);
    NothingForeignLoud(arrivals[cut..], |arrivals| - cut);
    RecordsOfLog(txs, cfg, |txs|);
    RecordsOfLog(txs, cfg, taken);
    LoudOfLog(txs, cfg, |txs|);
    LoudOfLog(txs, cfg, taken);
  }

  // ---------------------------------------------------------------- an instance of harmful eviction

  /**
    One admission after an empty snapshot, and a ring just too small for its decoding: the
    plan asks for no rebuild, yet the restarted scheduler holds nothing.
   */
  lemma EvictedAdmissionIsLost(tx: Tx, cfg: Config, arrivals: seq<Envelope>, rows: map<TxHash, Tx>)
    requires cfg.maxPendingPerSender > 0 && Numbered(arrivals)
    requires Payloads(arrivals) == Log(EMPTY, [tx], 1, cfg)
    ensures |arrivals| >= 3 && tx.hash in RunAll(EMPTY, [tx], cfg).pending
    ensures var seen := Payloads(Seen(arrivals, |arrivals| - 3, WatermarkAt(arrivals, |arrivals| - 3, 0)));
      && StartState(Some(Persist(EMPTY)), seen) == Success(EMPTY)
      && RunAll(EMPTY, ReplayTxs(seen, rows), cfg) == EMPTY
  {
    hide Removed, Restore, Sanitized, Persist, Kept, Counting.Classified, LastOf, Run, Log, Retain, StartState;
    OneAdmission(tx, cfg);
    var rest := TailAfterDecoding(tx, cfg);
    var seen := Payloads(arrivals[3..]);
    assert |arrivals| == |Payloads(arrivals)| && seen == Payloads(arrivals)[3..];
    assert seen == rest;
    SeenIsTail(arrivals, |arrivals| - 3, 0);
    NothingToReadmit(seen, rows, |seen|);
    NothingRuns(cfg);
    EmptyRestores(seen);
  }

  lemma NothingRuns(cfg: Config)
    ensures RunAll(EMPTY, [], cfg) == EMPTY
  {
  }

  lemma TailAfterDecoding(tx: Tx, cfg: Config) returns (rest: seq<Payload>)
    requires cfg.maxPendingPerSender > 0
    ensures Log(EMPTY, [tx], 1, cfg) == [TxSeen(tx.hash), TxFetched(tx.hash), TxDecoded(tx)] + rest
    ensures forall k :: 0 <= k < |rest| ==> !rest[k].TxDecoded? && !rest[k].TxReorged?
  {
    hide AdmitOutcome, Decide;
    OneAdmission(tx, cfg);
    OutcomeDecision(EMPTY, tx, cfg);
    var ts := AdmitOutcome(EMPTY, tx, cfg).transitions;
    rest := TransitionEvents(ts, |ts|);
    assert Log(EMPTY, [tx], 0, cfg) == [];
    TransitionEventAt(ts, |ts|);
  }

  lemma OneAdmission(tx: Tx, cfg: Config)
    requires cfg.maxPendingPerSender > 0
    ensures Decide(EMPTY, tx, cfg) == Admitted && RunAll(EMPTY, [tx], cfg).pending == map[tx.hash := tx]
  {
    assert Run(EMPTY, [tx], 0, cfg) == EMPTY;
    assert |QueueOf(EMPTY, tx.sender)| == 0;
  }

  lemma {:induction false} NothingToReadmit(events: seq<Payload>, rows: map<TxHash, Tx>, i: nat)
    requires i <= |events| && forall k :: 0 <= k < |events| ==> !events[k].TxDecoded? && !events[k].TxReorged?
    ensures ReplayTxsUpTo(events, rows, i) == []
  {
    if i > 0 {
      NothingToReadmit(events, rows, i - 1);
    }
  }

  lemma EmptyRestores(seen: seq<Payload>)
    ensures StartState(Some(Persist(EMPTY)), seen) == Success(EMPTY)
  {
    hide Removed, Restore, Sanitized, Persist, Counting.Classified, RunsKept;
    EmptyIsBijective();
    SanitizedRestore(EMPTY, Removed(seen), 0);
    NothingClassified(true);
    assert Kept(EMPTY, Removed(seen)) == EMPTY;
    assert Persist(EMPTY).(eventSeqHi := 0) == Persist(EMPTY) by {
      FreshWatermark(EMPTY);
    }
  }

  lemma FreshWatermark(c: Core)
    requires WellFormed(c)
    ensures Persist(c).eventSeqHi == 0
  {
  }

  lemma NothingClassified(ready: bool)
    ensures Counting.Classified(EMPTY, ready) == {}
  {
  }
}
