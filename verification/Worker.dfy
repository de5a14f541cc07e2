/** One ingest worker: asks the scheduler, then appends the events that record its answer. */
module Worker {
  import opened Prelude
  import opened Ordered
  import opened SchedulerModel
  import opened EventLog
  import opened LogRefinement
  import opened Scheduler
  import MempoolMachine

  /** How an admission is persisted. */
  datatype Persistence =
    | Kept
    | AlreadyKnown
    | Superseding(replacedHash: TxHash)
    | Refused(reason: string)
  {
    predicate EmitsDecoded() {
      Kept? || Superseding?
    }
  }

  function FromAdmission(a: Admission): Persistence {
    match a
    case Admitted => Kept
    case Duplicate => AlreadyKnown
    case Replaced(h) => Superseding(h)
    case UnderpricedReplacement => Refused(UNDERPRICED)
    case SenderLimitReached => Refused(SENDER_LIMIT)
  }

  function DecisionRecord(tx: Tx, d: Persistence): seq<Payload> {
    match d
    case Kept => [TxDecoded(tx)]
    case AlreadyKnown => []
    case Superseding(incumbent) => [TxReplaced(incumbent, tx.hash), TxDecoded(tx)]
    case Refused(reason) => [TxDropped(tx.hash, reason)]
  }

  /** Appends what precedes the queue transitions; a replaced incumbent's candidates become stale. */
  method RecordDecision(s: SchedulerState, tx: Tx, decision: Persistence, log: seq<Payload>)
    returns (extended: seq<Payload>)
    modifies s`candidates
    ensures extended == log + ([TxSeen(tx.hash), TxFetched(tx.hash)] + DecisionRecord(tx, decision))
    ensures s.Register() ==
      if decision.Superseding? then Handoff.Invalidate(old(s.Register()), decision.replacedHash) else old(s.Register())
  {
    extended := log + [TxSeen(tx.hash)];
    extended := extended + [TxFetched(tx.hash)];
    if decision.Superseding? {
      extended := extended + [TxReplaced(decision.replacedHash, tx.hash)];
      s.InvalidateCandidateHash(decision.replacedHash);
    }
    if decision.EmitsDecoded() {
      extended := extended + [TxDecoded(tx)];
    }
    if decision.Refused? {
      extended := extended + [TxDropped(tx.hash, decision.reason)];
    }
  }

  /** Processes one fetched transaction. */
  method ProcessFetched(s: SchedulerState, tx: Tx, cfg: Config, log: seq<Payload>) returns (extended: seq<Payload>)
    requires s.Valid() && |s.pending| < U64_MAX
    modifies s
    ensures s.Valid()
    ensures s.Model() == Admit(old(s.Model()), tx, cfg)
    ensures extended == log + Emission(old(s.Model()), tx, cfg)
    ensures s.Register() ==
      if Decide(old(s.Model()), tx, cfg).Replaced? then
        Handoff.Invalidate(old(s.Register()), Decide(old(s.Model()), tx, cfg).replacedHash)
      else old(s.Register())
  {
    hide SchedulerModel.Admit, Decide, QueueTransitions, Positions;
    var outcome := s.Admit(tx, cfg);
    extended := RecordDecision(s, tx, FromAdmission(outcome.admission), log);
    extended := AppendTransitions(extended, outcome.transitions);
  }

  /** With a full ingress queue the scheduler is not asked. */
  method ProcessQueueFull(s: SchedulerState, tx: Tx, log: seq<Payload>) returns (extended: seq<Payload>)
    modifies s`candidates
    ensures extended == log + [TxSeen(tx.hash), TxFetched(tx.hash), TxDropped(tx.hash, "queue_full")]
    ensures s.Register() == old(s.Register())
  {
    extended := RecordDecision(s, tx, Refused(QUEUE_FULL), log);
  }

  method AppendTransitions(log: seq<Payload>, transitions: seq<Transition>) returns (extended: seq<Payload>)
    ensures extended == log + TransitionEvents(transitions, |transitions|)
  {
    extended := log;
    for i := 0 to |transitions|
      invariant extended == log + TransitionEvents(transitions, i)
    {
      extended := extended + [TransitionEvent(transitions[i])];
    }
  }

  /** A worker's whole run from a fresh scheduler, and the log it leaves. */
  method IngestAll(txs: seq<Tx>, cfg: Config) returns (s: SchedulerState, log: seq<Payload>)
    requires |txs| <= U64_MAX
    ensures fresh(s) && s.Valid()
    ensures s.Model() == RunAll(EMPTY, txs, cfg)
    ensures log == Log(EMPTY, txs, |txs|, cfg)
  {
    hide SchedulerModel.Admit, Emission, WellFormed, Counting.CountsExact, Counting.Classified;
    s := new SchedulerState();
    log := [];
    for i := 0 to |txs|
      invariant fresh(s) && s.Valid() && |s.pending| <= i
      invariant s.Model() == Run(EMPTY, txs, i, cfg)
      invariant log == Log(EMPTY, txs, i, cfg)
    {
      PendingGrowsByAtMostOne(s.Model(), txs[i], cfg);
      log := ProcessFetched(s, txs[i], cfg, log);
    }
  }

  method ReplayLog(log: seq<Payload>) returns (m: MempoolMachine.MempoolState)
    ensures fresh(m) && m.Model() == Mempool.ReplayAll(Mempool.EMPTY_POOL, log)
  {
    m := new MempoolMachine.MempoolState();
    for i := 0 to |log|
      invariant fresh(m) && m.Model() == Mempool.Replay(Mempool.EMPTY_POOL, log, i)
    {
      m.ApplyEvent(log[i]);
    }
  }

  /** Both machines side by side: the replayed pending hashes and queues are the scheduler's own. */
  method IngestThenReplay(txs: seq<Tx>, cfg: Config)
    returns (s: SchedulerState, pending: seq<TxHash>, view: seq<Mempool.QueueView>)
    requires |txs| <= U64_MAX
    ensures fresh(s) && s.Valid() && s.Model() == RunAll(EMPTY, txs, cfg)
    ensures pending == Ascending(s.pending.Keys)
    ensures view == SchedulerView(s.Model())
  {
    var log;
    s, log := IngestAll(txs, cfg);
    var m := ReplayLog(log);
    ReplayRebuildsScheduler(txs, |txs|, cfg, log);
    pending := m.SortedPendingHashes();
    view := m.SenderQueues();
  }
}
