/** The scheduler state as the actor mutates it, one command at a time. */
module Scheduler {
  import opened Prelude
  import opened Ordered
  import opened NonceGap
  import opened Fees
  import opened SchedulerModel
  import opened Counting
  import opened Handoff
  import opened Snapshot

  // ---------------------------------------------------------------- queue traversals
  // Each walks one queue in ascending nonce order with the shared cursor.

  ghost predicate AllPending(queue: Queue, pending: map<TxHash, Tx>) {
    forall n :: n in queue ==> queue[n] in pending
  }

  lemma QueuesArePending(c: Core, sender: Address)
    requires WellFormed(c) && sender in c.queues
    ensures AllPending(c.queues[sender], c.pending)
  {
    var q := c.queues[sender];
    forall n | n in q ensures q[n] in c.pending {
      assert FillsSlot(c, q[n], sender, n);
    }
  }

  method PositionsInQueue(queue: Queue, pending: map<TxHash, Tx>) returns (positions: seq<Position>)
    requires AllPending(queue, pending)
    ensures positions == Positions(queue)
  {
    VisitStart(queue.Keys);
    positions := [];
    var cursor := START;
    var nonces := NonceKeys(queue.Keys);
    for i := 0 to |nonces|
      invariant Visiting(queue.Keys, i, cursor)
      invariant positions == PositionsUpTo(queue, i)
    {
      VisitNext(queue.Keys, i, cursor);
      var nonce, hash := nonces[i], queue[nonces[i]];
      if hash !in pending {
        assert false;  // a queued hash is always pending
      }
      var (state, advanced) := QueueEntryState(cursor, nonce);
      cursor := advanced;
      positions := positions + [Position(hash, nonce, state)];
    }
  }

  method CountQueue(queue: Queue, pending: map<TxHash, Tx>) returns (counts: Counts)
    requires AllPending(queue, pending) && |queue.Keys| <= U64_MAX
    ensures counts == Counts(CountUpTo(queue, true, |queue.Keys|), CountUpTo(queue, false, |queue.Keys|))
  {
    VisitStart(queue.Keys);
    var ready: Usize, blocked: Usize := 0, 0;
    var cursor := START;
    var nonces := NonceKeys(queue.Keys);
    for i := 0 to |nonces|
      invariant Visiting(queue.Keys, i, cursor)
      invariant ready == CountUpTo(queue, true, i) && blocked == CountUpTo(queue, false, i)
    {
      VisitNext(queue.Keys, i, cursor);
      var nonce, hash := nonces[i], queue[nonces[i]];
      if hash !in pending {
        assert false;  // a queued hash is always pending
      }
      var (state, advanced) := QueueEntryState(cursor, nonce);
      cursor := advanced;
      match state {
        case Ready => ready := SaturatingAdd(ready, 1);
        case Blocked(_) => blocked := SaturatingAdd(blocked, 1);
      }
    }
    counts := Counts(ready, blocked);
  }

  method ClassifyQueue(queue: Queue, pending: map<TxHash, Tx>) returns (ready: seq<Tx>, blocked: seq<Tx>)
    requires AllPending(queue, pending)
    ensures ready == TxsOfKind(queue, pending, true, |queue.Keys|)
    ensures blocked == TxsOfKind(queue, pending, false, |queue.Keys|)
  {
    VisitStart(queue.Keys);
    ready, blocked := [], [];
    var cursor := START;
    var nonces := NonceKeys(queue.Keys);
    for i := 0 to |nonces|
      invariant Visiting(queue.Keys, i, cursor)
      invariant ready == TxsOfKind(queue, pending, true, i) && blocked == TxsOfKind(queue, pending, false, i)
    {
      VisitNext(queue.Keys, i, cursor);
      var nonce, hash := nonces[i], queue[nonces[i]];
      if hash !in pending {
        assert false;  // a queued hash is always pending
      }
      var (state, advanced) := QueueEntryState(cursor, nonce);
      cursor := advanced;
      match state {
        case Ready => ready := ready + [pending[hash]];
        case Blocked(_) => blocked := blocked + [pending[hash]];
      }
    }
  }

  method QueueFrontier(queue: Queue, pending: map<TxHash, Tx>) returns (frontier: seq<TxHash>)
    requires AllPending(queue, pending)
    ensures frontier == KindOf(queue, true)
  {
    VisitStart(queue.Keys);
    frontier := [];
    var cursor := START;
    var nonces := NonceKeys(queue.Keys);
    for i := 0 to |nonces|
      invariant Visiting(queue.Keys, i, cursor)
      invariant frontier == KindUpTo(queue, true, i)
    {
      VisitNext(queue.Keys, i, cursor);
      var nonce, hash := nonces[i], queue[nonces[i]];
      if hash !in pending {
        assert false;  // a queued hash is always pending
      }
      var (state, advanced) := QueueEntryState(cursor, nonce);
      cursor := advanced;
      if state.Ready? {
        frontier := frontier + [hash];
      }
    }
  }

  method PendingValues(pending: map<TxHash, Tx>) returns (txs: seq<Tx>)
    ensures txs == PendingList(pending)
  {
    txs := [];
    var hashes := AscendingKeys(pending.Keys);
    for i := 0 to |hashes|
      invariant txs == PendingUpTo(pending, i)
    {
      assert hashes[i] in pending.Keys;
      txs := txs + [pending[hashes[i]]];
    }
  }

  method PersistedEntries(queue: Queue) returns (entries: seq<PersistedEntry>)
    ensures entries == EntriesOf(queue)
  {
    entries := [];
    var nonces := NonceKeys(queue.Keys);
    for i := 0 to |nonces|
      invariant entries == EntriesUpTo(queue, i)
    {
      assert nonces[i] in queue.Keys;
      entries := entries + [PersistedEntry(nonces[i], queue[nonces[i]])];
    }
  }

  method PersistedSenderQueues(queues: Queues) returns (written: seq<PersistedQueue>)
    ensures written == QueueList(queues)
  {
    written := [];
    var senders := AscendingKeys(queues.Keys);
    for k := 0 to |senders|
      invariant written == QueuesUpTo(queues, k)
    {
      assert senders[k] in queues.Keys;
      var entries := PersistedEntries(queues[senders[k]]);
      written := written + [PersistedQueue(senders[k], entries)];
    }
  }

  ghost predicate AllQueuesPending(queues: Queues, pending: map<TxHash, Tx>) {
    forall s :: s in queues ==> AllPending(queues[s], pending)
  }

  lemma NoSenders(queues: Queues, pending: map<TxHash, Tx>, ready: bool)
    requires AllQueuesPending(queues, pending)
    ensures TxsOfSenders(queues, pending, ready, 0) == []
  {
  }

  lemma NextSender(queues: Queues, pending: map<TxHash, Tx>, ready: bool, k: nat)
    requires AllQueuesPending(queues, pending) && k < |queues.Keys|
    ensures var s := Ascending(queues.Keys)[k];
      && s in queues && AllPending(queues[s], pending)
      && TxsOfSenders(queues, pending, ready, k + 1) ==
        TxsOfSenders(queues, pending, ready, k) + TxsOfKind(queues[s], pending, ready, |queues[s].Keys|)
  {
    hide AllPending, TxsOfKind;
    assert Ascending(queues.Keys)[k] in queues.Keys;
  }

  method ClassifySenders(queues: Queues, pending: map<TxHash, Tx>) returns (ready: seq<Tx>, blocked: seq<Tx>)
    requires AllQueuesPending(queues, pending)
    ensures ready == TxsOfSenders(queues, pending, true, |queues.Keys|)
    ensures blocked == TxsOfSenders(queues, pending, false, |queues.Keys|)
  {
    hide AllPending, TxsOfKind, TxsOfSenders;
    ready, blocked := [], [];
    NoSenders(queues, pending, true);
    NoSenders(queues, pending, false);
    var senders := AscendingKeys(queues.Keys);
    for k := 0 to |senders|
      invariant ready == TxsOfSenders(queues, pending, true, k) && blocked == TxsOfSenders(queues, pending, false, k)
    {
      assert senders[k] in queues.Keys;
      NextSender(queues, pending, true, k);
      NextSender(queues, pending, false, k);
      var r, b := ClassifyQueue(queues[senders[k]], pending);
      ready, blocked := ready + r, blocked + b;
    }
  }

  method FrontierOfSenders(queues: Queues, pending: map<TxHash, Tx>) returns (frontier: seq<TxHash>)
    requires AllQueuesPending(queues, pending)
    ensures frontier == Frontier(queues)
  {
    frontier := [];
    var senders := AscendingKeys(queues.Keys);
    for k := 0 to |senders|
      invariant frontier == ListingUpTo(queues, true, k)
    {
      assert senders[k] in queues.Keys;
      var f := QueueFrontier(queues[senders[k]], pending);
      frontier := frontier + f;
    }
  }

  // ---------------------------------------------------------------- what the traversals compute

  ghost function CountUpTo(q: Queue, ready: bool, i: nat): (n: nat)
    requires i <= |q.Keys|
    ensures n <= i
  {
    if i == 0 then 0
    else
      var n := Nonces(q.Keys)[i - 1];
      assert n in q.Keys;
      CountUpTo(q, ready, i - 1) + if Label(q.Keys, n).Ready? == ready then 1 else 0
  }

  lemma {:induction false} CountIsPrefix(q: Queue, ready: bool, i: nat)
    requires i <= |q.Keys| && DistinctPositions(Positions(q))
    ensures CountUpTo(q, ready, i) == |Prefix(Positions(q), ready, i)|
  {
    if i > 0 {
      CountIsPrefix(q, ready, i - 1);
      PositionAt(q, |q.Keys|, i - 1);
      PrefixStep(Positions(q), ready, i - 1);
    }
  }

  /** The transactions of one kind among the first `i` entries of a queue. */
  ghost function TxsOfKind(q: Queue, pending: map<TxHash, Tx>, ready: bool, i: nat): seq<Tx>
    requires i <= |q.Keys|
  {
    if i == 0 then []
    else
      var n := Nonces(q.Keys)[i - 1];
      assert n in q.Keys;
      TxsOfKind(q, pending, ready, i - 1) +
      if Label(q.Keys, n).Ready? == ready && q[n] in pending then [pending[q[n]]] else []
  }

  ghost function TxsOfSenders(queues: Queues, pending: map<TxHash, Tx>, ready: bool, k: nat): seq<Tx>
    requires k <= |queues.Keys|
  {
    if k == 0 then []
    else
      var s := Ascending(queues.Keys)[k - 1];
      assert s in queues.Keys;
      TxsOfSenders(queues, pending, ready, k - 1) + TxsOfKind(queues[s], pending, ready, |queues[s].Keys|)
  }

  /** The ready (or blocked) transactions by sender, then by nonce. */
  ghost function OfKind(c: Core, ready: bool): seq<Tx> {
    TxsOfSenders(c.queues, c.pending, ready, |c.queues.Keys|)
  }

  function HashesOf(txs: seq<Tx>): seq<TxHash> {
    seq(|txs|, i requires 0 <= i < |txs| => txs[i].hash)
  }

  lemma HashesOfConcat(a: seq<Tx>, b: seq<Tx>)
    ensures HashesOf(a + b) == HashesOf(a) + HashesOf(b)
  {
  }

  lemma {:induction false} HashesOfKind(q: Queue, pending: map<TxHash, Tx>, ready: bool, i: nat)
    requires AllPending(q, pending) && i <= |q.Keys|
    requires forall h :: h in pending ==> pending[h].hash == h
    ensures HashesOf(TxsOfKind(q, pending, ready, i)) == KindUpTo(q, ready, i)
  {
    if i > 0 {
      HashesOfKind(q, pending, ready, i - 1);
      var n := Nonces(q.Keys)[i - 1];
      assert n in q.Keys;
      HashesOfConcat(TxsOfKind(q, pending, ready, i - 1), [pending[q[n]]]);
    }
  }

  lemma {:induction false} HashesOfSenders(queues: Queues, pending: map<TxHash, Tx>, ready: bool, k: nat)
    requires AllQueuesPending(queues, pending) && k <= |queues.Keys|
    requires forall h :: h in pending ==> pending[h].hash == h
    ensures HashesOf(TxsOfSenders(queues, pending, ready, k)) == ListingUpTo(queues, ready, k)
  {
    if k > 0 {
      HashesOfSenders(queues, pending, ready, k - 1);
      var s := Ascending(queues.Keys)[k - 1];
      assert s in queues.Keys;
      HashesOfKind(queues[s], pending, ready, |queues[s].Keys|);
      HashesOfConcat(TxsOfSenders(queues, pending, ready, k - 1),
                     TxsOfKind(queues[s], pending, ready, |queues[s].Keys|));
    }
  }

  /** The hashes of the ready transactions are the executable frontier. */
  lemma FrontierOfKind(c: Core)
    requires WellFormed(c)
    ensures HashesOf(OfKind(c, true)) == Frontier(c.queues)
  {
    AllSendersPending(c);
    HashesOfSenders(c.queues, c.pending, true, |c.queues.Keys|);
  }

  lemma AllSendersPending(c: Core)
    requires WellFormed(c)
    ensures AllQueuesPending(c.queues, c.pending)
  {
    forall s | s in c.queues ensures AllPending(c.queues[s], c.pending) {
      QueuesArePending(c, s);
    }
  }

  lemma CountsAreClassified(c: Core, sender: Address, ready: bool)
    requires WellFormed(c) && sender in c.queues
    ensures CountUpTo(c.queues[sender], ready, |c.queues[sender].Keys|) == |OfSender(c, ready, sender)|
  {
    DistinctHashes(c, sender);
    CountIsPrefix(c.queues[sender], ready, |c.queues[sender].Keys|);
    PrefixComplete(c, sender, ready);
  }

  /** A queue holds at most as many entries as there are pending transactions. */
  lemma QueueWithinPending(c: Core, sender: Address)
    requires WellFormed(c) && sender in c.queues
    ensures |c.queues[sender].Keys| <= |c.pending|
  {
    var ps := Positions(c.queues[sender]);
    DistinctHashes(c, sender);
    AllDistinct(ps, |ps|);
    SubsetSize(set j | 0 <= j < |ps| :: ps[j].hash, c.pending.Keys);
  }

  lemma {:induction false} AllDistinct(ps: seq<Position>, i: nat)
    requires DistinctPositions(ps) && i <= |ps|
    ensures |set j | 0 <= j < i :: ps[j].hash| == i
  {
    if i > 0 {
      AllDistinct(ps, i - 1);
      assert (set j | 0 <= j < i :: ps[j].hash) == (set j | 0 <= j < i - 1 :: ps[j].hash) + {ps[i - 1].hash};
    }
  }

  datatype Totals = Totals(
    admitted: U64, duplicate: U64, replacement: U64, underpricedReplacement: U64, senderLimitDrop: U64)

  const NO_TOTALS := Totals(0, 0, 0, 0, 0)

  /** How the admission counters move. */
  function CountAdmission(t: Totals, a: Admission): Totals {
    match a
    case Duplicate => t.(duplicate := SaturatingAdd(t.duplicate, 1))
    case Admitted => t.(admitted := SaturatingAdd(t.admitted, 1))
    case Replaced(_) => t.(admitted := SaturatingAdd(t.admitted, 1), replacement := SaturatingAdd(t.replacement, 1))
    case UnderpricedReplacement => t.(underpricedReplacement := SaturatingAdd(t.underpricedReplacement, 1))
    case SenderLimitReached => t.(senderLimitDrop := SaturatingAdd(t.senderLimitDrop, 1))
  }

  lemma RejectedOutcome(c: Core, tx: Tx, cfg: Config, d: Admission)
    requires WellFormed(c) && d == Decide(c, tx, cfg) && !d.IsAdmitted()
    ensures SchedulerModel.Admit(c, tx, cfg) == c
    ensures AdmitOutcome(c, tx, cfg) == Outcome(d, [])
  {
  }

  lemma OccupiedSlot(c: Core, tx: Tx)
    requires WellFormed(c) && Occupied(c, tx.sender, tx.nonce)
    ensures tx.sender in c.queues && tx.nonce in c.queues[tx.sender]
    ensures FillsSlot(c, c.queues[tx.sender][tx.nonce], tx.sender, tx.nonce)
    ensures Occupant(c, tx.sender, tx.nonce) == c.pending[c.queues[tx.sender][tx.nonce]]
    ensures Occupant(c, tx.sender, tx.nonce).hash == c.queues[tx.sender][tx.nonce]
  {
    assert FillsSlot(c, c.queues[tx.sender][tx.nonce], tx.sender, tx.nonce);
  }

  lemma ReplacingModel(c: Core, tx: Tx, cfg: Config)
    requires WellFormed(c) && Decide(c, tx, cfg).Replaced?
    ensures tx.sender in c.queues && tx.nonce in c.queues[tx.sender]
    ensures SchedulerModel.Admit(c, tx, cfg) ==
      Core((c.pending - {c.queues[tx.sender][tx.nonce]})[tx.hash := tx],
           c.queues[tx.sender := QueueOf(c, tx.sender)[tx.nonce := tx.hash]])
  {
    OccupiedSlot(c, tx);
  }

  lemma AddingModel(c: Core, tx: Tx, cfg: Config)
    requires WellFormed(c) && Decide(c, tx, cfg).Admitted?
    ensures SchedulerModel.Admit(c, tx, cfg) ==
      Core(c.pending[tx.hash := tx], c.queues[tx.sender := QueueOf(c, tx.sender)[tx.nonce := tx.hash]])
  {
  }

  /** Exchanging the sender's share of exact counts gives exact counts of the admitted state, without clamping. */
  lemma RefreshFits(before: ValidCore, tx: Tx, cfg: Config, counts: map<Address, Counts>)
    requires CountsExact(counts, before) && |SchedulerModel.Admit(before, tx, cfg).pending| <= U64_MAX
    requires WellFormed(SchedulerModel.Admit(before, tx, cfg)) && |before.pending| <= U64_MAX
    ensures var c', was := SchedulerModel.Admit(before, tx, cfg), CountsFor(counts, tx.sender);
      && was.ready <= |Classified(before, true)| && was.blocked <= |Classified(before, false)|
      && |Classified(before, true)| - was.ready + ExactCounts(c', tx.sender).ready == |Classified(c', true)| <= U64_MAX
      && |Classified(before, false)| - was.blocked + ExactCounts(c', tx.sender).blocked ==
         |Classified(c', false)| <= U64_MAX
      && CountsExact(SetCounts(counts, tx.sender, ExactCounts(c', tx.sender)), c')
  {
    hide Classified, OfSender, SchedulerModel.Admit, Decide;
    TotalsAfterAdmit(before, tx, cfg, true);
    TotalsAfterAdmit(before, tx, cfg, false);
    CountsStayExact(counts, before, tx, cfg);
  }

  class SchedulerState {
    var pending: map<TxHash, Tx>
    var senderQueues: map<Address, Queue>
    var senderQueueCounts: map<Address, Counts>
    var candidates: map<CandidateId, Entry>
    var headBlockNumber: U64
    var totals: Totals
    var staleSimulationDropTotal: U64
    var readyTotal: Usize
    var blockedTotal: Usize

    /** The pending transactions and their queues. */
    ghost function Model(): Core
      reads this`pending, this`senderQueues
    {
      Core(pending, senderQueues)
    }

    /** The candidates and the head block. */
    ghost function Register(): Book
      reads this`candidates, this`headBlockNumber
    {
      Book(candidates, headBlockNumber)
    }

    /** The cached per-sender counts and both totals equal a from-scratch classification. */
    ghost predicate CountsCurrent(c: Core)
      reads this`senderQueueCounts, this`readyTotal, this`blockedTotal
    {
      && CountsExact(senderQueueCounts, c)
      && readyTotal == |Classified(c, true)|
      && blockedTotal == |Classified(c, false)|
    }

    ghost predicate Valid()
      reads this`pending, this`senderQueues, this`senderQueueCounts, this`readyTotal, this`blockedTotal
    {
      && WellFormed(Model())
      && |pending| <= U64_MAX
      && CountsCurrent(Model())
    }

    constructor ()
      ensures Valid()
      ensures Model() == EMPTY && Register() == EMPTY_BOOK
      ensures totals == NO_TOTALS && staleSimulationDropTotal == 0
    {
      pending, senderQueues, senderQueueCounts := map[], map[], map[];
      candidates, headBlockNumber := map[], 0;
      totals, staleSimulationDropTotal := NO_TOTALS, 0;
      readyTotal, blockedTotal := 0, 0;
    }

    /** A state holding restored transactions and queues: counters at zero, queue counts recomputed. */
    constructor Restored(pending: map<TxHash, Tx>, queues: map<Address, Queue>)
      requires WellFormed(Core(pending, queues)) && |pending| <= U64_MAX
      ensures Model() == Core(pending, queues) && Register() == EMPTY_BOOK
      ensures totals == NO_TOTALS && staleSimulationDropTotal == 0
      ensures Valid()
    {
      this.pending, senderQueues, senderQueueCounts := pending, queues, map[];
      candidates, headBlockNumber := map[], 0;
      totals, staleSimulationDropTotal := NO_TOTALS, 0;
      readyTotal, blockedTotal := 0, 0;
      new;
      RecomputeQueueCounts();
    }

    // -------------------------------------------------------------- admission
    // One admission is one call of Admit; the methods below it are its branches.

    method Admit(tx: Tx, cfg: Config) returns (outcome: Outcome)
      requires Valid() && |pending| < U64_MAX
      modifies this`pending, this`senderQueues, this`totals, this`senderQueueCounts, this`readyTotal, this`blockedTotal
      ensures Valid()
      ensures Model() == SchedulerModel.Admit(old(Model()), tx, cfg)
      ensures outcome == AdmitOutcome(old(Model()), tx, cfg)
      ensures totals == CountAdmission(old(totals), outcome.admission)
    {
      if tx.hash in pending {
        RejectedOutcome(Model(), tx, cfg, Duplicate);
        totals := CountAdmission(totals, Duplicate);
        outcome := Outcome(Duplicate, []);
      } else if tx.sender in senderQueues && tx.nonce in senderQueues[tx.sender] {
        outcome := AdmitToOccupiedSlot(tx, cfg);
      } else {
        outcome := AdmitToFreeSlot(tx, cfg);
      }
    }

    /** The slot has an incumbent: replace it or refuse. */
    method AdmitToOccupiedSlot(tx: Tx, cfg: Config) returns (outcome: Outcome)
      requires Valid() && |pending| < U64_MAX
      requires tx.hash !in pending && tx.sender in senderQueues && tx.nonce in senderQueues[tx.sender]
      modifies this`pending, this`senderQueues, this`totals, this`senderQueueCounts, this`readyTotal, this`blockedTotal
      ensures Valid()
      ensures Model() == SchedulerModel.Admit(old(Model()), tx, cfg)
      ensures outcome == AdmitOutcome(old(Model()), tx, cfg)
      ensures totals == CountAdmission(old(totals), outcome.admission)
    {
      var previousPositions := SenderQueuePositions(tx.sender);
      var incumbentHash := senderQueues[tx.sender][tx.nonce];
      OccupiedSlot(Model(), tx);
      if incumbentHash !in pending {
        assert false;  // a queued hash is always pending
      }
      var incumbent := pending[incumbentHash];
      if tx.Fee() >= Threshold(incumbent.Fee(), cfg.bumpBps) {
        outcome := ReplaceIncumbent(tx, cfg, incumbentHash, previousPositions);
      } else {
        RejectedOutcome(Model(), tx, cfg, UnderpricedReplacement);
        totals := CountAdmission(totals, UnderpricedReplacement);
        outcome := Outcome(UnderpricedReplacement, []);
      }
    }

    method ReplaceIncumbent(tx: Tx, cfg: Config, incumbentHash: TxHash, previousPositions: seq<Position>)
      returns (outcome: Outcome)
      requires Valid() && |pending| < U64_MAX
      requires Decide(Model(), tx, cfg) == Replaced(incumbentHash)
      requires previousPositions == Positions(QueueOf(Model(), tx.sender))
      modifies this`pending, this`senderQueues, this`totals, this`senderQueueCounts, this`readyTotal, this`blockedTotal
      ensures Valid()
      ensures Model() == SchedulerModel.Admit(old(Model()), tx, cfg)
      ensures outcome == AdmitOutcome(old(Model()), tx, cfg)
      ensures outcome.admission == Replaced(incumbentHash)
      ensures totals == CountAdmission(old(totals), Replaced(incumbentHash))
    {
      hide CountsExact, Classified, Positions, AdmitOutcome, WellFormed;
      ghost var c: ValidCore := Model();
      ReplacingModel(c, tx, cfg);
      totals := CountAdmission(totals, Replaced(incumbentHash));
      var queue: Queue := senderQueues[tx.sender];
      pending := pending - {incumbentHash};
      senderQueues := senderQueues[tx.sender := queue[tx.nonce := tx.hash]];
      pending := pending[tx.hash := tx];
      assert Model() == SchedulerModel.Admit(c, tx, cfg);
      outcome := FinishAdmission(Replaced(incumbentHash), tx, cfg, previousPositions, c, senderQueueCounts);
    }

    /** The slot is free: fill it unless the sender's queue is full. */
    method AdmitToFreeSlot(tx: Tx, cfg: Config) returns (outcome: Outcome)
      requires Valid() && |pending| < U64_MAX
      requires tx.hash !in pending && !(tx.sender in senderQueues && tx.nonce in senderQueues[tx.sender])
      modifies this`pending, this`senderQueues, this`totals, this`senderQueueCounts, this`readyTotal, this`blockedTotal
      ensures Valid()
      ensures Model() == SchedulerModel.Admit(old(Model()), tx, cfg)
      ensures outcome == AdmitOutcome(old(Model()), tx, cfg)
      ensures totals == CountAdmission(old(totals), outcome.admission)
    {
      ghost var c := Model();
      var previousPositions := SenderQueuePositions(tx.sender);
      var queue: Queue := if tx.sender in senderQueues then senderQueues[tx.sender] else map[];
      if |queue| >= cfg.maxPendingPerSender {
        RejectedOutcome(c, tx, cfg, SenderLimitReached);
        totals := CountAdmission(totals, SenderLimitReached);
        outcome := Outcome(SenderLimitReached, []);
      } else {
        AddingModel(c, tx, cfg);
        senderQueues := senderQueues[tx.sender := queue[tx.nonce := tx.hash]];
        pending := pending[tx.hash := tx];
        totals := CountAdmission(totals, Admitted);
        outcome := FinishAdmission(Admitted, tx, cfg, previousPositions, c, senderQueueCounts);
      }
    }

    /** The common tail of both admitting branches: refresh the sender's counts, diff its positions. */
    method FinishAdmission(
        admission: Admission, tx: Tx, cfg: Config, previousPositions: seq<Position>,
        ghost before: ValidCore, ghost counts: map<Address, Counts>)
      returns (outcome: Outcome)
      requires |before.pending| < U64_MAX
      requires admission == Decide(before, tx, cfg) && admission.IsAdmitted()
      requires Model() == SchedulerModel.Admit(before, tx, cfg)
      requires previousPositions == Positions(QueueOf(before, tx.sender))
      requires senderQueueCounts == counts && CountsExact(counts, before)
      requires readyTotal == |Classified(before, true)| && blockedTotal == |Classified(before, false)|
      modifies this`senderQueueCounts, this`readyTotal, this`blockedTotal
      ensures Valid()
      ensures outcome == AdmitOutcome(before, tx, cfg) && outcome.admission == admission
    {
      hide Classified, Positions, QueueTransitions, SchedulerModel.Admit, Decide, CountsExact, ExactCounts, CountsFor,
        WellFormed, SetCounts;
      PendingGrowsByAtMostOne(before, tx, cfg);
      AdmitKeepsInvariants(before, tx, cfg);
      RefreshFits(before, tx, cfg, counts);
      RefreshSenderCounts(tx.sender, SchedulerModel.Admit(before, tx, cfg));
      var positions := SenderQueuePositions(tx.sender);
      outcome := Outcome(admission, QueueTransitions(tx.sender, previousPositions, positions));
    }

    method RefreshSenderCounts(sender: Address, ghost c: ValidCore)
      requires Model() == c && |c.pending| <= U64_MAX
      requires CountsFor(senderQueueCounts, sender).ready <= readyTotal
      requires CountsFor(senderQueueCounts, sender).blocked <= blockedTotal
      requires readyTotal - CountsFor(senderQueueCounts, sender).ready + ExactCounts(c, sender).ready <= U64_MAX
      requires blockedTotal - CountsFor(senderQueueCounts, sender).blocked + ExactCounts(c, sender).blocked <= U64_MAX
      modifies this`senderQueueCounts, this`readyTotal, this`blockedTotal
      ensures senderQueueCounts == SetCounts(old(senderQueueCounts), sender, ExactCounts(c, sender))
      ensures readyTotal == old(readyTotal - CountsFor(senderQueueCounts, sender).ready) + ExactCounts(c, sender).ready
      ensures blockedTotal ==
        old(blockedTotal - CountsFor(senderQueueCounts, sender).blocked) + ExactCounts(c, sender).blocked
    {
      hide WellFormed, ExactCounts, CountsFor;
      ForgetCounts(sender);
      var next := ClassifySenderQueueCounts(sender, c);
      RecordCounts(sender, next);
    }

    /** Takes a sender's previous counts out of the totals. */
    method ForgetCounts(sender: Address)
      modifies this`senderQueueCounts, this`readyTotal, this`blockedTotal
      ensures senderQueueCounts == old(senderQueueCounts) - {sender}
      ensures readyTotal == SaturatingSub(old(readyTotal), CountsFor(old(senderQueueCounts), sender).ready)
      ensures blockedTotal == SaturatingSub(old(blockedTotal), CountsFor(old(senderQueueCounts), sender).blocked)
    {
      var previous := CountsFor(senderQueueCounts, sender);
      senderQueueCounts := senderQueueCounts - {sender};
      readyTotal := SaturatingSub(readyTotal, previous.ready);
      blockedTotal := SaturatingSub(blockedTotal, previous.blocked);
    }

    /** Adds a sender's new counts; all-zero counts are not stored. */
    method RecordCounts(sender: Address, next: Counts)
      modifies this`senderQueueCounts, this`readyTotal, this`blockedTotal
      ensures senderQueueCounts ==
        if next == Counts(0, 0) then old(senderQueueCounts) else old(senderQueueCounts)[sender := next]
      ensures readyTotal == SaturatingAdd(old(readyTotal), next.ready)
      ensures blockedTotal == SaturatingAdd(old(blockedTotal), next.blocked)
    {
      if next.ready != 0 || next.blocked != 0 {
        senderQueueCounts := senderQueueCounts[sender := next];
      }
      readyTotal := SaturatingAdd(readyTotal, next.ready);
      blockedTotal := SaturatingAdd(blockedTotal, next.blocked);
    }

    method ClassifySenderQueueCounts(sender: Address, ghost c: ValidCore) returns (counts: Counts)
      requires Model() == c && |c.pending| <= U64_MAX
      ensures counts == ExactCounts(c, sender)
    {
      if sender in senderQueues {
        QueuesArePending(c, sender);
        QueueWithinPending(c, sender);
        counts := CountQueue(senderQueues[sender], pending);
        CountsAreClassified(c, sender, true);
        CountsAreClassified(c, sender, false);
      } else {
        counts := Counts(0, 0);
        assert OfSender(c, true, sender) == {};
        assert OfSender(c, false, sender) == {};
      }
    }

    method RecomputeQueueCounts()
      requires WellFormed(Model()) && |pending| <= U64_MAX
      modifies this`senderQueueCounts, this`readyTotal, this`blockedTotal
      ensures Valid()
    {
      var senders := AscendingKeys(senderQueues.Keys);
      RecountSenders(senders, Model());
      RecountComplete(Model());
    }

    method RecountSenders(senders: seq<Address>, ghost c: ValidCore)
      requires Model() == c && |c.pending| <= U64_MAX && StrictlyAscending(senders)
      modifies this`senderQueueCounts, this`readyTotal, this`blockedTotal
      ensures senderQueueCounts == RecountUpTo(c, senders, |senders|)
      ensures readyTotal == |OfSenders(c, true, FirstOf(senders, |senders|))|
      ensures blockedTotal == |OfSenders(c, false, FirstOf(senders, |senders|))|
    {
      hide WellFormed, OfSenders, ExactCounts, CountsFor, SetCounts;
      senderQueueCounts := map[];
      readyTotal := 0;
      blockedTotal := 0;
      OfNoSenders(c);
      for i := 0 to |senders|
        invariant senderQueueCounts == RecountUpTo(c, senders, i)
        invariant readyTotal == |OfSenders(c, true, FirstOf(senders, i))|
        invariant blockedTotal == |OfSenders(c, false, FirstOf(senders, i))|
      {
        NextRecount(c, senders, i);
        RefreshSenderCounts(senders[i], c);
      }
    }

    method SenderQueuePositions(sender: Address) returns (positions: seq<Position>)
      requires WellFormed(Model())
      ensures positions == Positions(QueueOf(Model(), sender))
    {
      if sender !in senderQueues {
        return [];
      }
      QueuesArePending(Model(), sender);
      positions := PositionsInQueue(senderQueues[sender], pending);
    }

    // -------------------------------------------------------------- classification and snapshots

    method ClassifyBySender() returns (ready: seq<Tx>, blocked: seq<Tx>)
      requires WellFormed(Model())
      ensures ready == OfKind(Model(), true) && blocked == OfKind(Model(), false)
    {
      AllSendersPending(Model());
      ready, blocked := ClassifySenders(senderQueues, pending);
    }

    method ExecutableFrontierHashes() returns (frontier: seq<TxHash>)
      requires WellFormed(Model())
      ensures frontier == Frontier(senderQueues)
    {
      AllSendersPending(Model());
      frontier := FrontierOfSenders(senderQueues, pending);
    }

    method PersistedSnapshot() returns (snapshot: Snapshot.PersistedSnapshot)
      requires WellFormed(Model())
      ensures snapshot == Persist(Model())
    {
      var frontier := ExecutableFrontierHashes();
      var transactions := PendingValues(pending);
      var queues := PersistedSenderQueues(senderQueues);
      snapshot := Snapshot.PersistedSnapshot(0, transactions, frontier, queues);
    }

    /** Rebuilds a state from a snapshot, all counters at zero; rejects it as `Snapshot.Restore` says. */
    static method FromPersistedSnapshot(snapshot: Snapshot.PersistedSnapshot)
      returns (r: Result<SchedulerState, SnapshotError>)
      requires |snapshot.pending| <= U64_MAX
      ensures r.Failure? ==> Restore(snapshot) == Failure(r.error)
      ensures r.Success? ==> fresh(r.value) && r.value.Valid() && r.value.Register() == EMPTY_BOOK
      ensures r.Success? ==> Restore(snapshot) == Success(r.value.Model())
      ensures r.Success? ==> r.value.totals == NO_TOTALS && r.value.staleSimulationDropTotal == 0
    {
      hide CountsExact, Classified, LoadPending, BuildQueues, Frontier, TxsOfSenders, HashesOf;
      var pending := LoadPendingList(snapshot.pending);
      if pending.Failure? {
        return Failure(pending.error);
      }
      LoadKeysByHash(snapshot.pending, |snapshot.pending|);
      BuildQueuesFits(snapshot.senderQueues, pending.value);
      var queues := BuildSenderQueues(snapshot.senderQueues, pending.value);
      if queues.Failure? {
        return Failure(queues.error);
      }
      FittingIsWellFormed(queues.value, pending.value);
      var state := new SchedulerState.Restored(pending.value, queues.value);
      var ready, _ := state.ClassifyBySender();
      FrontierOfKind(state.Model());
      if snapshot.frontier != [] && HashesOf(ready) != snapshot.frontier {
        return Failure(ExecutableFrontierMismatch);
      }
      return Success(state);
    }

    // -------------------------------------------------------------- candidates

    method RegisterCandidates(cs: seq<Candidate>) returns (tasks: seq<Task>)
      modifies this`candidates
      ensures Register() == Handoff.Register(old(Register()), cs)
      ensures |tasks| == |cs|
      ensures forall p :: 0 <= p < |cs| ==> tasks[p] == TaskOf(old(Register()), cs, p)
    {
      tasks := [];
      for i := 0 to |cs|
        invariant Register() == RegisterUpTo(old(Register()), cs, i)
        invariant |tasks| == i && forall p :: 0 <= p < i ==> tasks[p] == TaskOf(old(Register()), cs, p)
      {
        var candidate := cs[i];
        var generation :=
          if candidate.id in candidates then NextGeneration(candidates[candidate.id].generation) else 1;
        var task := Task(candidate.id, candidate.txHash, NormalizedMembers(candidate.txHash, candidate.members),
                         headBlockNumber, generation);
        candidates := candidates[candidate.id := Entry(candidate, headBlockNumber, generation)];
        tasks := tasks + [task];
      }
    }

    method ApplySimulationResult(result: SimResult) returns (handoffs: seq<BuilderHandoff>, staleDrops: U64)
      modifies this`candidates, this`staleSimulationDropTotal
      ensures Register() == Apply(old(Register()), result)
      ensures staleDrops == (if Accepts(old(Register()), result) then 0 else 1)
      ensures staleSimulationDropTotal == SaturatingAdd(old(staleSimulationDropTotal), staleDrops)
      ensures handoffs ==
        if Accepts(old(Register()), result) && result.approved then
          [BuilderHandoff(old(candidates)[result.id].candidate, result.block)]
        else []
    {
      if result.id !in candidates {
        staleSimulationDropTotal := SaturatingAdd(staleSimulationDropTotal, 1);
        return [], 1;
      }
      var entry := candidates[result.id];
      var expectedMembers := NormalizedMembers(entry.candidate.txHash, entry.candidate.members);
      var actualMembers := NormalizedMembers(result.txHash, result.members);
      if entry.candidate.txHash != result.txHash || expectedMembers != actualMembers || entry.block != result.block
         || entry.generation != result.generation || result.block != headBlockNumber {
        staleSimulationDropTotal := SaturatingAdd(staleSimulationDropTotal, 1);
        return [], 1;
      }
      handoffs := if result.approved then [BuilderHandoff(entry.candidate, result.block)] else [];
      candidates := candidates[result.id := entry.(generation := NextGeneration(entry.generation))];
      staleDrops := 0;
    }

    method InvalidateCandidateHash(hash: TxHash)
      modifies this`candidates
      ensures Register() == Invalidate(old(Register()), hash)
    {
      var ids := MentioningIds(candidates, hash);
      ghost var before := candidates;
      ghost var done: set<CandidateId> := {};
      assert candidates == BumpSet(before, done);
      for i := 0 to |ids|
        invariant forall id :: id in done <==> exists j :: 0 <= j < i && ids[j] == id
        invariant candidates == BumpSet(before, done)
      {
        assert ids[i] in MentioningSet(before, hash) && ids[i] !in done;
        BumpOneMore(before, done, ids[i]);
        candidates := candidates[ids[i] := BumpEntry(candidates[ids[i]])];
        done := done + {ids[i]};
      }
      BumpedAll(before, headBlockNumber, hash, ids, done);
    }

    method AdvanceHead(block: U64)
      modifies this`headBlockNumber
      ensures Register() == old(Register()).(head := block)
    {
      headBlockNumber := block;
    }
  }

  // ---------------------------------------------------------------- invalidation

  ghost function MentioningSet(candidates: map<CandidateId, Entry>, hash: TxHash): set<CandidateId> {
    set id | id in candidates && Mentions(candidates[id].candidate, hash)
  }

  /** The ids, in ascending order, of the candidates that mention a hash. */
  method MentioningIds(candidates: map<CandidateId, Entry>, hash: TxHash) returns (ids: seq<CandidateId>)
    ensures ids == Ascending(MentioningSet(candidates, hash))
  {
    var all := AscendingKeys(candidates.Keys);
    ids := [];
    for i := 0 to |all|
      invariant StrictlyAscending(ids)
      invariant forall id :: id in ids ==> id in MentioningSet(candidates, hash)
      invariant forall k :: 0 <= k < |ids| ==> i < |all| ==> ids[k] < all[i]
      invariant forall j :: 0 <= j < i ==> all[j] in MentioningSet(candidates, hash) ==> all[j] in ids
    {
      assert all[i] in candidates.Keys;
      if Mentions(candidates[all[i]].candidate, hash) {
        ids := ids + [all[i]];
      }
    }
    forall id | id in MentioningSet(candidates, hash) ensures id in ids {
      assert id in all;
    }
    AscendingIs(ids, MentioningSet(candidates, hash));
  }

  ghost function BumpSet(before: map<CandidateId, Entry>, ids: set<CandidateId>): map<CandidateId, Entry> {
    map id | id in before :: if id in ids then BumpEntry(before[id]) else before[id]
  }

  lemma BumpedAll(
      before: map<CandidateId, Entry>, head: U64, hash: TxHash, ids: seq<CandidateId>, done: set<CandidateId>)
    requires ids == Ascending(MentioningSet(before, hash))
    requires forall id :: id in done <==> exists j :: 0 <= j < |ids| && ids[j] == id
    ensures BumpSet(before, done) == Invalidate(Book(before, head), hash).entries
  {
    forall id ensures id in done <==> id in MentioningSet(before, hash) {
      assert id in ids <==> id in MentioningSet(before, hash);
    }
  }

  lemma BumpOneMore(before: map<CandidateId, Entry>, done: set<CandidateId>, id: CandidateId)
    requires id in before && id !in done
    ensures BumpSet(before, done)[id := BumpEntry(BumpSet(before, done)[id])] == BumpSet(before, done + {id})
  {
  }

  // ---------------------------------------------------------------- rebuilding from a snapshot

  method LoadPendingList(txs: seq<Tx>) returns (r: Result<map<TxHash, Tx>, SnapshotError>)
    ensures r == LoadPending(txs, |txs|)
  {
    var pending: map<TxHash, Tx> := map[];
    for i := 0 to |txs|
      invariant LoadPending(txs, i) == Success(pending)
    {
      if txs[i].hash in pending {
        LoadFailureSticks(txs, i + 1, |txs|);
        return Failure(DuplicatePendingHash(txs[i].hash));
      }
      pending := pending[txs[i].hash := txs[i]];
    }
    return Success(pending);
  }

  method BuildSenderQueues(recorded: seq<PersistedQueue>, pending: map<TxHash, Tx>)
    returns (r: Result<Queues, SnapshotError>)
    ensures r == BuildQueues(recorded, pending)
  {
    if recorded == [] {
      r := BuildSenderQueuesFromPending(pending);
    } else {
      r := BuildSenderQueuesFromSnapshot(recorded, pending);
    }
  }

  method BuildSenderQueuesFromPending(pending: map<TxHash, Tx>) returns (r: Result<Queues, SnapshotError>)
    ensures r == BuildFromPending(pending, |pending.Keys|)
  {
    var hashes := AscendingKeys(pending.Keys);
    r := Success(map[]);
    for i := 0 to |hashes|
      invariant r.Success? && r == BuildFromPending(pending, i)
    {
      assert hashes[i] in pending.Keys;
      var tx := pending[hashes[i]];
      r := InsertEntry(r.value, tx.sender, tx.nonce, tx.hash);
      if r.Failure? {
        BuildFailureSticks(pending, i + 1, |hashes|);
        return;
      }
    }
  }

  method BuildSenderQueuesFromSnapshot(queues: seq<PersistedQueue>, pending: map<TxHash, Tx>)
    returns (r: Result<Queues, SnapshotError>)
    ensures r == BuildFromSnapshot(queues, pending, |queues|)
  {
    r := Success(map[]);
    for k := 0 to |queues|
      invariant r.Success? && r == BuildFromSnapshot(queues, pending, k)
    {
      r := LoadQueueEntries(r.value, queues[k].sender, queues[k].queued, pending);
      if r.Failure? {
        SnapshotFailureSticks(queues, pending, k + 1, |queues|);
        return;
      }
    }
  }

  /** The inner loop: the entries of one persisted queue. */
  method LoadQueueEntries(loaded: Queues, sender: Address, entries: seq<PersistedEntry>, pending: map<TxHash, Tx>)
    returns (r: Result<Queues, SnapshotError>)
    ensures r == LoadEntries(loaded, sender, entries, pending, |entries|)
  {
    r := Success(loaded);
    for i := 0 to |entries|
      invariant r.Success? && r == LoadEntries(loaded, sender, entries, pending, i)
    {
      var entry := entries[i];
      if entry.hash !in pending {
        r := Failure(MissingPendingTransaction(entry.hash));
      } else if pending[entry.hash].sender != sender || pending[entry.hash].nonce != entry.nonce {
        r := Failure(QueueEntryMismatch(entry.hash));
      } else {
        r := InsertEntry(r.value, sender, entry.nonce, entry.hash);
      }
      if r.Failure? {
        EntriesFailureSticks(loaded, sender, entries, pending, i + 1, |entries|);
        return;
      }
    }
  }

  lemma {:induction false} LoadFailureSticks(txs: seq<Tx>, i: nat, n: nat)
    requires i <= n <= |txs| && LoadPending(txs, i).Failure?
    ensures LoadPending(txs, n) == LoadPending(txs, i)
  {
    if i < n {
      LoadFailureSticks(txs, i, n - 1);
    }
  }

  lemma {:induction false} BuildFailureSticks(pending: map<TxHash, Tx>, i: nat, n: nat)
    requires i <= n <= |pending.Keys| && BuildFromPending(pending, i).Failure?
    ensures BuildFromPending(pending, n) == BuildFromPending(pending, i)
  {
    if i < n {
      BuildFailureSticks(pending, i, n - 1);
    }
  }

  lemma {:induction false} EntriesFailureSticks(
      queues: Queues, sender: Address, entries: seq<PersistedEntry>, pending: map<TxHash, Tx>, i: nat, n: nat)
    requires i <= n <= |entries| && LoadEntries(queues, sender, entries, pending, i).Failure?
    ensures LoadEntries(queues, sender, entries, pending, n) == LoadEntries(queues, sender, entries, pending, i)
  {
    if i < n {
      EntriesFailureSticks(queues, sender, entries, pending, i, n - 1);
    }
  }

  lemma {:induction false} SnapshotFailureSticks(queues: seq<PersistedQueue>, pending: map<TxHash, Tx>, i: nat, n: nat)
    requires i <= n <= |queues| && BuildFromSnapshot(queues, pending, i).Failure?
    ensures BuildFromSnapshot(queues, pending, n) == BuildFromSnapshot(queues, pending, i)
  {
    if i < n {
      SnapshotFailureSticks(queues, pending, i, n - 1);
    }
  }

  // ---------------------------------------------------------------- helpers

  lemma PendingGrowsByAtMostOne(c: Core, tx: Tx, cfg: Config)
    requires WellFormed(c)
    ensures |SchedulerModel.Admit(c, tx, cfg).pending| <= |c.pending| + 1
  {
    hide SchedulerModel.Admit, WellFormed, Decide;
    var kept := SchedulerModel.Admit(c, tx, cfg).pending;
    AdmittedPending(c, tx, cfg);
    SubsetSize(kept.Keys, c.pending.Keys + {tx.hash});
    AtMostOneMore(c.pending.Keys, tx.hash);
  }

  lemma AdmittedPending(c: Core, tx: Tx, cfg: Config)
    requires WellFormed(c)
    ensures SchedulerModel.Admit(c, tx, cfg).pending.Keys <= c.pending.Keys + {tx.hash}
  {
    hide WellFormed;
  }

  lemma AtMostOneMore(s: set<TxHash>, h: TxHash)
    ensures |s + {h}| <= |s| + 1
  {
    if h in s {
      assert s + {h} == s;
    }
  }
}
