/**
  The scheduler and the replay machine agree: replaying the events one worker emits for
  its admissions rebuilds the scheduler's pending set, queues and Ready/Blocked labels.
 */
module LogRefinement {
  import opened Prelude
  import opened Ordered
  import opened NonceGap
  import opened SchedulerModel
  import opened EventLog
  import opened Mempool
  import opened Transitions

  // ---------------------------------------------------------------- emission

  function TransitionEvent(t: Transition): Payload {
    match t.state
    case Ready => TxReady(t.hash, t.sender, t.nonce)
    case Blocked(expected) => TxBlocked(t.hash, t.sender, t.nonce, Some(expected))
  }

  /** The events of the first `i` transitions. */
  function TransitionEvents(ts: seq<Transition>, i: nat): seq<Payload>
    requires i <= |ts|
  {
    if i == 0 then [] else TransitionEvents(ts, i - 1) + [TransitionEvent(ts[i - 1])]
  }

  const UNDERPRICED := "underpriced_replacement"
  const SENDER_LIMIT := "sender_limit_reached"
  const QUEUE_FULL := "queue_full"

  function DecisionEvents(tx: Tx, a: Admission): seq<Payload> {
    match a
    case Duplicate => []
    case Admitted => [TxDecoded(tx)]
    case Replaced(incumbent) => [TxReplaced(incumbent, tx.hash), TxDecoded(tx)]
    case UnderpricedReplacement => [TxDropped(tx.hash, UNDERPRICED)]
    case SenderLimitReached => [TxDropped(tx.hash, SENDER_LIMIT)]
  }

  /** The lifecycle events of one scheduler answer: the decision, then the queue transitions. */
  function OutcomeEvents(tx: Tx, outcome: Outcome): seq<Payload> {
    DecisionEvents(tx, outcome.admission) + TransitionEvents(outcome.transitions, |outcome.transitions|)
  }

  /** Everything one worker appends for one fetched transaction, up to the queue transitions. */
  ghost function Emission(c: ValidCore, tx: Tx, cfg: Config): seq<Payload> {
    [TxSeen(tx.hash), TxFetched(tx.hash)] + OutcomeEvents(tx, AdmitOutcome(c, tx, cfg))
  }

  /** The log after the first `i` admissions. */
  ghost function Log(c: ValidCore, txs: seq<Tx>, i: nat, cfg: Config): seq<Payload>
    requires i <= |txs|
  {
    if i == 0 then [] else Log(c, txs, i - 1, cfg) + Emission(Run(c, txs, i - 1, cfg), txs[i - 1], cfg)
  }

  // ---------------------------------------------------------------- agreement

  /** The replayed entry of a pending transaction: same slot, still pending. */
  ghost predicate KnownPending(c: Core, m: Pool, h: TxHash)
    requires h in c.pending
  {
    && h in m.txs
    && m.txs[h].sender == Some(c.pending[h].sender)
    && m.txs[h].nonce == Some(c.pending[h].nonce)
    && m.txs[h].status.Pending?
  }

  /** The replayed label of a pending transaction is its label in the scheduler. */
  ghost predicate SameLabel(c: Core, m: Pool, h: TxHash)
    requires h in c.pending && KnownPending(c, m, h)
  {
    && Queued(c, c.pending[h])
    && m.txs[h].queueState == Some(Label(c.queues[c.pending[h].sender].Keys, c.pending[h].nonce))
  }

  /** Agreement, except that the labels of the senders in `stale` may be out of date. */
  ghost predicate AgreesExcept(c: Core, m: Pool, stale: set<Address>) {
    && Bijective(c)
    && m.queues == c.queues
    && (forall h :: h in c.pending ==> KnownPending(c, m, h))
    && (forall h :: IsPending(m.txs, h) ==> h in c.pending)
    && (forall h :: h in c.pending && c.pending[h].sender !in stale ==> SameLabel(c, m, h))
  }

  ghost predicate Agrees(c: Core, m: Pool) {
    AgreesExcept(c, m, {})
  }

  lemma QueueIsLive(c: Core, m: Pool, stale: set<Address>, s: Address)
    requires AgreesExcept(c, m, stale) && s in c.queues
    ensures Injective(c.queues[s])
    ensures LiveNonces(m.txs, c.queues[s]) == c.queues[s].Keys
    ensures KeepLive(m.txs, c.queues[s]) == c.queues[s]
    ensures PutQueue(c.queues, s, c.queues[s]) == c.queues
    ensures forall n :: n in c.queues[s] ==> FillsSlot(c, c.queues[s][n], s, n)
  {
    var q := c.queues[s];
    forall n | n in q ensures FillsSlot(c, q[n], s, n) && IsPending(m.txs, q[n]) {
      assert FillsSlot(c, q[n], s, n);
      assert KnownPending(c, m, q[n]);
    }
  }

  lemma AgreesIsBijective(c: Core, m: Pool, stale: set<Address>)
    requires AgreesExcept(c, m, stale)
    ensures Bijective(c)
  {
  }

  lemma PendingIsQueued(c: Core, h: TxHash)
    requires Bijective(c) && h in c.pending
    ensures Queued(c, c.pending[h]) && c.pending[h].hash == h
  {
  }

  lemma RecomputeSets(c: Core, m: Pool, s: Address, h: TxHash)
    requires AgreesExcept(c, m, {s}) && s in c.queues && h in c.pending
    ensures KnownPending(c, Recompute(m, s), h) && SameLabel(c, Recompute(m, s), h)
  {
    hide Relabel, Label, Bijective, KeepLive;
    AgreesIsBijective(c, m, {s});
    var q := c.queues[s];
    QueueIsLive(c, m, {s}, s);
    RelabelKeeps(m.txs, q);
    assert KnownPending(c, m, h);
    PendingIsQueued(c, h);
    if c.pending[h].sender == s {
      RelabelSets(m.txs, q, c.pending[h].nonce);
    } else {
      assert SameLabel(c, m, h);
    }
  }

  /** Recomputing a sender's queue brings its labels up to date. */
  lemma RecomputeAgrees(c: Core, m: Pool, s: Address)
    requires AgreesExcept(c, m, {s})
    ensures Agrees(c, Recompute(m, s))
  {
    hide Bijective, Relabel, WellFormed, SameLabel, Label, KeepLive;
    if s in c.queues {
      QueueIsLive(c, m, {s}, s);
      RelabelKeeps(m.txs, c.queues[s]);
      forall h | h in c.pending
        ensures KnownPending(c, Recompute(m, s), h) && SameLabel(c, Recompute(m, s), h)
      {
        RecomputeSets(c, m, s, h);
      }
    } else {
      forall h | h in c.pending ensures c.pending[h].sender != s {
        SenderHasQueue(c, h);
      }
    }
  }

  lemma SenderHasQueue(c: Core, h: TxHash)
    requires Bijective(c) && h in c.pending
    ensures c.pending[h].sender in c.queues
  {
    assert Queued(c, c.pending[h]);
  }

  lemma RecomputeIdleAt(c: Core, m: Pool, s: Address, h: TxHash)
    requires Agrees(c, m) && s in c.queues && h in m.txs
    ensures h in Recompute(m, s).txs && Recompute(m, s).txs[h] == m.txs[h]
  {
    hide Relabel, Label, Bijective, KeepLive;
    var q := c.queues[s];
    RelabelKeeps(m.txs, q);
    if exists n :: n in q && q[n] == h {
      QueueIsLive(c, m, {}, s);
      RecomputeSets(c, m, s, h);
      assert SameLabel(c, m, h);
    }
  }

  /** Once labels are up to date a recomputation changes nothing. */
  lemma RecomputeIdle(c: Core, m: Pool, s: Address)
    requires Agrees(c, m)
    ensures Recompute(m, s) == m
  {
    hide Relabel, Label, KeepLive, KnownPending, SameLabel;
    if s in c.queues {
      QueueIsLive(c, m, {}, s);
      RelabelKeeps(m.txs, c.queues[s]);
      var table := Recompute(m, s).txs;
      forall h | h in m.txs ensures table[h] == m.txs[h] {
        RecomputeIdleAt(c, m, s, h);
      }
      assert table == m.txs;
    }
  }

  // ---------------------------------------------------------------- one event

  /** The state without one pending transaction and its slot. */
  function Evict(c: Core, h: TxHash): Core
    requires h in c.pending && Queued(c, c.pending[h])
  {
    var tx := c.pending[h];
    Core(c.pending - {h}, PutQueue(c.queues, tx.sender, c.queues[tx.sender] - {tx.nonce}))
  }

  lemma EvictKeepsWellFormed(c: Core, h: TxHash)
    requires Bijective(c) && h in c.pending && Queued(c, c.pending[h])
    ensures WellFormed(Evict(c, h))
  {
    var c' := Evict(c, h);
    forall s, n | s in c'.queues && n in c'.queues[s] ensures FillsSlot(c', c'.queues[s][n], s, n) {
      assert FillsSlot(c, c.queues[s][n], s, n);
    }
  }

  lemma EvictKeepsOthersQueued(c: Core, h: TxHash, g: TxHash)
    requires Bijective(c) && h in c.pending && Queued(c, c.pending[h]) && g in c.pending && g != h
    ensures Queued(Evict(c, h), c.pending[g])
  {
    assert Queued(c, c.pending[g]);
    if c.pending[g].sender == c.pending[h].sender {
      assert c.pending[g].nonce in c.queues[c.pending[h].sender] - {c.pending[h].nonce};
    }
  }

  lemma EvictKeepsBijection(c: Core, h: TxHash)
    requires Bijective(c) && h in c.pending
    ensures Queued(c, c.pending[h]) && Bijective(Evict(c, h))
    ensures forall s, n :: Occupied(Evict(c, h), s, n) <==>
      Occupied(c, s, n) && !(s == c.pending[h].sender && n == c.pending[h].nonce)
  {
    hide WellFormed;
    assert Queued(c, c.pending[h]);
    EvictKeepsWellFormed(c, h);
    forall g | g in c.pending && g != h ensures Queued(Evict(c, h), c.pending[g]) {
      EvictKeepsOthersQueued(c, h, g);
    }
  }

  lemma EvictKeepsQueued(c: Core, h: TxHash, g: TxHash)
    requires Bijective(c) && h in c.pending && Queued(c, c.pending[h]) && g in c.pending && g != h
    ensures Queued(c, c.pending[g]) && Queued(Evict(c, h), c.pending[g])
  {
    EvictKeepsBijection(c, h);
    var c' := Evict(c, h);
    assert Queued(c, c.pending[g]);
    assert g in c'.pending && Queued(c', c'.pending[g]);
  }

  lemma OthersStay(c: Core, m: Pool, h: TxHash, status: Status, g: TxHash)
    requires Agrees(c, m) && h in c.pending && Queued(c, c.pending[h]) && g in c.pending && g != h
    ensures g in Evict(c, h).pending && Evict(c, h).pending[g] == c.pending[g]
    ensures var c', m' := Evict(c, h), Pool(Settle(m.txs, h, status), Evict(c, h).queues);
      KnownPending(c', m', g) && (c.pending[g].sender != c.pending[h].sender ==> SameLabel(c', m', g))
  {
    hide Label, Bijective;
    assert KnownPending(c, m, g) && SameLabel(c, m, g);
    var c' := Evict(c, h);
    EvictKeepsQueued(c, h, g);
    assert g in c'.pending && c'.pending[g] == c.pending[g];
    assert c.pending[g].sender != c.pending[h].sender ==>
      c'.queues[c.pending[g].sender] == c.queues[c.pending[g].sender];
  }

  lemma SettledExceptLabels(c: Core, m: Pool, h: TxHash, status: Status)
    requires Agrees(c, m) && h in c.pending && Queued(c, c.pending[h]) && !status.Pending?
    ensures AgreesExcept(Evict(c, h), Pool(Settle(m.txs, h, status), Evict(c, h).queues), {c.pending[h].sender})
  {
    hide Label, KnownPending, SameLabel, Bijective;
    EvictKeepsBijection(c, h);
    forall g | g in c.pending && g != h
      ensures var c', m' := Evict(c, h), Pool(Settle(m.txs, h, status), Evict(c, h).queues);
        KnownPending(c', m', g) && (c.pending[g].sender != c.pending[h].sender ==> SameLabel(c', m', g))
    {
      OthersStay(c, m, h, status, g);
    }
  }

  /** Dropping, confirming or replacing a pending transaction evicts it and relabels its sender's queue. */
  lemma SettledEvicts(c: Core, m: Pool, h: TxHash, status: Status)
    requires Agrees(c, m) && h in c.pending && !status.Pending?
    ensures Queued(c, c.pending[h]) && Agrees(Evict(c, h), ApplySettled(m, h, status))
  {
    hide Label, SameLabel, AgreesExcept, Recompute;
    SettledKnows(c, m, h);
    var tx := c.pending[h];
    SettledExceptLabels(c, m, h, status);
    var m' := Pool(Settle(m.txs, h, status), Evict(c, h).queues);
    RecomputeAgrees(Evict(c, h), m', tx.sender);
    assert RemoveEntry(m.(txs := Settle(m.txs, h, status)), h, tx.sender, tx.nonce) == m';
  }

  lemma SettledKnows(c: Core, m: Pool, h: TxHash)
    requires Agrees(c, m) && h in c.pending
    ensures Queued(c, c.pending[h]) && KnownPending(c, m, h) && c.pending[h].hash == h && m.queues == c.queues
  {
  }

  lemma SettlingElse(c: Core, m: Pool, h: TxHash, status: Status)
    requires Agrees(c, m) && h !in c.pending && !status.Pending?
    ensures Agrees(c, m.(txs := Settle(m.txs, h, status)))
  {
    hide Label, Bijective;
    var m' := m.(txs := Settle(m.txs, h, status));
    forall g | g in c.pending ensures KnownPending(c, m', g) && SameLabel(c, m', g) {
      assert KnownPending(c, m, g) && SameLabel(c, m, g);
    }
  }

  /** A refused transaction that is not pending leaves no trace in the queues. */
  lemma RefusedIsHarmless(c: Core, m: Pool, h: TxHash, status: Status)
    requires Agrees(c, m) && h !in c.pending && !status.Pending?
    ensures Agrees(c, ApplySettled(m, h, status))
  {
    hide AgreesExcept, Recompute;
    var m' := m.(txs := Settle(m.txs, h, status));
    SettlingElse(c, m, h, status);
    if h in m.txs && m.txs[h].sender.Some? && m.txs[h].nonce.Some? {
      var s, n := m.txs[h].sender.value, m.txs[h].nonce.value;
      RemoveMissingEntry(c, m', h, s, n);
      AgreesLoosely(c, m', s);
      RecomputeAgrees(c, m', s);
    }
  }

  lemma AgreesLoosely(c: Core, m: Pool, s: Address)
    requires Agrees(c, m)
    ensures AgreesExcept(c, m, {s})
  {
  }

  lemma RemoveMissingEntry(c: Core, m: Pool, h: TxHash, s: Address, n: U64)
    requires Agrees(c, m) && h !in c.pending
    ensures RemoveEntry(m, h, s, n) == m
  {
    if s in c.queues {
      QueueIsLive(c, m, {}, s);
    }
  }

  lemma FreeInPool(c: Core, m: Pool, tx: Tx)
    requires Agrees(c, m) && !Occupied(c, tx.sender, tx.nonce)
    ensures !(tx.sender in m.queues && tx.nonce in m.queues[tx.sender])
  {
  }

  /** Decoding a transaction for a free slot puts it there. */
  lemma DecodedPuts(c: Core, m: Pool, tx: Tx)
    requires Agrees(c, m) && tx.hash !in c.pending && !Occupied(c, tx.sender, tx.nonce)
    ensures Agrees(Put(c, tx), ApplyDecoded(m, tx))
  {
    hide AgreesExcept, Recompute;
    AgreesBijective(c, m);
    PutKeepsQueued(c, {}, tx);
    assert c.pending - {} == c.pending;
    FreeInPool(c, m, tx);
    var c', m' := Put(c, tx), Ensure(m, tx.hash, tx.sender, tx.nonce);
    assert m.(txs := m.txs) == m;
    PutExceptLabels(c, m, tx);
    RecomputeAgrees(c', m', tx.sender);
  }

  lemma PutKnows(c: Core, m: Pool, tx: Tx, g: TxHash)
    requires Agrees(c, m) && tx.hash !in c.pending && g in Put(c, tx).pending
    ensures var c', m' := Put(c, tx), Ensure(m, tx.hash, tx.sender, tx.nonce);
      KnownPending(c', m', g) && (c'.pending[g].sender != tx.sender ==> SameLabel(c', m', g))
  {
    hide Label, Bijective;
    if g != tx.hash {
      assert KnownPending(c, m, g) && SameLabel(c, m, g);
    }
  }

  lemma PutExceptLabels(c: Core, m: Pool, tx: Tx)
    requires Agrees(c, m) && tx.hash !in c.pending && Bijective(Put(c, tx))
    ensures AgreesExcept(Put(c, tx), Ensure(m, tx.hash, tx.sender, tx.nonce), {tx.sender})
  {
    hide Label, Bijective, KnownPending, SameLabel;
    forall g | g in Put(c, tx).pending
      ensures var c', m' := Put(c, tx), Ensure(m, tx.hash, tx.sender, tx.nonce);
        KnownPending(c', m', g) && (c'.pending[g].sender != tx.sender ==> SameLabel(c', m', g))
    {
      PutKnows(c, m, tx, g);
    }
  }

  lemma EnsureIsIdle(c: Core, m: Pool, h: TxHash)
    requires Agrees(c, m) && h in c.pending
    ensures Ensure(m, h, c.pending[h].sender, c.pending[h].nonce) == m
  {
    hide Label;
    SettledKnows(c, m, h);
    var tx := c.pending[h];
    var q := m.queues[tx.sender];
    assert q[tx.nonce := h] == q;
    var m' := Ensure(m, h, tx.sender, tx.nonce);
    assert m'.txs == m.txs && m'.queues == m.queues;
  }

  /** A queue transition that repeats the current label changes nothing. */
  lemma TransitionIsIdle(c: Core, m: Pool, t: Transition)
    requires Agrees(c, m) && t.hash in View(c) && View(c)[t.hash] == t.state
    requires c.pending[t.hash].sender == t.sender && c.pending[t.hash].nonce == t.nonce
    ensures Apply(m, TransitionEvent(t)) == m
  {
    hide Label, Recompute, Ensure, Bijective;
    EnsureIsIdle(c, m, t.hash);
    RecomputeIdle(c, m, t.sender);
    assert KnownPending(c, m, t.hash) && SameLabel(c, m, t.hash);
    assert SetQueueState(m.txs, t.hash, Some(t.state)) == m.txs;
  }

  // ---------------------------------------------------------------- one admission

  /** Replacing a transaction is evicting the incumbent and then filling the freed slot. */
  lemma ReplaceIsEvictAndPut(c: ValidCore, tx: Tx, cfg: Config)
    requires Bijective(c) && Decide(c, tx, cfg).Replaced?
    ensures var old' := Decide(c, tx, cfg).replacedHash;
      && old' in c.pending && Queued(c, c.pending[old'])
      && Admit(c, tx, cfg) == Put(Evict(c, old'), tx)
      && tx.hash !in Evict(c, old').pending
      && !Occupied(Evict(c, old'), tx.sender, tx.nonce)
  {
    hide Bijective;
    var incumbent := Occupant(c, tx.sender, tx.nonce);
    EvictKeepsBijection(c, incumbent.hash);
    var q: Queue := c.queues[tx.sender];
    var q': Queue := q - {tx.nonce};
    var filled: Queue := q[tx.nonce := tx.hash];
    assert filled == q'[tx.nonce := tx.hash];
    assert Remove(c, incumbent.hash).pending == Evict(c, incumbent.hash).pending;
    var put := Put(Evict(c, incumbent.hash), tx);
    assert put.queues == c.queues[tx.sender := filled];
  }

  /** The decision events of an admission take the replayed state to the admitted state. */
  lemma DecisionAgrees(c: ValidCore, m: Pool, tx: Tx, cfg: Config)
    requires Agrees(c, m)
    ensures Agrees(Admit(c, tx, cfg), ReplayAll(m, DecisionEvents(tx, Decide(c, tx, cfg))))
  {
    hide Agrees, ApplyDecoded, ApplySettled, Put, Evict;
    AgreesBijective(c, m);
    var events := DecisionEvents(tx, Decide(c, tx, cfg));
    match Decide(c, tx, cfg)
    case Duplicate =>
    case Admitted =>
      ReplayOne(m, events);
      DecodedPuts(c, m, tx);
    case Replaced(incumbent) =>
      ReplayTwo(m, events);
      ReplaceIsEvictAndPut(c, tx, cfg);
      KnownToPool(c, m, incumbent);
      SettledEvicts(c, m, incumbent, ReplacedBy(tx.hash));
      DecodedPuts(Evict(c, incumbent), ApplySettled(m, incumbent, ReplacedBy(tx.hash)), tx);
    case _ =>
      ReplayOne(m, events);
      RefusedIsHarmless(c, m, tx.hash, Dropped(events[0].reason));
  }

  lemma AgreesBijective(c: Core, m: Pool)
    requires Agrees(c, m)
    ensures Bijective(c)
  {
  }

  lemma KnownToPool(c: Core, m: Pool, h: TxHash)
    requires Agrees(c, m) && h in c.pending
    ensures h in m.txs
  {
    assert KnownPending(c, m, h);
  }

  lemma ReplayOne(m: Pool, log: seq<Payload>)
    requires |log| == 1
    ensures ReplayAll(m, log) == Apply(m, log[0])
  {
    assert Replay(m, log, 0) == m;
  }

  lemma ReplayTwo(m: Pool, log: seq<Payload>)
    requires |log| == 2
    ensures ReplayAll(m, log) == Apply(Apply(m, log[0]), log[1])
  {
    assert Replay(m, log, 0) == m;
    assert Replay(m, log, 1) == Apply(m, log[0]);
  }

  /** The queue transitions that follow confirm what the decision events already produced. */
  lemma {:induction false} TransitionsAreIdle(c: Core, m: Pool, ts: seq<Transition>, i: nat)
    requires Agrees(c, m) && i <= |ts|
    requires forall k :: 0 <= k < |ts| ==> Current(c, ts[k])
    ensures |TransitionEvents(ts, i)| == i
    ensures ReplayAll(m, TransitionEvents(ts, i)) == m
  {
    hide Agrees, Apply, Current, TransitionEvent;
    if i > 0 {
      TransitionsAreIdle(c, m, ts, i - 1);
      var earlier, last := TransitionEvents(ts, i - 1), [TransitionEvent(ts[i - 1])];
      ReplayConcat(m, earlier, last, 1);
      ReplayOne(m, last);
      assert Current(c, ts[i - 1]);
      CurrentIsIdle(c, m, ts[i - 1]);
    }
  }

  /** A transition that reports the current label of a pending transaction in its own slot. */
  ghost predicate Current(c: Core, t: Transition) {
    && t.hash in View(c) && View(c)[t.hash] == t.state
    && c.pending[t.hash].sender == t.sender && c.pending[t.hash].nonce == t.nonce
  }

  lemma CurrentIsIdle(c: Core, m: Pool, t: Transition)
    requires Agrees(c, m) && Current(c, t)
    ensures Apply(m, TransitionEvent(t)) == m
  {
    TransitionIsIdle(c, m, t);
  }

  lemma ReportedAreCurrent(c: ValidCore, tx: Tx, cfg: Config)
    ensures forall t :: t in AdmitOutcome(c, tx, cfg).transitions ==> Current(Admit(c, tx, cfg), t)
  {
    forall t | t in AdmitOutcome(c, tx, cfg).transitions ensures Current(Admit(c, tx, cfg), t) {
      TransitionsAreChanges(c, tx, cfg, t);
    }
  }

  lemma QuietPrefix(m: Pool, h: TxHash, rest: seq<Payload>)
    ensures ReplayAll(m, [TxSeen(h), TxFetched(h)] + rest) == ReplayAll(m, rest)
  {
    var quiet := [TxSeen(h), TxFetched(h)];
    ReplayConcat(m, quiet, rest, |rest|);
    ReplayTwo(m, quiet);
  }

  /** Of one admission's events only the decision events change the replayed state. */
  lemma EmissionIsDecision(c: ValidCore, m: Pool, tx: Tx, cfg: Config)
    requires Agrees(c, m)
    ensures ReplayAll(m, Emission(c, tx, cfg)) == ReplayAll(m, DecisionEvents(tx, Decide(c, tx, cfg)))
  {
    hide Agrees, Apply, Current, TransitionEvents, Admit, DecisionEvents;
    var outcome := AdmitOutcome(c, tx, cfg);
    var decision := DecisionEvents(tx, outcome.admission);
    var follow := TransitionEvents(outcome.transitions, |outcome.transitions|);
    QuietPrefix(m, tx.hash, decision + follow);
    ReplayConcat(m, decision, follow, |follow|);
    DecisionAgrees(c, m, tx, cfg);
    ReportedAreCurrent(c, tx, cfg);
    TransitionsAreIdle(Admit(c, tx, cfg), ReplayAll(m, decision), outcome.transitions, |outcome.transitions|);
  }

  /** Replaying one admission's events follows the admission. */
  lemma EmissionAgrees(c: ValidCore, m: Pool, tx: Tx, cfg: Config)
    requires Agrees(c, m)
    ensures Agrees(Admit(c, tx, cfg), ReplayAll(m, Emission(c, tx, cfg)))
  {
    hide Agrees, Emission, Replay, Admit, Decide, DecisionEvents;
    EmissionIsDecision(c, m, tx, cfg);
    DecisionAgrees(c, m, tx, cfg);
  }

  // ---------------------------------------------------------------- whole runs

  /** Agreement survives every run of admissions when the replay follows its log. */
  lemma {:induction false} LogKeepsAgreement(c: ValidCore, m: Pool, txs: seq<Tx>, i: nat, cfg: Config)
    requires Agrees(c, m) && i <= |txs|
    ensures Agrees(Run(c, txs, i, cfg), ReplayAll(m, Log(c, txs, i, cfg)))
  {
    hide Agrees, Apply, Emission, Admit;
    if i > 0 {
      LogKeepsAgreement(c, m, txs, i - 1, cfg);
      var earlier, next := Log(c, txs, i - 1, cfg), Emission(Run(c, txs, i - 1, cfg), txs[i - 1], cfg);
      ReplayConcat(m, earlier, next, |next|);
      EmissionAgrees(Run(c, txs, i - 1, cfg), ReplayAll(m, earlier), txs[i - 1], cfg);
    }
  }

  /** What the scheduler shows of its queues: each sender's entries with their labels. */
  ghost function SchedulerViewUpTo(c: Core, k: nat): seq<QueueView>
    requires k <= |c.queues.Keys|
  {
    if k == 0 then []
    else
      var s := Ascending(c.queues.Keys)[k - 1];
      assert s in c.queues.Keys;
      SchedulerViewUpTo(c, k - 1) + [QueueView(s, Positions(c.queues[s]))]
  }

  ghost function SchedulerView(c: Core): seq<QueueView> {
    SchedulerViewUpTo(c, |c.queues.Keys|)
  }

  lemma {:induction false} SameEntries(c: Core, m: Pool, s: Address, i: nat)
    requires Agrees(c, m) && s in c.queues && i <= |c.queues[s].Keys|
    ensures QueuedUpTo(m.txs, c.queues[s], i) == PositionsUpTo(c.queues[s], i)
  {
    hide Label, AgreesExcept, Bijective, LiveNonces;
    if i > 0 {
      SameEntries(c, m, s, i - 1);
      var n := Nonces(c.queues[s].Keys)[i - 1];
      assert n in c.queues[s].Keys;
      EntryLabel(c, m, s, n);
    }
  }

  lemma EntryLabel(c: Core, m: Pool, s: Address, n: U64)
    requires Agrees(c, m) && s in c.queues && n in c.queues[s]
    ensures LiveNonces(m.txs, c.queues[s]) == c.queues[s].Keys
    ensures c.queues[s][n] in m.txs && m.txs[c.queues[s][n]].queueState == Some(Label(c.queues[s].Keys, n))
  {
    QueueIsLive(c, m, {}, s);
    var h := c.queues[s][n];
    assert FillsSlot(c, h, s, n);
    assert KnownPending(c, m, h) && SameLabel(c, m, h);
  }

  lemma {:induction false} SameQueues(c: Core, m: Pool, k: nat)
    requires Agrees(c, m) && k <= |c.queues.Keys|
    ensures PoolViewUpTo(m, k) == SchedulerViewUpTo(c, k)
  {
    hide AgreesExcept, Bijective, Label, PositionsUpTo, QueuedUpTo;
    AgreesQueues(c, m);
    if k > 0 {
      SameQueues(c, m, k - 1);
      var s := Ascending(c.queues.Keys)[k - 1];
      assert s in c.queues.Keys;
      SameEntries(c, m, s, |c.queues[s].Keys|);
    }
  }

  lemma AgreesQueues(c: Core, m: Pool)
    requires Agrees(c, m)
    ensures m.queues == c.queues
    ensures forall s :: s in c.queues ==> |c.queues[s].Keys| > 0
  {
  }

  lemma AgreeingViews(c: Core, m: Pool)
    requires Agrees(c, m)
    ensures PendingHashes(m) == c.pending.Keys
    ensures PoolView(m) == SchedulerView(c)
  {
    SameQueues(c, m, |c.queues.Keys|);
    forall h | h in c.pending ensures IsPending(m.txs, h) {
      assert KnownPending(c, m, h);
    }
  }

  lemma EmptyAgrees()
    ensures Agrees(EMPTY, EMPTY_POOL)
  {
  }

  /** Events that never touch the replayed state. */
  predicate Quiet(p: Payload) {
    p.TxSeen? || p.TxFetched? || p.Downstream?
  }

  function LoudUpTo(log: seq<Payload>, i: nat): seq<Payload>
    requires i <= |log|
  {
    if i == 0 then [] else LoudUpTo(log, i - 1) + if Quiet(log[i - 1]) then [] else [log[i - 1]]
  }

  /** The events of a log that can change the replayed state. */
  function Loud(log: seq<Payload>): seq<Payload> {
    LoudUpTo(log, |log|)
  }

  lemma QuietIsIdle(m: Pool, p: Payload)
    ensures Quiet(p) ==> Apply(m, p) == m
  {
  }

  lemma {:induction false} QuietEventsIgnored(m: Pool, log: seq<Payload>, i: nat)
    requires i <= |log|
    ensures Replay(m, log, i) == ReplayAll(m, LoudUpTo(log, i))
  {
    hide Apply, Quiet;
    if i > 0 {
      QuietEventsIgnored(m, log, i - 1);
      var earlier := LoudUpTo(log, i - 1);
      QuietIsIdle(ReplayAll(m, earlier), log[i - 1]);
      if !Quiet(log[i - 1]) {
        ReplayConcat(m, earlier, [log[i - 1]], 1);
        ReplayOne(ReplayAll(m, earlier), [log[i - 1]]);
      } else {
        assert LoudUpTo(log, i) == earlier;
      }
    }
  }

  /**
    The refinement. Take any run of admissions by one worker from a fresh scheduler, and
    any log that records it with any candidate, simulation and assembly events mixed in.
    Replaying the log from an empty state shows exactly the scheduler's pending hashes and
    its queues, entry by entry, with the same Ready and Blocked labels.
   */
  lemma ReplayRebuildsScheduler(txs: seq<Tx>, i: nat, cfg: Config, log: seq<Payload>)
    requires i <= |txs| && Loud(log) == Loud(Log(EMPTY, txs, i, cfg))
    ensures var c, m := Run(EMPTY, txs, i, cfg), ReplayAll(EMPTY_POOL, log);
      && PendingHashes(m) == c.pending.Keys
      && m.queues == c.queues
      && PoolView(m) == SchedulerView(c)
  {
    hide Agrees;
    var recorded := Log(EMPTY, txs, i, cfg);
    EmptyAgrees();
    LogKeepsAgreement(EMPTY, EMPTY_POOL, txs, i, cfg);
    QuietEventsIgnored(EMPTY_POOL, recorded, |recorded|);
    QuietEventsIgnored(EMPTY_POOL, log, |log|);
    AgreesQueues(Run(EMPTY, txs, i, cfg), ReplayAll(EMPTY_POOL, log));
    AgreeingViews(Run(EMPTY, txs, i, cfg), ReplayAll(EMPTY_POOL, log));
  }

  // ---------------------------------------------------------------- ingress drops

  /**
    When the scheduler's ingress queue is full the transaction is logged as dropped
    without asking the scheduler. The two machines then agree afterwards exactly when the
    scheduler was not holding that transaction already.
   */
  lemma QueueFullAgreesIff(c: Core, m: Pool, tx: Tx)
    requires Agrees(c, m)
    ensures Agrees(c, ReplayAll(m, [TxSeen(tx.hash), TxFetched(tx.hash), TxDropped(tx.hash, QUEUE_FULL)])) <==>
      tx.hash !in c.pending
  {
    hide AgreesExcept, ApplySettled;
    var dropped := [TxDropped(tx.hash, QUEUE_FULL)];
    QuietPrefix(m, tx.hash, dropped);
    assert [TxSeen(tx.hash), TxFetched(tx.hash)] + dropped == [TxSeen(tx.hash), TxFetched(tx.hash), dropped[0]];
    ReplayOne(m, dropped);
    var m' := ApplySettled(m, tx.hash, Dropped(QUEUE_FULL));
    if tx.hash in c.pending {
      SettledEvicts(c, m, tx.hash, Dropped(QUEUE_FULL));
      if Agrees(c, m') {
        AgreeingViews(c, m');
        AgreeingViews(Evict(c, tx.hash), m');
      }
    } else {
      RefusedIsHarmless(c, m, tx.hash, Dropped(QUEUE_FULL));
    }
  }

  // ---------------------------------------------------------------- confirmations and reorgs

  lemma EvictThenPut(c: Core, h: TxHash)
    requires Bijective(c) && h in c.pending
    ensures Queued(c, c.pending[h]) && Put(Evict(c, h), c.pending[h]) == c
    ensures h !in Evict(c, h).pending && !Occupied(Evict(c, h), c.pending[h].sender, c.pending[h].nonce)
  {
    hide Bijective, WellFormed;
    PendingIsQueued(c, h);
    EvictKeepsBijection(c, h);
    var tx, back := c.pending[h], Put(Evict(c, h), c.pending[h]);
    assert back.pending == c.pending;
    assert QueueOf(Evict(c, h), tx.sender)[tx.nonce := h] == c.queues[tx.sender];
    assert back.queues == c.queues;
  }

  /** Reopening a confirmed transaction whose slot is free is decoding it again. */
  lemma ReorgIsDecode(c: Core, m: Pool, tx: Tx, block: BlockHash)
    requires Agrees(c, m) && !Occupied(c, tx.sender, tx.nonce) && tx.hash in m.txs
    requires ConfirmedIn(m.txs[tx.hash].status, block)
    requires m.txs[tx.hash].sender == Some(tx.sender) && m.txs[tx.hash].nonce == Some(tx.nonce)
    ensures ApplyReorged(m, tx.hash, block) == ApplyDecoded(m, tx)
  {
    hide AgreesExcept, Recompute;
    FreeInPool(c, m, tx);
    var reopened := m.(txs := m.txs[tx.hash := m.txs[tx.hash].(status := Pending)]);
    assert Ensure(reopened, tx.hash, tx.sender, tx.nonce) == Ensure(m, tx.hash, tx.sender, tx.nonce);
    assert m.(txs := m.txs) == m;
  }

  lemma SettledEntry(m: Pool, h: TxHash, status: Status)
    requires h in m.txs
    ensures var m' := ApplySettled(m, h, status);
      && h in m'.txs && m'.txs[h].status == status
      && m'.txs[h].sender == m.txs[h].sender && m'.txs[h].nonce == m.txs[h].nonce
  {
    hide Relabel;
    if m.txs[h].sender.Some? && m.txs[h].nonce.Some? {
      var s := m.txs[h].sender.value;
      var left := RemoveEntry(m.(txs := Settle(m.txs, h, status)), h, s, m.txs[h].nonce.value);
      if s in left.queues {
        RelabelKeeps(left.txs, left.queues[s]);
      }
    }
  }

  /** A confirmation undone by a reorg of its own block leaves the two machines in agreement again. */
  lemma ReorgUndoesConfirmation(
      c: Core, m: Pool, h: TxHash, number: U64, block: BlockHash, newBlock: BlockHash, final: bool)
    requires Agrees(c, m) && h in c.pending
    ensures var confirmed :=
        if final then TxConfirmedFinal(h, number, block) else TxConfirmedProvisional(h, number, block);
      Agrees(c, Apply(Apply(m, confirmed), TxReorged(h, block, newBlock)))
  {
    hide AgreesExcept, ApplySettled, ApplyReorged, ApplyDecoded, Evict, Put;
    var status := if final then ConfirmedFinal(number, block) else ConfirmedProvisional(number, block);
    AgreesBijective(c, m);
    SettledKnows(c, m, h);
    SettledEvicts(c, m, h, status);
    SettledEntry(m, h, status);
    EvictThenPut(c, h);
    var m1 := ApplySettled(m, h, status);
    ReorgIsDecode(Evict(c, h), m1, c.pending[h], block);
    DecodedPuts(Evict(c, h), m1, c.pending[h]);
  }

  // ---------------------------------------------------------------- what one submission leaves in the log

  /**
    The log of a submission opens with its two sightings and never repeats them. It decodes
    the transaction exactly when it was admitted, names the replaced one exactly when there
    is one, and drops it exactly when it was refused, with the refusal's own reason. It
    reports exactly the transitions, a blocked one with the nonce it waits for.
   */
  lemma SubmissionIsLogged(c: ValidCore, tx: Tx, cfg: Config, p: Payload)
    ensures var events, d, ts := Emission(c, tx, cfg), Decide(c, tx, cfg), AdmitOutcome(c, tx, cfg).transitions;
      && |events| >= 2 && events[0] == TxSeen(tx.hash) && events[1] == TxFetched(tx.hash)
      && (p.TxSeen? || p.TxFetched? ==> p !in events[2..])
      && (p.TxDecoded? ==> (p in events <==> p.tx == tx && (d == Admitted || d.Replaced?)))
      && (p.TxReplaced? ==> (p in events <==> p.replacedBy == tx.hash && d == Replaced(p.hash)))
      && (p.TxDropped? ==> (p in events <==>
            p.hash == tx.hash && ((d == UnderpricedReplacement && p.reason == "underpriced_replacement") ||
                                  (d == SenderLimitReached && p.reason == "sender_limit_reached"))))
      && (p.TxReady? ==> (p in events <==> Transition(p.hash, p.sender, p.nonce, Ready) in ts))
      && (p.TxBlocked? ==> (p in events <==>
            && p.expectedNonce.Some?
            && Transition(p.hash, p.sender, p.nonce, Blocked(p.expectedNonce.value)) in ts))
      && (p.TxConfirmedProvisional? || p.TxConfirmedFinal? || p.TxReorged? || p.Downstream? ==> p !in events)
  {
    hide Decide, Admit, QueueTransitions;
    var outcome := AdmitOutcome(c, tx, cfg);
    var ts := outcome.transitions;
    EventOfTransitions(ts, |ts|, p);
    var decision, events := DecisionEvents(tx, outcome.admission), Emission(c, tx, cfg);
    assert events[2..] == decision + TransitionEvents(ts, |ts|);
    assert p in events[2..] <==> p in decision || p in TransitionEvents(ts, |ts|);
    assert events == [TxSeen(tx.hash), TxFetched(tx.hash)] + events[2..];
  }

  lemma {:induction false} EventOfTransitions(ts: seq<Transition>, i: nat, p: Payload)
    requires i <= |ts|
    ensures p.TxReady? ==>
      (p in TransitionEvents(ts, i) <==>
       exists k :: 0 <= k < i && ts[k] == Transition(p.hash, p.sender, p.nonce, Ready))
    ensures p.TxBlocked? ==>
      (p in TransitionEvents(ts, i) <==>
       p.expectedNonce.Some? &&
       exists k :: 0 <= k < i && ts[k] == Transition(p.hash, p.sender, p.nonce, Blocked(p.expectedNonce.value)))
    ensures p in TransitionEvents(ts, i) ==> p.TxReady? || p.TxBlocked?
  {
    if i > 0 {
      EventOfTransitions(ts, i - 1, p);
    }
  }
}
