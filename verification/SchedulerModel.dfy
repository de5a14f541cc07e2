/**
  What the scheduler stores about pending transactions, and what one admission does
  to it. The class in Scheduler.dfy is proved to follow these functions; the theorems
  about runs of admissions are proved about them.
 */
module SchedulerModel {
  import opened Prelude
  import opened NonceGap
  import opened Fees

  /** The decoded fields the scheduler reads. */
  datatype Tx = Tx(
    hash: TxHash, txType: U8, sender: Address, nonce: U64,
    gasPrice: Option<U128>, maxFee: Option<U128>)
  {
    function Fee(): U128 {
      ReplacementFee(txType, gasPrice, maxFee)
    }
  }

  datatype Config = Config(maxPendingPerSender: Usize, bumpBps: U16)

  datatype Admission =
    | Admitted
    | Duplicate
    | Replaced(replacedHash: TxHash)
    | UnderpricedReplacement
    | SenderLimitReached
  {
    predicate IsAdmitted() {
      Admitted? || Replaced?
    }
  }

  datatype Position = Position(hash: TxHash, nonce: U64, state: QueueState)

  datatype Transition = Transition(hash: TxHash, sender: Address, nonce: U64, state: QueueState)

  datatype Outcome = Outcome(admission: Admission, transitions: seq<Transition>)

  type Queue = map<U64, TxHash>

  datatype Core = Core(pending: map<TxHash, Tx>, queues: map<Address, Queue>)

  // ---------------------------------------------------------------- invariants

  predicate Queued(c: Core, tx: Tx) {
    tx.sender in c.queues && tx.nonce in c.queues[tx.sender] && c.queues[tx.sender][tx.nonce] == tx.hash
  }

  /** A pending entry that sits in the given slot. */
  ghost predicate FillsSlot(c: Core, hash: TxHash, sender: Address, nonce: U64) {
    hash in c.pending && c.pending[hash].sender == sender && c.pending[hash].nonce == nonce
  }

  /** Holds in every reachable state, including those restored from foreign snapshots. */
  ghost predicate WellFormed(c: Core) {
    && (forall h :: h in c.pending ==> c.pending[h].hash == h)
    && (forall s :: s in c.queues ==> c.queues[s].Keys != {})
    && (forall s, n :: s in c.queues && n in c.queues[s] ==> FillsSlot(c, c.queues[s][n], s, n))
  }

  /** Adds the converse: every pending transaction is queued in its own slot. */
  ghost predicate Bijective(c: Core) {
    WellFormed(c) && forall h :: h in c.pending ==> Queued(c, c.pending[h])
  }

  type ValidCore = c: Core | WellFormed(c) witness Core(map[], map[])

  const EMPTY: ValidCore := Core(map[], map[])

  // ---------------------------------------------------------------- admission

  function QueueOf(c: Core, sender: Address): Queue {
    if sender in c.queues then c.queues[sender] else map[]
  }

  function Occupied(c: Core, sender: Address, nonce: U64): bool {
    nonce in QueueOf(c, sender)
  }

  function Occupant(c: Core, sender: Address, nonce: U64): (tx: Tx)
    requires WellFormed(c)
    requires Occupied(c, sender, nonce)
    ensures tx.sender == sender && tx.nonce == nonce && tx.hash in c.pending && c.pending[tx.hash] == tx
  {
    assert FillsSlot(c, c.queues[sender][nonce], sender, nonce);
    c.pending[c.queues[sender][nonce]]
  }

  function Decide(c: Core, tx: Tx, cfg: Config): Admission
    requires WellFormed(c)
  {
    if tx.hash in c.pending then Duplicate
    else if Occupied(c, tx.sender, tx.nonce) then
      var incumbent := Occupant(c, tx.sender, tx.nonce);
      if tx.Fee() >= Threshold(incumbent.Fee(), cfg.bumpBps) then Replaced(incumbent.hash)
      else UnderpricedReplacement
    else if |QueueOf(c, tx.sender)| >= cfg.maxPendingPerSender then SenderLimitReached
    else Admitted
  }

  function Put(c: Core, tx: Tx): Core {
    Core(c.pending[tx.hash := tx],
         c.queues[tx.sender := QueueOf(c, tx.sender)[tx.nonce := tx.hash]])
  }

  function Remove(c: Core, hash: TxHash): Core {
    c.(pending := c.pending - {hash})
  }

  function Admit(c: Core, tx: Tx, cfg: Config): Core
    requires WellFormed(c)
  {
    match Decide(c, tx, cfg)
    case Admitted => Put(c, tx)
    case Replaced(incumbent) => Put(Remove(c, incumbent), tx)
    case _ => c
  }

  /** Admitting into a slot that is free, or was freed by removing its occupant. */
  lemma PutKeepsWellFormed(c: Core, removed: set<TxHash>, tx: Tx)
    requires WellFormed(c) && tx.hash !in c.pending
    requires Occupied(c, tx.sender, tx.nonce) ==> removed == {c.queues[tx.sender][tx.nonce]}
    requires !Occupied(c, tx.sender, tx.nonce) ==> removed == {}
    ensures WellFormed(Put(c.(pending := c.pending - removed), tx))
  {
    var c' := Put(c.(pending := c.pending - removed), tx);
    forall s, n | s in c'.queues && n in c'.queues[s]
      ensures FillsSlot(c', c'.queues[s][n], s, n)
    {
      if s != tx.sender || n != tx.nonce {
        assert s in c.queues && n in c.queues[s];
        assert FillsSlot(c, c.queues[s][n], s, n);
        if Occupied(c, tx.sender, tx.nonce) {
          assert FillsSlot(c, c.queues[tx.sender][tx.nonce], tx.sender, tx.nonce);
        }
      }
    }
    forall s | s in c'.queues ensures c'.queues[s] != map[] {
      if s == tx.sender {
        assert tx.nonce in c'.queues[s];
      }
    }
  }

  lemma PutKeepsQueued(c: Core, removed: set<TxHash>, tx: Tx)
    requires Bijective(c) && tx.hash !in c.pending
    requires Occupied(c, tx.sender, tx.nonce) ==> removed == {c.queues[tx.sender][tx.nonce]}
    requires !Occupied(c, tx.sender, tx.nonce) ==> removed == {}
    ensures Bijective(Put(c.(pending := c.pending - removed), tx))
  {
    PutKeepsWellFormed(c, removed, tx);
    var c' := Put(c.(pending := c.pending - removed), tx);
    forall h | h in c'.pending ensures Queued(c', c'.pending[h]) {
      if h != tx.hash {
        assert Queued(c, c.pending[h]);
      }
    }
  }

  lemma AdmitIsPut(c: Core, tx: Tx, cfg: Config) returns (removed: set<TxHash>)
    requires WellFormed(c) && Decide(c, tx, cfg).IsAdmitted()
    ensures Admit(c, tx, cfg) == Put(c.(pending := c.pending - removed), tx)
    ensures tx.hash !in c.pending
    ensures Occupied(c, tx.sender, tx.nonce) ==> removed == {c.queues[tx.sender][tx.nonce]}
    ensures !Occupied(c, tx.sender, tx.nonce) ==> removed == {}
    ensures removed == match Decide(c, tx, cfg) case Replaced(h) => {h} case _ => {}
  {
    if Occupied(c, tx.sender, tx.nonce) {
      assert FillsSlot(c, c.queues[tx.sender][tx.nonce], tx.sender, tx.nonce);
      removed := {c.queues[tx.sender][tx.nonce]};
    } else {
      removed := {};
      assert c.pending - removed == c.pending;
    }
  }

  lemma AdmitKeepsInvariants(c: Core, tx: Tx, cfg: Config)
    requires WellFormed(c)
    ensures WellFormed(Admit(c, tx, cfg))
    ensures Bijective(c) ==> Bijective(Admit(c, tx, cfg))
  {
    if Decide(c, tx, cfg).IsAdmitted() {
      var removed := AdmitIsPut(c, tx, cfg);
      PutKeepsWellFormed(c, removed, tx);
      if Bijective(c) {
        PutKeepsQueued(c, removed, tx);
      }
    }
  }

  // ---------------------------------------------------------------- classification

  /** The first `i` positions of a queue in nonce order. */
  ghost function PositionsUpTo(q: Queue, i: nat): (ps: seq<Position>)
    requires i <= |q.Keys|
    ensures |ps| == i
  {
    if i == 0 then []
    else
      var n := Nonces(q.Keys)[i - 1];
      assert n in q.Keys;
      PositionsUpTo(q, i - 1) + [Position(q[n], n, Label(q.Keys, n))]
  }

  ghost function Positions(q: Queue): seq<Position> {
    PositionsUpTo(q, |q.Keys|)
  }

  lemma {:induction false} PositionAt(q: Queue, i: nat, k: nat)
    requires k < i <= |q.Keys|
    ensures Nonces(q.Keys)[k] in q
    ensures var n := Nonces(q.Keys)[k]; PositionsUpTo(q, i)[k] == Position(q[n], n, Label(q.Keys, n))
  {
    if k < i - 1 {
      PositionAt(q, i - 1, k);
    } else {
      assert Nonces(q.Keys)[k] in q.Keys;
    }
  }

  /** From-scratch classification: the label of every queued pending hash. */
  ghost function View(c: Core): map<TxHash, QueueState> {
    map h | h in c.pending && Queued(c, c.pending[h]) ::
      Label(c.queues[c.pending[h].sender].Keys, c.pending[h].nonce)
  }

  function StatesByHash(ps: seq<Position>, i: nat): map<TxHash, QueueState>
    requires i <= |ps|
  {
    if i == 0 then map[] else StatesByHash(ps, i - 1)[ps[i - 1].hash := ps[i - 1].state]
  }

  /** The first `i` entries of `now` that are new or changed state since `before`. */
  function TransitionsUpTo(sender: Address, before: map<TxHash, QueueState>, now: seq<Position>, i: nat)
    : seq<Transition>
    requires i <= |now|
  {
    if i == 0 then []
    else
      var p := now[i - 1];
      TransitionsUpTo(sender, before, now, i - 1) +
      if p.hash in before && before[p.hash] == p.state then []
      else [Transition(p.hash, sender, p.nonce, p.state)]
  }

  function QueueTransitions(sender: Address, previous: seq<Position>, now: seq<Position>): seq<Transition> {
    TransitionsUpTo(sender, StatesByHash(previous, |previous|), now, |now|)
  }

  ghost function AdmitOutcome(c: Core, tx: Tx, cfg: Config): Outcome
    requires WellFormed(c)
  {
    var d := Decide(c, tx, cfg);
    Outcome(d,
            if d.IsAdmitted() then
              QueueTransitions(tx.sender, Positions(QueueOf(c, tx.sender)),
                               Positions(QueueOf(Admit(c, tx, cfg), tx.sender)))
            else [])
  }

  // ---------------------------------------------------------------- runs

  /** The state after admitting the first `i` of `txs` in order, starting from `c`. */
  ghost function Run(c: ValidCore, txs: seq<Tx>, i: nat, cfg: Config): ValidCore
    requires i <= |txs|
  {
    if i == 0 then c
    else
      var before := Run(c, txs, i - 1, cfg);
      AdmitKeepsInvariants(before, txs[i - 1], cfg);
      Admit(before, txs[i - 1], cfg)
  }

  /** Over every run from such a state, every pending transaction stays queued in its own slot. */
  lemma {:induction false} RunKeepsBijection(c: ValidCore, txs: seq<Tx>, i: nat, cfg: Config)
    requires Bijective(c) && i <= |txs|
    ensures Bijective(Run(c, txs, i, cfg))
  {
    hide Admit, Bijective;
    if i > 0 {
      RunKeepsBijection(c, txs, i - 1, cfg);
      AdmitKeepsInvariants(Run(c, txs, i - 1, cfg), txs[i - 1], cfg);
    }
  }

  /** The state after all of `txs`. */
  ghost function RunAll(c: ValidCore, txs: seq<Tx>, cfg: Config): ValidCore {
    Run(c, txs, |txs|, cfg)
  }
}
