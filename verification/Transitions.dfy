/** The queue transitions an admission reports are a complete and exact diff of the classification. */
module Transitions {
  import opened Prelude
  import opened NonceGap
  import opened SchedulerModel
  import opened Counting

  type StateView = map<TxHash, QueueState>

  /** A reader of the first `i` transitions updates its view of every hash's state. */
  ghost function FollowUpTo(view: StateView, ts: seq<Transition>, i: nat): StateView
    requires i <= |ts|
  {
    if i == 0 then view else FollowUpTo(view, ts, i - 1)[ts[i - 1].hash := ts[i - 1].state]
  }

  ghost function Follow(view: StateView, ts: seq<Transition>): StateView {
    FollowUpTo(view, ts, |ts|)
  }

  function ReplacedHashes(a: Admission): set<TxHash> {
    match a
    case Replaced(h) => {h}
    case _ => {}
  }

  lemma {:induction false} FollowPrefix(view: StateView, a: seq<Transition>, b: seq<Transition>, i: nat)
    requires i <= |a|
    ensures FollowUpTo(view, a + b, i) == FollowUpTo(view, a, i)
  {
    if i > 0 {
      FollowPrefix(view, a, b, i - 1);
    }
  }

  /** The view after overwriting it with the first `i` positions. */
  ghost function Overwrite(view: StateView, now: seq<Position>, i: nat): StateView
    requires i <= |now|
  {
    if i == 0 then view else Overwrite(view, now, i - 1)[now[i - 1].hash := now[i - 1].state]
  }

  /** A view that already knows every unchanged position. */
  ghost predicate KnowsUnchanged(view: StateView, before: StateView, now: seq<Position>) {
    forall k :: 0 <= k < |now| && now[k].hash in before && before[now[k].hash] == now[k].state ==>
      now[k].hash in view && view[now[k].hash] == now[k].state
  }

  lemma {:induction false} OverwriteKeeps(view: StateView, now: seq<Position>, i: nat, h: TxHash)
    requires i <= |now| && forall k :: 0 <= k < i ==> now[k].hash != h
    ensures h in Overwrite(view, now, i) <==> h in view
    ensures h in view ==> Overwrite(view, now, i)[h] == view[h]
  {
    if i > 0 {
      OverwriteKeeps(view, now, i - 1, h);
    }
  }

  lemma {:induction false} OverwriteSets(view: StateView, now: seq<Position>, i: nat, k: nat)
    requires k < i <= |now| && DistinctPositions(now)
    ensures now[k].hash in Overwrite(view, now, i) && Overwrite(view, now, i)[now[k].hash] == now[k].state
  {
    if k < i - 1 {
      OverwriteSets(view, now, i - 1, k);
    }
  }

  /** Following the reported transitions is the same as overwriting with all current positions. */
  lemma {:induction false} FollowIsOverwrite(
      view: StateView, sender: Address, before: StateView, now: seq<Position>, i: nat)
    requires i <= |now| && DistinctPositions(now) && KnowsUnchanged(view, before, now)
    ensures Follow(view, TransitionsUpTo(sender, before, now, i)) == Overwrite(view, now, i)
  {
    if i > 0 {
      FollowIsOverwrite(view, sender, before, now, i - 1);
      var p := now[i - 1];
      var earlier := TransitionsUpTo(sender, before, now, i - 1);
      if p.hash in before && before[p.hash] == p.state {
        OverwriteKeeps(view, now, i - 1, p.hash);
        assert earlier + [] == earlier;
      } else {
        FollowPrefix(view, earlier, [Transition(p.hash, sender, p.nonce, p.state)], |earlier|);
      }
    }
  }

  // ---------------------------------------------------------------- positions against the view

  lemma {:induction false} StatesByHashAt(ps: seq<Position>, i: nat)
    requires i <= |ps| && DistinctPositions(ps)
    ensures forall h :: h in StatesByHash(ps, i) <==> exists k :: 0 <= k < i && ps[k].hash == h
    ensures forall k :: 0 <= k < i ==>
      ps[k].hash in StatesByHash(ps, i) && StatesByHash(ps, i)[ps[k].hash] == ps[k].state
  {
    if i > 0 {
      StatesByHashAt(ps, i - 1);
    }
  }

  lemma EmptyQueuePositions(q: Queue)
    requires q == map[]
    ensures Positions(q) == []
  {
    assert q.Keys == {};
  }

  /** The positions of a sender, empty when it has no queue. */
  ghost function SenderPositions(c: Core, sender: Address): seq<Position> {
    Positions(QueueOf(c, sender))
  }

  lemma SenderPositionsDistinct(c: ValidCore, sender: Address)
    ensures DistinctPositions(SenderPositions(c, sender))
  {
    if sender in c.queues {
      DistinctHashes(c, sender);
    } else {
      EmptyQueuePositions(QueueOf(c, sender));
    }
  }

  lemma PositionInView(c: ValidCore, sender: Address, k: nat)
    requires k < |SenderPositions(c, sender)|
    ensures var p := SenderPositions(c, sender)[k];
      p.hash in View(c) && View(c)[p.hash] == p.state && c.pending[p.hash].sender == sender
  {
    if sender in c.queues {
      PositionIsClassified(c, sender, k);
    } else {
      EmptyQueuePositions(QueueOf(c, sender));
    }
  }

  lemma ViewHasPosition(c: ValidCore, h: TxHash) returns (k: nat)
    requires h in View(c)
    ensures var ps := SenderPositions(c, c.pending[h].sender);
      k < |ps| && ps[k].hash == h && ps[k].state == View(c)[h]
  {
    k := PositionOf(c, h);
  }

  lemma ViewElsewhere(c: ValidCore, tx: Tx, cfg: Config, h: TxHash)
    requires
      || (h in View(c) && c.pending[h].sender != tx.sender)
      || (h in View(Admit(c, tx, cfg)) && Admit(c, tx, cfg).pending[h].sender != tx.sender)
    ensures h in View(c) && h in View(Admit(c, tx, cfg)) && View(Admit(c, tx, cfg))[h] == View(c)[h]
    ensures c.pending[h].sender != tx.sender && h !in ReplacedHashes(Decide(c, tx, cfg))
  {
    hide Admit, Label, View, WellFormed;
    var c' := Admit(c, tx, cfg);
    Classification(c, h);
    Classification(c', h);
    AdmitSameElsewhere(c, tx, cfg);
    assert h in c.pending && h in c'.pending && c'.pending[h] == c.pending[h];
    var held := c.pending[h];
    assert QueueOf(c, held.sender) == QueueOf(c', held.sender);
    assert Queued(c, held) && Queued(c', held);
    ReplacedOwnSender(c, tx, cfg);
  }

  lemma ReplacedOwnSender(c: ValidCore, tx: Tx, cfg: Config)
    ensures forall h :: h in ReplacedHashes(Decide(c, tx, cfg)) ==> h in c.pending && c.pending[h].sender == tx.sender
  {
  }

  lemma Classification(c: Core, h: TxHash)
    ensures h in View(c) <==> h in c.pending && Queued(c, c.pending[h])
    ensures h in View(c) ==> View(c)[h] == Label(c.queues[c.pending[h].sender].Keys, c.pending[h].nonce)
  {
  }

  // ---------------------------------------------------------------- main results

  lemma UnchangedKnown(c: ValidCore, tx: Tx, cfg: Config)
    requires Decide(c, tx, cfg).IsAdmitted()
    ensures var c' := Admit(c, tx, cfg);
      var previous := SenderPositions(c, tx.sender);
      KnowsUnchanged(View(c) - ReplacedHashes(Decide(c, tx, cfg)), StatesByHash(previous, |previous|),
                     Positions(QueueOf(c', tx.sender)))
  {
    hide Admit, View, SenderPositions, Decide, StatesByHash;
    AdmitKeepsInvariants(c, tx, cfg);
    var c': ValidCore := Admit(c, tx, cfg);
    var previous, now := SenderPositions(c, tx.sender), SenderPositions(c', tx.sender);
    var before := StatesByHash(previous, |previous|);
    SenderPositionsDistinct(c, tx.sender);
    StatesByHashAt(previous, |previous|);
    PositionsOfQueue(c', tx.sender);
    forall k | 0 <= k < |now| && now[k].hash in before && before[now[k].hash] == now[k].state
      ensures now[k].hash in View(c) && View(c)[now[k].hash] == now[k].state
      ensures now[k].hash !in ReplacedHashes(Decide(c, tx, cfg))
    {
      var j :| 0 <= j < |previous| && previous[j].hash == now[k].hash;
      PositionInView(c, tx.sender, j);
      PositionInView(c', tx.sender, k);
      StillPendingNotReplaced(c, tx, cfg, now[k].hash);
    }
  }

  lemma PositionsOfQueue(c: ValidCore, sender: Address)
    ensures SenderPositions(c, sender) == Positions(QueueOf(c, sender))
  {
  }

  lemma StillPendingNotReplaced(c: ValidCore, tx: Tx, cfg: Config, h: TxHash)
    requires h in View(c) && h in View(Admit(c, tx, cfg))
    ensures h !in ReplacedHashes(Decide(c, tx, cfg))
  {
    hide View, Label;
    Classification(c, h);
    Classification(Admit(c, tx, cfg), h);
    if Decide(c, tx, cfg).IsAdmitted() {
      var removed := AdmitIsPut(c, tx, cfg);
    }
  }

  /**
    Removing the replaced hash from the old classification and applying the reported
    transitions gives exactly the new classification.
   */
  lemma TransitionsComplete(c: ValidCore, tx: Tx, cfg: Config)
    ensures var o := AdmitOutcome(c, tx, cfg);
      Follow(View(c) - ReplacedHashes(o.admission), o.transitions) == View(Admit(c, tx, cfg))
  {
    var d := Decide(c, tx, cfg);
    if !d.IsAdmitted() {
      assert View(c) - {} == View(c);
    } else {
      AdmitKeepsInvariants(c, tx, cfg);
      var c': ValidCore := Admit(c, tx, cfg);
      var previous, now := SenderPositions(c, tx.sender), SenderPositions(c', tx.sender);
      var kept := View(c) - ReplacedHashes(d);
      SenderPositionsDistinct(c', tx.sender);
      UnchangedKnown(c, tx, cfg);
      FollowIsOverwrite(kept, tx.sender, StatesByHash(previous, |previous|), now, |now|);
      OverwriteIsView(c, tx, cfg);
    }
  }

  ghost predicate AgreeAt(a: StateView, b: StateView, h: TxHash) {
    (h in a <==> h in b) && (h in b ==> a[h] == b[h])
  }

  lemma AgreeEverywhere(a: StateView, b: StateView)
    requires forall h :: AgreeAt(a, b, h)
    ensures a == b
  {
    forall h ensures h in a <==> h in b {
      assert AgreeAt(a, b, h);
    }
    forall h | h in a ensures a[h] == b[h] {
      assert AgreeAt(a, b, h);
    }
  }

  lemma OverwriteIsView(c: ValidCore, tx: Tx, cfg: Config)
    requires Decide(c, tx, cfg).IsAdmitted()
    ensures var now := Positions(QueueOf(Admit(c, tx, cfg), tx.sender));
      Overwrite(View(c) - ReplacedHashes(Decide(c, tx, cfg)), now, |now|) == View(Admit(c, tx, cfg))
  {
    var now := Positions(QueueOf(Admit(c, tx, cfg), tx.sender));
    var a, b := Overwrite(View(c) - ReplacedHashes(Decide(c, tx, cfg)), now, |now|), View(Admit(c, tx, cfg));
    forall h ensures AgreeAt(a, b, h) {
      OverwriteAgrees(c, tx, cfg, h);
    }
    AgreeEverywhere(a, b);
  }

  lemma OverwriteAgrees(c: ValidCore, tx: Tx, cfg: Config, h: TxHash)
    requires Decide(c, tx, cfg).IsAdmitted()
    ensures var c' := Admit(c, tx, cfg);
      var now := Positions(QueueOf(c', tx.sender));
      AgreeAt(Overwrite(View(c) - ReplacedHashes(Decide(c, tx, cfg)), now, |now|), View(c'), h)
  {
    AdmitKeepsInvariants(c, tx, cfg);
    var c': ValidCore := Admit(c, tx, cfg);
    var kept, now := View(c) - ReplacedHashes(Decide(c, tx, cfg)), SenderPositions(c', tx.sender);
    SenderPositionsDistinct(c', tx.sender);
    if k :| 0 <= k < |now| && now[k].hash == h {
      OverwriteSets(kept, now, |now|, k);
      PositionInView(c', tx.sender, k);
    } else {
      OverwriteKeeps(kept, now, |now|, h);
      if h in View(c') {
        if c'.pending[h].sender == tx.sender {
          var k := ViewHasPosition(c', h);
          assert false;
        }
        ViewElsewhere(c, tx, cfg, h);
      } else if h in kept {
        GoneOnlyIfReplaced(c, tx, cfg, h);
        assert false;
      }
    }
  }

  lemma PutKeepsSlot(c: Core, removed: set<TxHash>, tx: Tx, h: TxHash)
    requires WellFormed(c) && tx.hash !in c.pending
    requires Occupied(c, tx.sender, tx.nonce) ==> removed == {c.queues[tx.sender][tx.nonce]}
    requires h in c.pending && h !in removed && Queued(c, c.pending[h])
    ensures var c' := Put(c.(pending := c.pending - removed), tx);
      h in c'.pending && c'.pending[h] == c.pending[h] && Queued(c', c.pending[h])
  {
  }

  /** The only hash that leaves the classification is the replaced one. */
  lemma GoneOnlyIfReplaced(c: ValidCore, tx: Tx, cfg: Config, h: TxHash)
    requires h in View(c) && h !in View(Admit(c, tx, cfg))
    ensures h in ReplacedHashes(Decide(c, tx, cfg))
  {
    hide View, WellFormed, Queued, Put;
    Classification(c, h);
    Classification(Admit(c, tx, cfg), h);
    if Decide(c, tx, cfg).IsAdmitted() {
      var removed := AdmitIsPut(c, tx, cfg);
      if h !in removed {
        PutKeepsSlot(c, removed, tx, h);
      }
    }
  }

  /** The classification rebuilt only from the outcomes of the first `i` admissions of a fresh scheduler. */
  ghost function FollowedView(txs: seq<Tx>, cfg: Config, i: nat): StateView
    requires i <= |txs|
  {
    if i == 0 then map[]
    else
      var o := AdmitOutcome(Run(EMPTY, txs, i - 1, cfg), txs[i - 1], cfg);
      Follow(FollowedView(txs, cfg, i - 1) - ReplacedHashes(o.admission), o.transitions)
  }

  /** Over every run, a reader of the outcomes always knows the current classification. */
  lemma {:induction false} FollowedViewIsCurrent(txs: seq<Tx>, cfg: Config, i: nat)
    requires i <= |txs|
    ensures FollowedView(txs, cfg, i) == View(Run(EMPTY, txs, i, cfg))
  {
    hide Admit, View, AdmitOutcome, Follow, WellFormed;
    if i == 0 {
      NothingClassified();
    } else {
      FollowedViewIsCurrent(txs, cfg, i - 1);
      TransitionsComplete(Run(EMPTY, txs, i - 1, cfg), txs[i - 1], cfg);
    }
  }

  lemma NothingClassified()
    ensures View(EMPTY) == map[]
  {
  }

  // ---------------------------------------------------------------- nothing superfluous

  lemma {:induction false} TransitionsComeFromPositions(
      sender: Address, before: StateView, now: seq<Position>, i: nat, t: Transition)
    requires i <= |now| && t in TransitionsUpTo(sender, before, now, i)
    ensures exists k :: 0 <= k < i && Reports(t, sender, before, now[k])
  {
    if t in TransitionsUpTo(sender, before, now, i - 1) {
      TransitionsComeFromPositions(sender, before, now, i - 1, t);
    } else {
      assert Reports(t, sender, before, now[i - 1]);
    }
  }

  predicate Reports(t: Transition, sender: Address, before: StateView, p: Position) {
    && t == Transition(p.hash, sender, p.nonce, p.state)
    && !(p.hash in before && before[p.hash] == p.state)
  }

  /** Every reported transition is the current state of a hash that was new or in another state. */
  lemma TransitionsAreChanges(c: ValidCore, tx: Tx, cfg: Config, t: Transition)
    requires t in AdmitOutcome(c, tx, cfg).transitions
    ensures var c' := Admit(c, tx, cfg);
      && t.hash in View(c') && View(c')[t.hash] == t.state
      && c'.pending[t.hash].sender == t.sender && c'.pending[t.hash].nonce == t.nonce
      && (t.hash in View(c) ==> View(c)[t.hash] != t.state)
  {
    AdmitKeepsInvariants(c, tx, cfg);
    var c': ValidCore := Admit(c, tx, cfg);
    var previous, now := SenderPositions(c, tx.sender), SenderPositions(c', tx.sender);
    var before := StatesByHash(previous, |previous|);
    TransitionsComeFromPositions(tx.sender, before, now, |now|, t);
    var k :| 0 <= k < |now| && Reports(t, tx.sender, before, now[k]);
    PositionInView(c', tx.sender, k);
    PositionNonce(c', tx.sender, k);
    if t.hash in View(c) && View(c)[t.hash] == t.state {
      SenderPositionsDistinct(c, tx.sender);
      StatesByHashAt(previous, |previous|);
      KeptSender(c, tx, cfg, t.hash);
      var j := ViewHasPosition(c, t.hash);
    }
  }

  lemma PositionNonce(c: ValidCore, sender: Address, k: nat)
    requires k < |SenderPositions(c, sender)|
    ensures var p := SenderPositions(c, sender)[k]; p.hash in c.pending && c.pending[p.hash].nonce == p.nonce
  {
    if sender in c.queues {
      PositionIsClassified(c, sender, k);
    } else {
      EmptyQueuePositions(QueueOf(c, sender));
    }
  }

  lemma KeptSender(c: ValidCore, tx: Tx, cfg: Config, h: TxHash)
    requires h in c.pending && h in Admit(c, tx, cfg).pending
    ensures Admit(c, tx, cfg).pending[h] == c.pending[h]
  {
    if Decide(c, tx, cfg).IsAdmitted() {
      var removed := AdmitIsPut(c, tx, cfg);
    }
  }

  /** A replacement reports exactly one transition: the newcomer, in its incumbent's state. */
  lemma ReplacementReportsOne(c: ValidCore, tx: Tx, cfg: Config)
    requires Decide(c, tx, cfg).Replaced?
    ensures tx.sender in c.queues && tx.nonce in c.queues[tx.sender]
    ensures AdmitOutcome(c, tx, cfg).transitions ==
      [Transition(tx.hash, tx.sender, tx.nonce, Label(c.queues[tx.sender].Keys, tx.nonce))]
  {
    var q, q' := QueueOf(c, tx.sender), QueueOf(Admit(c, tx, cfg), tx.sender);
    var removed := AdmitIsPut(c, tx, cfg);
    assert q' == q[tx.nonce := tx.hash];
    assert q'.Keys == q.Keys;
    var previous := Positions(q);
    SenderPositionsDistinct(c, tx.sender);
    StatesByHashAt(previous, |previous|);
    forall k | 0 <= k < |previous| ensures previous[k].hash in c.pending {
      PositionInView(c, tx.sender, k);
    }
    assert tx.nonce in Nonces(q.Keys);
    var slot :| 0 <= slot < |q.Keys| && Nonces(q.Keys)[slot] == tx.nonce;
    OneChange(tx, q, slot, StatesByHash(previous, |previous|), |q.Keys|);
  }

  lemma {:induction false} OneChange(tx: Tx, q: Queue, slot: nat, before: StateView, i: nat)
    requires slot < |q.Keys| && Nonces(q.Keys)[slot] == tx.nonce && tx.nonce in q && i <= |q.Keys|
    requires q[tx.nonce := tx.hash].Keys == q.Keys && tx.hash !in before
    requires forall k :: 0 <= k < |q.Keys| ==>
      Positions(q)[k].hash in before && before[Positions(q)[k].hash] == Positions(q)[k].state
    ensures TransitionsUpTo(tx.sender, before, Positions(q[tx.nonce := tx.hash]), i) ==
      if i <= slot then [] else [Transition(tx.hash, tx.sender, tx.nonce, Label(q.Keys, tx.nonce))]
  {
    hide Positions, Label;
    if i > 0 {
      OneChange(tx, q, slot, before, i - 1);
      PositionAfterChange(tx, q, slot, i - 1);
    }
  }

  /** Changing one slot changes the position there and no other. */
  lemma PositionAfterChange(tx: Tx, q: Queue, slot: nat, k: nat)
    requires slot < |q.Keys| && Nonces(q.Keys)[slot] == tx.nonce && tx.nonce in q && k < |q.Keys|
    requires q[tx.nonce := tx.hash].Keys == q.Keys
    ensures Positions(q[tx.nonce := tx.hash])[k] ==
      if k == slot then Position(tx.hash, tx.nonce, Label(q.Keys, tx.nonce)) else Positions(q)[k]
  {
    hide Label;
    PositionAt(q[tx.nonce := tx.hash], |q.Keys|, k);
    PositionAt(q, |q.Keys|, k);
    assert k != slot ==> Nonces(q.Keys)[k] != tx.nonce;
  }

  // ---------------------------------------------------------------- in nonce order

  /** Ascending nonces, all below a bound. */
  ghost predicate RisingBelow(ts: seq<Transition>, bound: nat) {
    && (forall a, b :: 0 <= a < b < |ts| ==> ts[a].nonce < ts[b].nonce)
    && (forall a :: 0 <= a < |ts| ==> ts[a].nonce < bound)
  }

  lemma {:induction false} TransitionsRise(
      sender: Address, before: StateView, now: seq<Position>, i: nat, bound: nat)
    requires i <= |now| && forall a, b :: 0 <= a < b < |now| ==> now[a].nonce < now[b].nonce
    requires i > 0 ==> now[i - 1].nonce < bound
    ensures RisingBelow(TransitionsUpTo(sender, before, now, i), bound)
  {
    if i > 0 {
      TransitionsRise(sender, before, now, i - 1, now[i - 1].nonce);
      var earlier, p := TransitionsUpTo(sender, before, now, i - 1), now[i - 1];
      if p.hash in before && before[p.hash] == p.state {
        assert earlier + [] == earlier;
      }
    }
  }

  /** The transitions of an admission are reported by ascending nonce. */
  lemma TransitionsInNonceOrder(c: ValidCore, tx: Tx, cfg: Config, a: nat, b: nat)
    requires a < b < |AdmitOutcome(c, tx, cfg).transitions|
    ensures AdmitOutcome(c, tx, cfg).transitions[a].nonce < AdmitOutcome(c, tx, cfg).transitions[b].nonce
  {
    hide Decide, Admit, TransitionsUpTo, StatesByHash, PositionsUpTo, WellFormed;
    AdmitKeepsInvariants(c, tx, cfg);
    var before, q := Positions(QueueOf(c, tx.sender)), QueueOf(Admit(c, tx, cfg), tx.sender);
    PositionsRise(q);
    TransitionsRise(tx.sender, StatesByHash(before, |before|), Positions(q), |Positions(q)|, U64_MAX + 1);
    assert AdmitOutcome(c, tx, cfg).transitions == QueueTransitions(tx.sender, before, Positions(q));
  }

  lemma PositionsRise(q: Queue)
    ensures forall a, b :: 0 <= a < b < |Positions(q)| ==> Positions(q)[a].nonce < Positions(q)[b].nonce
  {
    hide PositionsUpTo;
    forall a, b | 0 <= a < b < |Positions(q)| ensures Positions(q)[a].nonce < Positions(q)[b].nonce {
      PositionAt(q, |q.Keys|, a);
      PositionAt(q, |q.Keys|, b);
    }
  }
}
