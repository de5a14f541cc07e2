/** Sizes of the from-scratch classification, split by sender. */
module Counting {
  import opened Prelude
  import opened Ordered
  import opened NonceGap
  import opened SchedulerModel

  /** The queued pending hashes whose Ready/Blocked kind is `ready`. */
  ghost function Classified(c: Core, ready: bool): set<TxHash> {
    set h | h in c.pending && Queued(c, c.pending[h])
      && Label(c.queues[c.pending[h].sender].Keys, c.pending[h].nonce).Ready? == ready
  }

  ghost function OfSender(c: Core, ready: bool, sender: Address): set<TxHash> {
    set h | h in Classified(c, ready) && c.pending[h].sender == sender
  }

  ghost function NotOfSender(c: Core, ready: bool, sender: Address): set<TxHash> {
    set h | h in Classified(c, ready) && c.pending[h].sender != sender
  }

  lemma SplitBySender(c: Core, ready: bool, sender: Address)
    ensures |Classified(c, ready)| == |OfSender(c, ready, sender)| + |NotOfSender(c, ready, sender)|
  {
    assert Classified(c, ready) == OfSender(c, ready, sender) + NotOfSender(c, ready, sender);
  }

  lemma SubsetSize<T>(a: set<T>, b: set<T>)
    requires a <= b
    ensures |a| <= |b|
  {
    assert b == a + (b - a);
  }

  lemma ClassifiedWithinPending(c: Core, ready: bool)
    ensures |Classified(c, ready)| <= |c.pending|
  {
    SubsetSize(Classified(c, ready), c.pending.Keys);
  }

  /** The two states agree on everything that does not belong to `sender`. */
  ghost predicate SameElsewhere(c: Core, c': Core, sender: Address) {
    && (forall h :: h in c.pending && c.pending[h].sender != sender ==>
          h in c'.pending && c'.pending[h] == c.pending[h])
    && (forall h :: h in c'.pending && c'.pending[h].sender != sender ==>
          h in c.pending && c.pending[h] == c'.pending[h])
    && (forall s :: s != sender ==> QueueOf(c, s) == QueueOf(c', s) && (s in c.queues <==> s in c'.queues))
  }

  lemma AdmitSameElsewhere(c: Core, tx: Tx, cfg: Config)
    requires WellFormed(c)
    ensures SameElsewhere(c, Admit(c, tx, cfg), tx.sender)
  {
    if Decide(c, tx, cfg).IsAdmitted() {
      var removed := AdmitIsPut(c, tx, cfg);
      PutSameElsewhere(c, removed, tx);
    }
  }

  lemma PutSameElsewhere(c: Core, removed: set<TxHash>, tx: Tx)
    requires WellFormed(c) && tx.hash !in c.pending
    requires Occupied(c, tx.sender, tx.nonce) ==> removed == {c.queues[tx.sender][tx.nonce]}
    requires !Occupied(c, tx.sender, tx.nonce) ==> removed == {}
    ensures SameElsewhere(c, Put(c.(pending := c.pending - removed), tx), tx.sender)
  {
    if Occupied(c, tx.sender, tx.nonce) {
      assert FillsSlot(c, c.queues[tx.sender][tx.nonce], tx.sender, tx.nonce);
    }
  }

  lemma ElsewhereUnchanged(c: Core, c': Core, ready: bool, sender: Address, other: Address)
    requires SameElsewhere(c, c', sender)
    ensures NotOfSender(c, ready, sender) == NotOfSender(c', ready, sender)
    ensures other != sender ==> OfSender(c, ready, other) == OfSender(c', ready, other)
  {
    forall h
      ensures h in NotOfSender(c, ready, sender) <==> h in NotOfSender(c', ready, sender)
    {
      if h in NotOfSender(c, ready, sender) {
        assert QueueOf(c, c.pending[h].sender) == QueueOf(c', c.pending[h].sender);
      }
      if h in NotOfSender(c', ready, sender) {
        assert QueueOf(c, c'.pending[h].sender) == QueueOf(c', c'.pending[h].sender);
      }
    }
    if other != sender {
      assert forall h ::
        h in OfSender(c, ready, other) <==> h in NotOfSender(c, ready, sender) && c.pending[h].sender == other;
      assert forall h ::
        h in OfSender(c', ready, other) <==> h in NotOfSender(c', ready, sender) && c'.pending[h].sender == other;
    }
  }

  /** The hashes of the first `i` positions of a queue with the given kind. */
  ghost function Prefix(ps: seq<Position>, ready: bool, i: nat): set<TxHash>
    requires i <= |ps|
  {
    set j | 0 <= j < i && ps[j].state.Ready? == ready :: ps[j].hash
  }

  ghost predicate DistinctPositions(ps: seq<Position>) {
    forall i, j :: 0 <= i < j < |ps| ==> ps[i].hash != ps[j].hash
  }

  lemma PrefixStep(ps: seq<Position>, ready: bool, i: nat)
    requires i < |ps| && DistinctPositions(ps)
    ensures |Prefix(ps, ready, i + 1)| == |Prefix(ps, ready, i)| + (if ps[i].state.Ready? == ready then 1 else 0)
  {
    if ps[i].state.Ready? == ready {
      assert Prefix(ps, ready, i + 1) == Prefix(ps, ready, i) + {ps[i].hash};
    } else {
      assert Prefix(ps, ready, i + 1) == Prefix(ps, ready, i);
    }
  }

  /** In a queue of a well-formed state no hash appears twice. */
  lemma DistinctHashes(c: Core, sender: Address)
    requires WellFormed(c) && sender in c.queues
    ensures var ps := Positions(c.queues[sender]);
      && (forall i :: 0 <= i < |ps| ==> FillsSlot(c, ps[i].hash, sender, ps[i].nonce))
      && DistinctPositions(ps)
  {
    var q := c.queues[sender];
    var ps := Positions(q);
    forall i | 0 <= i < |ps|
      ensures FillsSlot(c, ps[i].hash, sender, ps[i].nonce) && ps[i].nonce == Nonces(q.Keys)[i]
    {
      PositionAt(q, |ps|, i);
      assert FillsSlot(c, q[Nonces(q.Keys)[i]], sender, Nonces(q.Keys)[i]);
    }
  }

  lemma PositionOf(c: Core, hash: TxHash) returns (i: nat)
    requires WellFormed(c) && hash in c.pending && Queued(c, c.pending[hash])
    ensures var q := c.queues[c.pending[hash].sender];
      && i < |Positions(q)|
      && Positions(q)[i] == Position(hash, c.pending[hash].nonce, Label(q.Keys, c.pending[hash].nonce))
  {
    var q := c.queues[c.pending[hash].sender];
    assert c.pending[hash].nonce in Nonces(q.Keys);
    i :| 0 <= i < |q.Keys| && Nonces(q.Keys)[i] == c.pending[hash].nonce;
    PositionAt(q, |q.Keys|, i);
  }

  lemma PositionIsClassified(c: Core, sender: Address, i: nat)
    requires WellFormed(c) && sender in c.queues && i < |Positions(c.queues[sender])|
    ensures var p := Positions(c.queues[sender])[i];
      && FillsSlot(c, p.hash, sender, p.nonce) && Queued(c, c.pending[p.hash])
      && p.state == Label(c.queues[sender].Keys, p.nonce)
  {
    var q := c.queues[sender];
    PositionAt(q, |q.Keys|, i);
    assert FillsSlot(c, q[Nonces(q.Keys)[i]], sender, Nonces(q.Keys)[i]);
  }

  lemma PrefixComplete(c: Core, sender: Address, ready: bool)
    requires WellFormed(c) && sender in c.queues
    ensures var ps := Positions(c.queues[sender]);
      Prefix(ps, ready, |ps|) == OfSender(c, ready, sender)
  {
    var ps := Positions(c.queues[sender]);
    forall h | h in OfSender(c, ready, sender) ensures h in Prefix(ps, ready, |ps|) {
      var i := PositionOf(c, h);
    }
    forall h | h in Prefix(ps, ready, |ps|) ensures h in OfSender(c, ready, sender) {
      var i :| 0 <= i < |ps| && ps[i].state.Ready? == ready && ps[i].hash == h;
      PositionIsClassified(c, sender, i);
    }
  }

  // ---------------------------------------------------------------- cached counts

  datatype Counts = Counts(ready: Usize, blocked: Usize)

  function CountsFor(counts: map<Address, Counts>, sender: Address): Counts {
    if sender in counts then counts[sender] else Counts(0, 0)
  }

  lemma OfSenderWithinPending(c: Core, ready: bool, sender: Address)
    ensures |OfSender(c, ready, sender)| <= |c.pending|
  {
    SubsetSize(OfSender(c, ready, sender), c.pending.Keys);
  }

  /** A from-scratch count of one sender's queue. */
  ghost function ExactCounts(c: Core, sender: Address): Counts
    requires |c.pending| <= U64_MAX
  {
    OfSenderWithinPending(c, true, sender);
    OfSenderWithinPending(c, false, sender);
    Counts(|OfSender(c, true, sender)|, |OfSender(c, false, sender)|)
  }

  /** Recording the counts of a sender; all-zero counts are not stored. */
  function SetCounts(counts: map<Address, Counts>, sender: Address, next: Counts): map<Address, Counts> {
    if next != Counts(0, 0) then (counts - {sender})[sender := next] else counts - {sender}
  }

  /** The cached counts of every sender are those of a from-scratch classification. */
  ghost predicate CountsExact(counts: map<Address, Counts>, c: Core) {
    && |c.pending| <= U64_MAX
    && (forall s :: CountsFor(counts, s) == ExactCounts(c, s))
    && (forall s :: s in counts ==> counts[s] != Counts(0, 0))
  }

  /** The classified hashes of a set of senders. */
  ghost function OfSenders(c: Core, ready: bool, senders: set<Address>): set<TxHash> {
    set h | h in Classified(c, ready) && c.pending[h].sender in senders
  }

  lemma OfNoSenders(c: Core)
    ensures OfSenders(c, true, {}) == {} && OfSenders(c, false, {}) == {}
  {
  }

  lemma OneMoreSender(c: Core, ready: bool, senders: set<Address>, sender: Address)
    requires sender !in senders
    ensures |OfSenders(c, ready, senders + {sender})| == |OfSenders(c, ready, senders)| + |OfSender(c, ready, sender)|
    ensures |OfSenders(c, ready, senders + {sender})| <= |c.pending|
  {
    assert OfSenders(c, ready, senders + {sender}) == OfSenders(c, ready, senders) + OfSender(c, ready, sender);
    SubsetSize(OfSenders(c, ready, senders + {sender}), c.pending.Keys);
  }

  /** Replacing one sender's share of the totals gives the totals of the new state, without clamping. */
  lemma TotalsAfterAdmit(c: Core, tx: Tx, cfg: Config, ready: bool)
    requires WellFormed(c)
    ensures var c' := Admit(c, tx, cfg);
      && |OfSender(c, ready, tx.sender)| <= |Classified(c, ready)|
      && |Classified(c', ready)| ==
         |Classified(c, ready)| - |OfSender(c, ready, tx.sender)| + |OfSender(c', ready, tx.sender)|
      && |Classified(c', ready)| <= |c'.pending|
  {
    var c' := Admit(c, tx, cfg);
    AdmitSameElsewhere(c, tx, cfg);
    SplitBySender(c, ready, tx.sender);
    SplitBySender(c', ready, tx.sender);
    ElsewhereUnchanged(c, c', ready, tx.sender, tx.sender);
    ClassifiedWithinPending(c', ready);
  }

  lemma ExactElsewhere(c: Core, c': Core, sender: Address, other: Address)
    requires SameElsewhere(c, c', sender) && other != sender
    requires |c.pending| <= U64_MAX && |c'.pending| <= U64_MAX
    ensures ExactCounts(c', other) == ExactCounts(c, other)
  {
    hide OfSender;
    ElsewhereUnchanged(c, c', true, sender, other);
    ElsewhereUnchanged(c, c', false, sender, other);
  }

  lemma CountsStayExact(counts: map<Address, Counts>, c: Core, tx: Tx, cfg: Config)
    requires WellFormed(c) && CountsExact(counts, c)
    requires |Admit(c, tx, cfg).pending| <= U64_MAX
    ensures var c' := Admit(c, tx, cfg);
      CountsExact(SetCounts(counts, tx.sender, ExactCounts(c', tx.sender)), c')
  {
    hide ExactCounts, Admit, SameElsewhere, WellFormed;
    var c' := Admit(c, tx, cfg);
    var counts' := SetCounts(counts, tx.sender, ExactCounts(c', tx.sender));
    AdmitSameElsewhere(c, tx, cfg);
    forall s ensures CountsFor(counts', s) == ExactCounts(c', s) {
      if s != tx.sender {
        assert CountsFor(counts, s) == ExactCounts(c, s);
        ExactElsewhere(c, c', tx.sender, s);
      }
    }
  }

  // ---------------------------------------------------------------- recounting every sender

  /** The counts recorded after recounting the first `i` senders. */
  ghost function RecountUpTo(c: Core, senders: seq<Address>, i: nat): map<Address, Counts>
    requires i <= |senders| && |c.pending| <= U64_MAX
  {
    if i == 0 then map[]
    else SetCounts(RecountUpTo(c, senders, i - 1), senders[i - 1], ExactCounts(c, senders[i - 1]))
  }

  ghost function FirstOf(senders: seq<Address>, i: nat): set<Address>
    requires i <= |senders|
  {
    if i == 0 then {} else FirstOf(senders, i - 1) + {senders[i - 1]}
  }

  lemma {:induction false} FirstOfMembers(senders: seq<Address>, i: nat)
    requires i <= |senders|
    ensures forall s :: s in FirstOf(senders, i) <==> exists j :: 0 <= j < i && senders[j] == s
  {
    if i > 0 {
      FirstOfMembers(senders, i - 1);
    }
  }

  lemma SetCountsAt(counts: map<Address, Counts>, sender: Address, next: Counts, s: Address)
    requires s in counts ==> counts[s] != Counts(0, 0)
    ensures CountsFor(SetCounts(counts, sender, next), s) == if s == sender then next else CountsFor(counts, s)
    ensures s in SetCounts(counts, sender, next) ==> SetCounts(counts, sender, next)[s] != Counts(0, 0)
  {
  }

  lemma {:induction false} RecountedSoFar(c: Core, senders: seq<Address>, i: nat, s: Address)
    requires i <= |senders| && |c.pending| <= U64_MAX
    ensures CountsFor(RecountUpTo(c, senders, i), s) ==
      if s in FirstOf(senders, i) then ExactCounts(c, s) else Counts(0, 0)
    ensures s in RecountUpTo(c, senders, i) ==> RecountUpTo(c, senders, i)[s] != Counts(0, 0)
  {
    hide ExactCounts, SetCounts;
    if i > 0 {
      RecountedSoFar(c, senders, i - 1, s);
      SetCountsAt(RecountUpTo(c, senders, i - 1), senders[i - 1], ExactCounts(c, senders[i - 1]), s);
    }
  }

  /** The running totals of the recount never clamp, and the next sender was not counted before. */
  lemma NextRecount(c: Core, senders: seq<Address>, i: nat)
    requires i < |senders| && StrictlyAscending(senders) && |c.pending| <= U64_MAX
    ensures CountsFor(RecountUpTo(c, senders, i), senders[i]) == Counts(0, 0)
    ensures |OfSenders(c, true, FirstOf(senders, i + 1))| ==
      |OfSenders(c, true, FirstOf(senders, i))| + ExactCounts(c, senders[i]).ready <= U64_MAX
    ensures |OfSenders(c, false, FirstOf(senders, i + 1))| ==
      |OfSenders(c, false, FirstOf(senders, i))| + ExactCounts(c, senders[i]).blocked <= U64_MAX
  {
    FirstOfMembers(senders, i);
    RecountedSoFar(c, senders, i, senders[i]);
    OneMoreSender(c, true, FirstOf(senders, i), senders[i]);
    OneMoreSender(c, false, FirstOf(senders, i), senders[i]);
  }

  lemma RecountComplete(c: Core)
    requires |c.pending| <= U64_MAX
    ensures var senders := Ascending(c.queues.Keys);
      && CountsExact(RecountUpTo(c, senders, |senders|), c)
      && OfSenders(c, true, FirstOf(senders, |senders|)) == Classified(c, true)
      && OfSenders(c, false, FirstOf(senders, |senders|)) == Classified(c, false)
  {
    hide ExactCounts, RecountUpTo;
    var senders := Ascending(c.queues.Keys);
    FirstOfMembers(senders, |senders|);
    forall s
      ensures CountsFor(RecountUpTo(c, senders, |senders|), s) ==
        if s in FirstOf(senders, |senders|) then ExactCounts(c, s) else Counts(0, 0)
      ensures s in RecountUpTo(c, senders, |senders|) ==> RecountUpTo(c, senders, |senders|)[s] != Counts(0, 0)
    {
      RecountedSoFar(c, senders, |senders|, s);
    }
    forall s | s in c.queues ensures s in FirstOf(senders, |senders|) {
      assert s in senders;
    }
    forall s | s !in c.queues ensures ExactCounts(c, s) == Counts(0, 0) {
      NoQueueNoCounts(c, s);
    }
  }

  lemma NoQueueNoCounts(c: Core, s: Address)
    requires s !in c.queues && |c.pending| <= U64_MAX
    ensures ExactCounts(c, s) == Counts(0, 0)
  {
    assert OfSender(c, true, s) == {} && OfSender(c, false, s) == {};
  }
}
