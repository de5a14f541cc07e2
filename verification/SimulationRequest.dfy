/** Requests for remote simulation: the members of an opportunity and everything below them in nonce order. */
module SimulationRequest {
  import opened Prelude
  import opened Ordered
  import opened Lists
  import opened NonceGap
  import opened SchedulerModel
  import opened Scheduler
  import opened Sanitize

  datatype Request = Request(txHash: TxHash, memberHashes: seq<TxHash>, txs: seq<Tx>)

  /** The first of the first `i` executable transactions with a hash. */
  function FindUpTo(executable: seq<Tx>, h: TxHash, i: nat): Option<Tx>
    requires i <= |executable|
  {
    if i == 0 then None
    else
      var earlier := FindUpTo(executable, h, i - 1);
      if earlier.Some? then earlier
      else if executable[i - 1].hash == h then Some(executable[i - 1])
      else None
  }

  predicate Below(tx: Tx, requested: Tx) {
    tx.sender == requested.sender && tx.nonce <= requested.nonce
  }

  function BelowUpTo(executable: seq<Tx>, requested: Tx, i: nat): set<TxHash>
    requires i <= |executable|
  {
    if i == 0 then {}
    else
      BelowUpTo(executable, requested, i - 1) +
      if Below(executable[i - 1], requested) then {executable[i - 1].hash} else {}
  }

  /** The selected hashes after the first `i` requested ones; nothing once one of them is not executable. */
  function SelectUpTo(requested: seq<TxHash>, executable: seq<Tx>, i: nat): Option<set<TxHash>>
    requires i <= |requested|
  {
    if i == 0 then Some(set h | h in requested)
    else
      var earlier, tx := SelectUpTo(requested, executable, i - 1), FindUpTo(executable, requested[i - 1], |executable|);
      if earlier.None? || tx.None? then None
      else Some(earlier.value + BelowUpTo(executable, tx.value, |executable|))
  }

  function Requested(txHash: TxHash, members: seq<TxHash>): seq<TxHash> {
    if members == [] then [txHash] else members
  }

  function Chosen(selected: set<TxHash>): Tx -> bool {
    (tx: Tx) => tx.hash in selected
  }

  function RequestFor(txHash: TxHash, members: seq<TxHash>, executable: seq<Tx>): Option<Request> {
    var requested := Requested(txHash, members);
    match SelectUpTo(requested, executable, |requested|)
    case None => None
    case Some(selected) =>
      var txs := Retain(executable, Chosen(selected));
      Some(Request(txHash, HashesOf(txs), txs))
  }

  method FindExecutable(executable: seq<Tx>, h: TxHash) returns (found: Option<Tx>)
    ensures found == FindUpTo(executable, h, |executable|)
  {
    found := None;
    for i := 0 to |executable|
      invariant found.None? && found == FindUpTo(executable, h, i)
    {
      if executable[i].hash == h {
        FoundStays(executable, h, i + 1, |executable|);
        return Some(executable[i]);
      }
    }
  }

  lemma {:induction false} FoundStays(executable: seq<Tx>, h: TxHash, i: nat, n: nat)
    requires i <= n <= |executable| && FindUpTo(executable, h, i).Some?
    ensures FindUpTo(executable, h, n) == FindUpTo(executable, h, i)
  {
    if i < n {
      FoundStays(executable, h, i, n - 1);
    }
  }

  /** Grows the selection member by member; gives up at the first member that is not executable. */
  method BuildRequest(txHash: TxHash, members: seq<TxHash>, executable: seq<Tx>) returns (request: Option<Request>)
    ensures request == RequestFor(txHash, members, executable)
  {
    var requested := if members == [] then [txHash] else members;
    var selected := set h | h in requested;
    for i := 0 to |requested|
      invariant SelectUpTo(requested, executable, i) == Some(selected)
    {
      var found := FindExecutable(executable, requested[i]);
      if found.None? {
        GivenUp(requested, executable, i + 1, |requested|);
        return None;
      }
      ghost var before := selected;
      for k := 0 to |executable|
        invariant selected == before + BelowUpTo(executable, found.value, k)
      {
        if executable[k].sender == found.value.sender && executable[k].nonce <= found.value.nonce {
          selected := selected + {executable[k].hash};
        }
      }
    }
    var txs := Retain(executable, Chosen(selected));
    request := Some(Request(txHash, HashesOf(txs), txs));
  }

  lemma {:induction false} GivenUp(requested: seq<TxHash>, executable: seq<Tx>, i: nat, n: nat)
    requires i <= n <= |requested| && SelectUpTo(requested, executable, i).None?
    ensures SelectUpTo(requested, executable, n).None?
  {
    if i < n {
      GivenUp(requested, executable, i, n - 1);
    }
  }

  // ---------------------------------------------------------------- what is selected

  lemma {:induction false} FindIff(executable: seq<Tx>, h: TxHash, i: nat)
    requires i <= |executable|
    ensures FindUpTo(executable, h, i).Some? <==> exists k :: 0 <= k < i && executable[k].hash == h
    ensures FindUpTo(executable, h, i).Some? ==>
      FindUpTo(executable, h, i).value in executable && FindUpTo(executable, h, i).value.hash == h
  {
    if i > 0 {
      FindIff(executable, h, i - 1);
    }
  }

  lemma {:induction false} BelowIff(executable: seq<Tx>, requested: Tx, i: nat, h: TxHash)
    requires i <= |executable|
    ensures h in BelowUpTo(executable, requested, i) <==>
      exists k :: 0 <= k < i && executable[k].hash == h && Below(executable[k], requested)
  {
    if i > 0 {
      BelowIff(executable, requested, i - 1, h);
    }
  }

  predicate Executable(executable: seq<Tx>, h: TxHash) {
    exists k :: 0 <= k < |executable| && executable[k].hash == h
  }

  /** Some requested transaction of the same sender has this nonce or a higher one. */
  ghost predicate BelowRequested(requested: seq<TxHash>, executable: seq<Tx>, i: nat, tx: Tx)
    requires i <= |requested|
  {
    exists a, r :: 0 <= a < i && r in executable && r.hash == requested[a]
      && tx.sender == r.sender && tx.nonce <= r.nonce
  }

  ghost predicate DistinctTxs(executable: seq<Tx>) {
    forall a, b :: 0 <= a < |executable| && 0 <= b < |executable| && executable[a].hash == executable[b].hash ==>
      executable[a] == executable[b]
  }

  lemma SameTx(executable: seq<Tx>, a: Tx, b: Tx)
    requires DistinctTxs(executable) && a in executable && b in executable && a.hash == b.hash
    ensures a == b
  {
  }

  lemma {:induction false} SelectIff(requested: seq<TxHash>, executable: seq<Tx>, i: nat, tx: Tx)
    requires i <= |requested| && DistinctTxs(executable) && tx in executable
    ensures SelectUpTo(requested, executable, i).Some? <==>
      forall a :: 0 <= a < i ==> Executable(executable, requested[a])
    ensures SelectUpTo(requested, executable, i).Some? ==>
      (tx.hash in SelectUpTo(requested, executable, i).value <==>
       tx.hash in requested || BelowRequested(requested, executable, i, tx))
  {
    hide DistinctTxs;
    if i > 0 {
      SelectIff(requested, executable, i - 1, tx);
      FindIff(executable, requested[i - 1], |executable|);
      assert Executable(executable, requested[i - 1]) <==> FindUpTo(executable, requested[i - 1], |executable|).Some?;
      if SelectUpTo(requested, executable, i).Some? {
        SelectStep(requested, executable, i, tx, FindUpTo(executable, requested[i - 1], |executable|).value);
      }
    }
  }

  lemma SelectStep(requested: seq<TxHash>, executable: seq<Tx>, i: nat, tx: Tx, r: Tx)
    requires 0 < i <= |requested| && DistinctTxs(executable) && tx in executable
    requires r in executable && r.hash == requested[i - 1]
    ensures BelowRequested(requested, executable, i, tx) <==>
      BelowRequested(requested, executable, i - 1, tx) || tx.hash in BelowUpTo(executable, r, |executable|)
  {
    BelowIff(executable, r, |executable|, tx.hash);
    if BelowRequested(requested, executable, i, tx) {
      var a, s :| 0 <= a < i && s in executable && s.hash == requested[a]
        && tx.sender == s.sender && tx.nonce <= s.nonce;
      if a == i - 1 {
        SameTx(executable, s, r);
        var k :| 0 <= k < |executable| && executable[k] == tx;
      }
    }
    if tx.hash in BelowUpTo(executable, r, |executable|) {
      var k :| 0 <= k < |executable| && executable[k].hash == tx.hash && Below(executable[k], r);
      SameTx(executable, executable[k], tx);
    }
  }

  /**
    Over any executable list without two transactions of one hash: a request exists exactly
    when every requested hash is executable, and then it holds exactly the transactions
    that a requested one of the same sender has to wait for, itself included.
   */
  lemma RequestIsClosure(txHash: TxHash, members: seq<TxHash>, executable: seq<Tx>, tx: Tx)
    requires DistinctTxs(executable) && tx in executable
    ensures var requested, request := Requested(txHash, members), RequestFor(txHash, members, executable);
      && (request.Some? <==> forall h :: h in requested ==> Executable(executable, h))
      && (request.Some? ==> (tx in request.value.txs <==> BelowRequested(requested, executable, |requested|, tx)))
  {
    hide DistinctTxs;
    var requested := Requested(txHash, members);
    SelectIff(requested, executable, |requested|, tx);
    assert (forall h :: h in requested ==> Executable(executable, h)) <==>
      forall a :: 0 <= a < |requested| ==> Executable(executable, requested[a]);
    var selection := SelectUpTo(requested, executable, |requested|);
    if selection.Some? {
      RetainMembers(executable, Chosen(selection.value), |executable|);
      assert Chosen(selection.value)(tx) <==> tx.hash in selection.value;
      if tx.hash in requested {
        var a :| 0 <= a < |requested| && requested[a] == tx.hash;
        assert BelowRequested(requested, executable, |requested|, tx);
      }
    }
  }

  // ---------------------------------------------------------------- over the scheduler's ready frontier

  lemma {:induction false} KindHolds(q: Queue, pending: map<TxHash, Tx>, ready: bool, i: nat)
    requires AllPending(q, pending) && i <= |q.Keys|
    ensures forall tx :: tx in TxsOfKind(q, pending, ready, i) <==>
      exists j :: 0 <= j < i && Nonces(q.Keys)[j] in q && pending[q[Nonces(q.Keys)[j]]] == tx
        && Label(q.Keys, Nonces(q.Keys)[j]).Ready? == ready
  {
    hide Label;
    if i > 0 {
      KindHolds(q, pending, ready, i - 1);
      assert Nonces(q.Keys)[i - 1] in q.Keys;
    }
  }

  lemma {:induction false} SendersHold(queues: map<Address, Queue>, pending: map<TxHash, Tx>, ready: bool, k: nat)
    requires AllQueuesPending(queues, pending) && k <= |queues.Keys|
    ensures forall tx :: tx in TxsOfSenders(queues, pending, ready, k) <==>
      exists j :: 0 <= j < k && Ascending(queues.Keys)[j] in queues
        && tx in TxsOfKind(queues[Ascending(queues.Keys)[j]], pending, ready, |queues[Ascending(queues.Keys)[j]].Keys|)
  {
    hide TxsOfKind;
    if k > 0 {
      SendersHold(queues, pending, ready, k - 1);
      assert Ascending(queues.Keys)[k - 1] in queues.Keys;
    }
  }

  /** A pending transaction that is queued and ready. */
  ghost predicate ReadyIn(c: Core, tx: Tx) {
    && tx.hash in c.pending && c.pending[tx.hash] == tx && Queued(c, tx)
    && Label(c.queues[tx.sender].Keys, tx.nonce).Ready?
  }

  lemma QueueHolds(c: Core, s: Address, tx: Tx)
    requires WellFormed(c) && s in c.queues
    ensures tx in TxsOfKind(c.queues[s], c.pending, true, |c.queues[s].Keys|) <==> tx.sender == s && ReadyIn(c, tx)
  {
    hide Label;
    var q := c.queues[s];
    QueuesArePending(c, s);
    KindHolds(q, c.pending, true, |q.Keys|);
    if tx in TxsOfKind(q, c.pending, true, |q.Keys|) {
      var j :| 0 <= j < |q.Keys| && Nonces(q.Keys)[j] in q && c.pending[q[Nonces(q.Keys)[j]]] == tx
        && Label(q.Keys, Nonces(q.Keys)[j]).Ready?;
      assert FillsSlot(c, q[Nonces(q.Keys)[j]], s, Nonces(q.Keys)[j]);
    }
    if tx.sender == s && ReadyIn(c, tx) {
      assert tx.nonce in Nonces(q.Keys);
    }
  }

  lemma FrontierHolds(c: Core, tx: Tx)
    requires WellFormed(c)
    ensures tx in OfKind(c, true) <==> ReadyIn(c, tx)
  {
    hide Label, TxsOfKind, TxsOfSenders;
    AllSendersPending(c);
    SendersHold(c.queues, c.pending, true, |c.queues.Keys|);
    var senders := Ascending(c.queues.Keys);
    forall j | 0 <= j < |senders|
      ensures senders[j] in c.queues
      ensures tx in TxsOfKind(c.queues[senders[j]], c.pending, true, |c.queues[senders[j]].Keys|) <==>
        tx.sender == senders[j] && ReadyIn(c, tx)
    {
      assert senders[j] in c.queues.Keys;
      QueueHolds(c, senders[j], tx);
    }
    if ReadyIn(c, tx) {
      assert tx.sender in senders;
    }
  }

  lemma FrontierIsDistinct(c: Core)
    requires WellFormed(c)
    ensures DistinctTxs(OfKind(c, true))
  {
    hide TxsOfSenders;
    var ready := OfKind(c, true);
    forall a, b | 0 <= a < |ready| && 0 <= b < |ready| && ready[a].hash == ready[b].hash ensures ready[a] == ready[b] {
      assert ready[a] in ready && ready[b] in ready;
      FrontierHolds(c, ready[a]);
      FrontierHolds(c, ready[b]);
    }
  }

  /** The ready transaction one queue holds at a nonce of its ready run. */
  lemma ReadyRunHolds(c: Core, tx: Tx, k: U64) returns (u: Tx)
    requires WellFormed(c) && ReadyIn(c, tx) && Least(c.queues[tx.sender].Keys) <= k <= tx.nonce
    ensures ReadyIn(c, u) && u.sender == tx.sender && u.nonce == k
  {
    var q := c.queues[tx.sender];
    LabelRule(q.Keys, tx.nonce);
    assert k in q;
    assert FillsSlot(c, q[k], tx.sender, k);
    u := c.pending[q[k]];
  }

  lemma ReadyHasQueue(c: Core, tx: Tx)
    requires ReadyIn(c, tx)
    ensures tx.sender in c.queues && c.queues[tx.sender].Keys != {}
  {
    assert tx.nonce in c.queues[tx.sender];
  }

  lemma BelowIsTransitive(requested: seq<TxHash>, executable: seq<Tx>, u: Tx, tx: Tx)
    requires BelowRequested(requested, executable, |requested|, tx) && u.sender == tx.sender && u.nonce <= tx.nonce
    ensures BelowRequested(requested, executable, |requested|, u)
  {
    var a, r :| 0 <= a < |requested| && r in executable && r.hash == requested[a]
      && tx.sender == r.sender && tx.nonce <= r.nonce;
  }

  /**
    Built over the scheduler's ready frontier, a request holds every requested
    transaction and, with each transaction it holds, the transaction at every lower nonce
    of its sender down to the lowest queued one.
   */
  lemma RequestIsNonceClosed(c: Core, txHash: TxHash, members: seq<TxHash>, tx: Tx, k: U64)
    requires WellFormed(c)
    requires RequestFor(txHash, members, OfKind(c, true)).Some?
    requires tx in RequestFor(txHash, members, OfKind(c, true)).value.txs
    ensures ReadyIn(c, tx)
    ensures Least(c.queues[tx.sender].Keys) <= k <= tx.nonce ==>
      exists u :: u in RequestFor(txHash, members, OfKind(c, true)).value.txs && u.sender == tx.sender && u.nonce == k
    ensures forall h :: h in Requested(txHash, members) ==>
      h in RequestFor(txHash, members, OfKind(c, true)).value.memberHashes
  {
    hide OfKind, RequestFor, DistinctTxs, ReadyIn;
    var ready, requested := OfKind(c, true), Requested(txHash, members);
    FrontierIsDistinct(c);
    TxsAreExecutable(txHash, members, ready, tx);
    FrontierHolds(c, tx);
    RequestIsClosure(txHash, members, ready, tx);
    ReadyHasQueue(c, tx);
    if Least(c.queues[tx.sender].Keys) <= k <= tx.nonce {
      var u := ReadyRunHolds(c, tx, k);
      FrontierHolds(c, u);
      RequestIsClosure(txHash, members, ready, u);
      BelowIsTransitive(requested, ready, u, tx);
    }
    forall h | h in requested ensures h in RequestFor(txHash, members, ready).value.memberHashes {
      MemberIsHeld(txHash, members, ready, h);
    }
  }

  lemma TxsAreExecutable(txHash: TxHash, members: seq<TxHash>, executable: seq<Tx>, tx: Tx)
    requires RequestFor(txHash, members, executable).Some? && tx in RequestFor(txHash, members, executable).value.txs
    ensures tx in executable
  {
    var requested := Requested(txHash, members);
    var selected := SelectUpTo(requested, executable, |requested|).value;
    RetainMembers(executable, Chosen(selected), |executable|);
  }

  lemma MemberIsHeld(txHash: TxHash, members: seq<TxHash>, executable: seq<Tx>, h: TxHash)
    requires DistinctTxs(executable) && RequestFor(txHash, members, executable).Some? && h in Requested(txHash, members)
    ensures h in RequestFor(txHash, members, executable).value.memberHashes
  {
    hide DistinctTxs, RequestFor;
    var requested := Requested(txHash, members);
    RequestHasMembers(txHash, members, executable);
    assert Executable(executable, h);
    var k :| 0 <= k < |executable| && executable[k].hash == h;
    RequestIsClosure(txHash, members, executable, executable[k]);
    var a :| 0 <= a < |requested| && requested[a] == h;
    assert BelowRequested(requested, executable, |requested|, executable[k]);
    HashesHold(RequestFor(txHash, members, executable).value.txs, executable[k]);
  }

  lemma RequestHasMembers(txHash: TxHash, members: seq<TxHash>, executable: seq<Tx>)
    requires DistinctTxs(executable) && RequestFor(txHash, members, executable).Some?
    ensures forall h :: h in Requested(txHash, members) ==> Executable(executable, h)
    ensures RequestFor(txHash, members, executable).value.memberHashes ==
      HashesOf(RequestFor(txHash, members, executable).value.txs)
  {
    RequestExistsIff(txHash, members, executable);
  }

  lemma HashesHold(txs: seq<Tx>, tx: Tx)
    requires tx in txs
    ensures tx.hash in HashesOf(txs)
  {
    var k :| 0 <= k < |txs| && txs[k] == tx;
    assert HashesOf(txs)[k] == tx.hash;
  }

  function TxSlot(): Tx -> nat {
    (tx: Tx) => tx.sender * WIDTH + tx.nonce
  }

  /** The transactions of a request stand by sender and, within a sender, by ascending nonce. */
  lemma RequestIsOrdered(c: Core, txHash: TxHash, members: seq<TxHash>)
    requires WellFormed(c) && RequestFor(txHash, members, OfKind(c, true)).Some?
    ensures Rising(RequestFor(txHash, members, OfKind(c, true)).value.txs, TxSlot())
  {
    hide TxsOfSenders;
    var ready, requested := OfKind(c, true), Requested(txHash, members);
    var selected := SelectUpTo(requested, ready, |requested|).value;
    FrontierOfKind(c);
    ListingIsClassified(c, true);
    var hashes := HashesOf(ready);
    forall a, b | 0 <= a < b < |ready| ensures TxSlot()(ready[a]) < TxSlot()(ready[b]) {
      assert ready[a] in ready && ready[b] in ready;
      FrontierHolds(c, ready[a]);
      FrontierHolds(c, ready[b]);
      assert hashes[a] == ready[a].hash && hashes[b] == ready[b].hash;
      assert BySlot(c.pending)(hashes[a]) < BySlot(c.pending)(hashes[b]);
    }
    RetainRises(ready, Chosen(selected), TxSlot(), |ready|);
  }

  // ---------------------------------------------------------------- requests over the frontier, in fields

  /** A pending hash that is queued and ready. */
  ghost predicate ReadyHash(c: Core, h: TxHash) {
    h in c.pending && ReadyIn(c, c.pending[h])
  }

  lemma ExecutableIsReady(c: Core, h: TxHash)
    requires WellFormed(c)
    ensures Executable(OfKind(c, true), h) <==> ReadyHash(c, h)
  {
    hide OfKind;
    var ready := OfKind(c, true);
    if Executable(ready, h) {
      var k :| 0 <= k < |ready| && ready[k].hash == h;
      assert ready[k] in ready;
      FrontierHolds(c, ready[k]);
    }
    if ReadyHash(c, h) {
      FrontierHolds(c, c.pending[h]);
      var k :| 0 <= k < |ready| && ready[k] == c.pending[h];
      assert ready[k].hash == h;
    }
  }

  /** A requested transaction of the same sender, at the nonce or a higher one. */
  ghost predicate Needs(c: Core, requested: seq<TxHash>, s: Address, n: U64) {
    exists h :: h in requested && h in c.pending && c.pending[h].sender == s && n <= c.pending[h].nonce
  }

  lemma NeedsIsBelow(c: Core, requested: seq<TxHash>, tx: Tx)
    requires WellFormed(c) && forall h :: h in requested ==> ReadyHash(c, h)
    ensures BelowRequested(requested, OfKind(c, true), |requested|, tx) <==> Needs(c, requested, tx.sender, tx.nonce)
  {
    hide OfKind, ReadyIn;
    var ready := OfKind(c, true);
    if BelowRequested(requested, ready, |requested|, tx) {
      var a, r :| 0 <= a < |requested| && r in ready && r.hash == requested[a]
        && tx.sender == r.sender && tx.nonce <= r.nonce;
      FrontierHolds(c, r);
      ReadyIsPending(c, r);
      assert requested[a] in requested;
    }
    if Needs(c, requested, tx.sender, tx.nonce) {
      var h :| h in requested && h in c.pending && c.pending[h].sender == tx.sender && tx.nonce <= c.pending[h].nonce;
      FrontierHolds(c, c.pending[h]);
      var a :| 0 <= a < |requested| && requested[a] == h;
      assert c.pending[h] in ready && c.pending[h].hash == requested[a];
    }
  }

  lemma ReadyIsPending(c: Core, tx: Tx)
    requires ReadyIn(c, tx)
    ensures tx.hash in c.pending && c.pending[tx.hash] == tx
  {
  }

  /**
    Over the ready frontier: a request exists exactly when every requested hash is ready,
    an absent member list standing for the hash alone. It then carries the hash, and exactly
    the ready transactions that some requested one of their sender has at its nonce or above.
   */
  lemma RequestIs(c: Core, txHash: TxHash, members: seq<TxHash>, tx: Tx)
    requires WellFormed(c)
    ensures var requested := if members == [] then [txHash] else members;
      var request := RequestFor(txHash, members, OfKind(c, true));
      && (request.Some? <==> forall h :: h in requested ==> ReadyHash(c, h))
      && (request.Some? ==>
            && request.value.txHash == txHash && |request.value.memberHashes| == |request.value.txs|
            && (forall k :: 0 <= k < |request.value.txs| ==>
                  request.value.memberHashes[k] == request.value.txs[k].hash)
            && (tx in request.value.txs <==> ReadyIn(c, tx) && Needs(c, requested, tx.sender, tx.nonce)))
  {
    hide OfKind, DistinctTxs, ReadyIn, SelectUpTo, BelowRequested, Needs;
    var ready, requested := OfKind(c, true), Requested(txHash, members);
    var request := RequestFor(txHash, members, ready);
    FrontierIsDistinct(c);
    forall h ensures Executable(ready, h) <==> ReadyHash(c, h) {
      ExecutableIsReady(c, h);
    }
    RequestExistsIff(txHash, members, ready);
    if request.Some? {
      NeedsIsBelow(c, requested, tx);
      FrontierHolds(c, tx);
      if tx in ready {
        RequestIsClosure(txHash, members, ready, tx);
      } else if tx in request.value.txs {
        TxsAreExecutable(txHash, members, ready, tx);
      }
    }
  }

  lemma RequestExistsIff(txHash: TxHash, members: seq<TxHash>, executable: seq<Tx>)
    ensures RequestFor(txHash, members, executable).Some? <==>
      forall h :: h in Requested(txHash, members) ==> Executable(executable, h)
  {
    var requested := Requested(txHash, members);
    SelectExistsIff(requested, executable, |requested|);
    assert (forall h :: h in requested ==> Executable(executable, h)) <==>
      forall a :: 0 <= a < |requested| ==> Executable(executable, requested[a]);
  }

  lemma {:induction false} SelectExistsIff(requested: seq<TxHash>, executable: seq<Tx>, i: nat)
    requires i <= |requested|
    ensures SelectUpTo(requested, executable, i).Some? <==>
      forall a :: 0 <= a < i ==> Executable(executable, requested[a])
  {
    if i > 0 {
      SelectExistsIff(requested, executable, i - 1);
      FindIff(executable, requested[i - 1], |executable|);
    }
  }

  /**
    Each sender's part of a request is exactly its ready run from the lowest queued nonce up
    to the highest requested one.
   */
  lemma SenderPartIs(c: Core, txHash: TxHash, members: seq<TxHash>, s: Address, n: U64)
    requires WellFormed(c) && RequestFor(txHash, members, OfKind(c, true)).Some?
    ensures var requested := if members == [] then [txHash] else members;
      var txs := RequestFor(txHash, members, OfKind(c, true)).value.txs;
      (exists tx :: tx in txs && tx.sender == s && tx.nonce == n) <==>
      s in c.queues && c.queues[s].Keys != {} && Least(c.queues[s].Keys) <= n && Needs(c, requested, s, n)
  {
    hide OfKind, RequestFor, ReadyIn, Needs, ReadyHash;
    var requested := if members == [] then [txHash] else members;
    var txs := RequestFor(txHash, members, OfKind(c, true)).value.txs;
    if tx :| tx in txs && tx.sender == s && tx.nonce == n {
      RequestIs(c, txHash, members, tx);
      ReadyHasQueue(c, tx);
      ReadyAboveLeast(c, tx);
    }
    if s in c.queues && c.queues[s].Keys != {} && Least(c.queues[s].Keys) <= n && Needs(c, requested, s, n) {
      var r := NeededBy(c, requested, s, n);
      RequestIs(c, txHash, members, r);
      ReadyHashIs(c, r.hash);
      var u := ReadyRunHolds(c, r, n);
      RequestIs(c, txHash, members, u);
    }
  }

  lemma ReadyAboveLeast(c: Core, tx: Tx)
    requires ReadyIn(c, tx) && tx.sender in c.queues && c.queues[tx.sender].Keys != {}
    ensures Least(c.queues[tx.sender].Keys) <= tx.nonce
  {
    LabelRule(c.queues[tx.sender].Keys, tx.nonce);
  }

  lemma NeededBy(c: Core, requested: seq<TxHash>, s: Address, n: U64) returns (r: Tx)
    requires WellFormed(c) && Needs(c, requested, s, n)
    ensures r.hash in requested && r.hash in c.pending && c.pending[r.hash] == r && r.sender == s && n <= r.nonce
  {
    var h :| h in requested && h in c.pending && c.pending[h].sender == s && n <= c.pending[h].nonce;
    r := c.pending[h];
  }

  lemma ReadyHashIs(c: Core, h: TxHash)
    requires ReadyHash(c, h)
    ensures h in c.pending && ReadyIn(c, c.pending[h])
  {
  }
}
