/**
  The nonce-gap rule. A sender's queue is Ready up to its first missing nonce and
  Blocked after it. The code computes this with a two-variable cursor that it
  advances over the queue in ascending nonce order; six traversals share that cursor.
 */
module NonceGap {
  import opened Prelude
  import opened Ordered

  datatype QueueState = Ready | Blocked(expectedNonce: U64)

  ghost function AtLeast(keys: set<nat>, from: nat): set<nat> {
    set k | k in keys && from <= k
  }

  /** The first nonce at or above `from` that is not in `keys`. */
  ghost function FirstGapFrom(keys: set<nat>, from: nat): (g: nat)
    ensures from <= g
    ensures g !in keys
    ensures forall k :: from <= k < g ==> k in keys
    decreases AtLeast(keys, from)
  {
    if from !in keys then from
    else
      assert from in AtLeast(keys, from) && from !in AtLeast(keys, from + 1);
      FirstGapFrom(keys, from + 1)
  }

  /** The first nonce missing from a non-empty queue, counting from its lowest nonce. */
  ghost function FirstGap(keys: set<nat>): nat
    requires keys != {}
  {
    FirstGapFrom(keys, Least(keys))
  }

  lemma FirstGapIsUnique(keys: set<nat>, g: nat)
    requires keys != {}
    requires Least(keys) <= g && g !in keys
    requires forall k :: Least(keys) <= k < g ==> k in keys
    ensures FirstGap(keys) == g
  {
    var h := FirstGap(keys);
    assert !(h < g) && !(g < h);
  }

  /**
    The declarative rule: an entry is Ready exactly when every nonce from the lowest
    one of the queue up to it is present; every other entry is Blocked on the same
    nonce, the first one missing.
   */
  ghost function Label(keys: set<U64>, nonce: U64): QueueState
    requires nonce in keys
  {
    if nonce < FirstGap(keys) then Ready else Blocked(FirstGap(keys))
  }

  lemma LabelRule(keys: set<U64>, nonce: U64)
    requires nonce in keys
    ensures Label(keys, nonce).Ready? <==> forall k :: Least(keys) <= k <= nonce ==> k in keys
    ensures Label(keys, nonce).Blocked? ==> Label(keys, nonce) == Blocked(FirstGap(keys)) && FirstGap(keys) < nonce
  {
  }

  /** The two variables every traversal carries. */
  datatype Cursor = Cursor(next: Option<U64>, gapSeen: bool)

  const START := Cursor(None, false)

  /** One step of the traversal: the state of this entry and the advanced cursor. */
  function QueueEntryState(c: Cursor, nonce: U64): (QueueState, Cursor) {
    match c.next
    case None => (Ready, c.(next := CheckedSucc(nonce)))
    case Some(expected) =>
      if !c.gapSeen && nonce == expected then (Ready, c.(next := CheckedSucc(nonce)))
      else (Blocked(expected), c.(gapSeen := true))
  }

  /** What the cursor knows after visiting the entries of `keys` up to and including `last`. */
  ghost predicate CursorAt(keys: set<U64>, last: Option<U64>, c: Cursor) {
    match last
    case None => c == START
    case Some(l) =>
      && l in keys
      && if c.gapSeen then
           c.next == Some(FirstGap(keys)) && FirstGap(keys) < l
         else
           c.next == CheckedSucc(l) && forall k :: Least(keys) <= k <= l ==> k in keys
  }

  /** `nonce` is the entry the ascending traversal visits right after `last`. */
  ghost predicate Follows(keys: set<U64>, last: Option<U64>, nonce: U64) {
    && nonce in keys
    && match last
       case None => forall k :: k in keys ==> nonce <= k
       case Some(l) => l < nonce && forall k :: k in keys ==> k <= l || nonce <= k
  }

  /** Each step labels its entry by the declarative rule, including at nonce 2^64 - 1. */
  lemma StepFollowsRule(keys: set<U64>, last: Option<U64>, c: Cursor, nonce: U64)
    requires CursorAt(keys, last, c)
    requires Follows(keys, last, nonce)
    ensures QueueEntryState(c, nonce).0 == Label(keys, nonce)
    ensures CursorAt(keys, Some(nonce), QueueEntryState(c, nonce).1)
  {
    match last
    case None =>
      assert Least(keys) == nonce;
    case Some(l) =>
      if !c.gapSeen {
        if nonce == l + 1 {
          forall k | Least(keys) <= k <= nonce ensures k in keys {
            assert k <= l || k == nonce;
          }
        } else {
          assert l + 1 !in keys;
          FirstGapIsUnique(keys, l + 1);
        }
      }
  }

  /** The nonces of a queue in the order the traversals visit them. */
  ghost function Nonces(keys: set<U64>): (r: seq<U64>)
    ensures StrictlyAscending(r)
    ensures forall x :: x in r <==> x in keys
    ensures |r| == |keys|
  {
    var r := Ascending(keys);
    assert forall i :: 0 <= i < |r| ==> r[i] in keys;
    r
  }

  method NonceKeys(keys: set<U64>) returns (r: seq<U64>)
    ensures r == Nonces(keys)
  {
    var all := AscendingKeys(keys);
    assert forall i :: 0 <= i < |all| ==> all[i] in keys;
    r := all;
  }

  /** Where the traversal of `Nonces(keys)` stands after `i` entries. */
  ghost function LastVisited(keys: set<U64>, i: nat): Option<U64>
    requires i <= |keys|
  {
    if i == 0 then None else Some(Nonces(keys)[i - 1])
  }

  lemma NextVisited(keys: set<U64>, i: nat)
    requires i < |keys|
    ensures Follows(keys, LastVisited(keys, i), Nonces(keys)[i])
  {
    var ks := Nonces(keys);
    assert ks[i] in keys;
    forall k | k in keys ensures ks[i] <= k || (i > 0 && k <= ks[i - 1]) {
      assert k in ks;
      var j :| 0 <= j < |ks| && ks[j] == k;
    }
  }

  /** The cursor after `i` entries of the ascending traversal. */
  ghost predicate Visiting(keys: set<U64>, i: nat, c: Cursor) {
    i <= |keys| && CursorAt(keys, LastVisited(keys, i), c)
  }

  lemma VisitStart(keys: set<U64>)
    ensures Visiting(keys, 0, START)
  {
  }

  /** One turn of every traversal loop: the next entry gets its declarative label. */
  lemma VisitNext(keys: set<U64>, i: nat, c: Cursor)
    requires i < |keys| && Visiting(keys, i, c)
    ensures Nonces(keys)[i] in keys
    ensures QueueEntryState(c, Nonces(keys)[i]).0 == Label(keys, Nonces(keys)[i])
    ensures Visiting(keys, i + 1, QueueEntryState(c, Nonces(keys)[i]).1)
  {
    NextVisited(keys, i);
    StepFollowsRule(keys, LastVisited(keys, i), c, Nonces(keys)[i]);
  }

  // ---------------------------------------------------------------- traversals that skip entries

  /** The last entry of `live` among the first `i` entries of `keys`. */
  ghost function LastLive(keys: set<U64>, live: set<U64>, i: nat): Option<U64>
    requires i <= |keys|
  {
    if i == 0 then None
    else if Nonces(keys)[i - 1] in live then Some(Nonces(keys)[i - 1])
    else LastLive(keys, live, i - 1)
  }

  lemma {:induction false} LastLiveFacts(keys: set<U64>, live: set<U64>, i: nat)
    requires i <= |keys|
    ensures forall k :: 0 <= k < i && Nonces(keys)[k] in live ==>
      LastLive(keys, live, i).Some? && Nonces(keys)[k] <= LastLive(keys, live, i).value
    ensures LastLive(keys, live, i).Some? ==>
      && LastLive(keys, live, i).value in live
      && exists k :: 0 <= k < i && Nonces(keys)[k] == LastLive(keys, live, i).value
  {
    if i > 0 {
      LastLiveFacts(keys, live, i - 1);
    }
  }

  /** The cursor of a traversal of `keys` that skips everything outside `live`. */
  ghost predicate Skipping(keys: set<U64>, live: set<U64>, i: nat, c: Cursor) {
    i <= |keys| && CursorAt(live, LastLive(keys, live, i), c)
  }

  lemma SkipStart(keys: set<U64>, live: set<U64>)
    ensures Skipping(keys, live, 0, START)
  {
  }

  /** A skipped entry leaves the cursor alone; a live one gets its label among the live ones. */
  lemma SkipNext(keys: set<U64>, live: set<U64>, i: nat, c: Cursor)
    requires live <= keys && i < |keys| && Skipping(keys, live, i, c)
    ensures Nonces(keys)[i] in keys
    ensures Nonces(keys)[i] !in live ==> Skipping(keys, live, i + 1, c)
    ensures Nonces(keys)[i] in live ==>
      && QueueEntryState(c, Nonces(keys)[i]).0 == Label(live, Nonces(keys)[i])
      && Skipping(keys, live, i + 1, QueueEntryState(c, Nonces(keys)[i]).1)
  {
    var ks := Nonces(keys);
    assert ks[i] in keys;
    if ks[i] in live {
      LastLiveFacts(keys, live, i);
      forall k | k in live ensures ks[i] <= k || (LastLive(keys, live, i).Some? && k <= LastLive(keys, live, i).value) {
        assert k in ks;
        var j :| 0 <= j < |ks| && ks[j] == k;
      }
      StepFollowsRule(live, LastLive(keys, live, i), c, ks[i]);
    }
  }
}
