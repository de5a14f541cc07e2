/** The deterministic order of events, and what sorting a log by it yields. */
module EventOrder {
  import opened Prelude
  import opened EventLog
  import opened Lists

  ghost predicate InOrder(s: seq<Envelope>) {
    forall i, j :: 0 <= i < j < |s| ==> !Before(s[j], s[i])
  }

  /** Puts an event behind everything that does not come after it. */
  function Insert(s: seq<Envelope>, e: Envelope): seq<Envelope> {
    if s == [] || Before(e, s[0]) then [e] + s else [s[0]] + Insert(s[1..], e)
  }

  /** The stable sort by order key. */
  function SortDeterministic(s: seq<Envelope>): seq<Envelope> {
    if s == [] then [] else Insert(SortDeterministic(s[..|s| - 1]), s[|s| - 1])
  }

  /** The events with one order key, in the order they stand. */
  function WithKey(s: seq<Envelope>, key: OrderKey): seq<Envelope> {
    if s == [] then [] else (if KeyOf(s[0]) == key then [s[0]] else []) + WithKey(s[1..], key)
  }

  lemma {:induction false} InsertMembers(s: seq<Envelope>, e: Envelope)
    ensures forall x :: x in Insert(s, e) <==> x in s || x == e
  {
    if s != [] && !Before(e, s[0]) {
      InsertMembers(s[1..], e);
      assert s == [s[0]] + s[1..];
    }
  }

  lemma OrderTail(s: seq<Envelope>)
    requires s != [] && InOrder(s)
    ensures InOrder(s[1..]) && forall x :: x in s[1..] ==> !Before(x, s[0])
  {
    forall x | x in s[1..] ensures !Before(x, s[0]) {
      var k :| 0 <= k < |s| - 1 && s[1..][k] == x;
      assert s[k + 1] == x;
    }
  }

  lemma PrependInOrder(e: Envelope, s: seq<Envelope>)
    requires InOrder(s) && forall x :: x in s ==> !Before(x, e)
    ensures InOrder([e] + s)
  {
    forall i, j | 0 <= i < j < |[e] + s| ensures !Before(([e] + s)[j], ([e] + s)[i]) {
      assert s[j - 1] in s;
    }
  }

  lemma {:induction false} InsertInOrder(s: seq<Envelope>, e: Envelope)
    requires InOrder(s)
    ensures InOrder(Insert(s, e))
  {
    if s == [] {
    } else if Before(e, s[0]) {
      OrderTail(s);
      forall x | x in s ensures !Before(x, e) {
        assert x == s[0] || x in s[1..];
      }
      PrependInOrder(e, s);
    } else {
      OrderTail(s);
      InsertInOrder(s[1..], e);
      InsertMembers(s[1..], e);
      PrependInOrder(s[0], Insert(s[1..], e));
    }
  }

  lemma {:induction false} NoneWithKey(s: seq<Envelope>, key: OrderKey)
    requires forall x :: x in s ==> KeyOf(x) != key
    ensures WithKey(s, key) == []
  {
    if s != [] {
      assert s[0] in s && forall x :: x in s[1..] ==> x in s;
      NoneWithKey(s[1..], key);
    }
  }

  lemma {:induction false} WithKeyAppend(s: seq<Envelope>, e: Envelope, key: OrderKey)
    ensures WithKey(s + [e], key) == WithKey(s, key) + if KeyOf(e) == key then [e] else []
  {
    if s == [] {
      assert s + [e] == [e] && WithKey([e][1..], key) == [];
    } else {
      assert (s + [e])[1..] == s[1..] + [e];
      WithKeyAppend(s[1..], e, key);
    }
  }

  /** Insertion goes behind the events with the same key. */
  lemma {:induction false} InsertWithKey(s: seq<Envelope>, e: Envelope, key: OrderKey)
    requires InOrder(s)
    ensures WithKey(Insert(s, e), key) == WithKey(s, key) + if KeyOf(e) == key then [e] else []
  {
    if s == [] {
      assert WithKey([e][1..], key) == [];
    } else if Before(e, s[0]) {
      assert ([e] + s)[1..] == s;
      if KeyOf(e) == key {
        OrderTail(s);
        forall x | x in s ensures KeyOf(x) != key {
          assert x == s[0] || x in s[1..];
        }
        NoneWithKey(s, key);
      }
    } else {
      OrderTail(s);
      InsertWithKey(s[1..], e, key);
      assert ([s[0]] + Insert(s[1..], e))[1..] == Insert(s[1..], e);
    }
  }

  /** Sorting orders the log and, key by key, keeps exactly the events it had in the order they had. */
  lemma {:induction false} SortIsStable(s: seq<Envelope>, key: OrderKey)
    ensures InOrder(SortDeterministic(s))
    ensures WithKey(SortDeterministic(s), key) == WithKey(s, key)
  {
    if s != [] {
      var n := |s| - 1;
      SortIsStable(s[..n], key);
      InsertInOrder(SortDeterministic(s[..n]), s[n]);
      InsertWithKey(SortDeterministic(s[..n]), s[n], key);
      WithKeyAppend(s[..n], s[n], key);
      assert s[..n] + [s[n]] == s;
    }
  }

  lemma {:induction false} WithKeyMembers(s: seq<Envelope>, x: Envelope)
    ensures x in WithKey(s, KeyOf(x)) <==> x in s
  {
    if s != [] {
      assert s == [s[0]] + s[1..];
      WithKeyMembers(s[1..], x);
    }
  }

  /** Both logs list the events of each key in the same order. */
  ghost predicate SameByKey(a: seq<Envelope>, b: seq<Envelope>) {
    forall key :: WithKey(a, key) == WithKey(b, key)
  }

  lemma HeadIsFirst(s: seq<Envelope>, x: Envelope)
    requires InOrder(s) && x in s
    ensures !Before(x, s[0])
  {
  }

  lemma EmptyAlike(a: seq<Envelope>, b: seq<Envelope>)
    requires SameByKey(a, b)
    ensures a == [] ==> b == []
  {
    if b != [] {
      assert WithKey(b, KeyOf(b[0])) == WithKey(a, KeyOf(b[0]));
    }
  }

  /** An ordered log is determined by what it holds under each key. */
  lemma {:induction false} OrderDetermines(a: seq<Envelope>, b: seq<Envelope>)
    requires InOrder(a) && InOrder(b) && SameByKey(a, b)
    ensures a == b
  {
    EmptyAlike(a, b);
    if a != [] {
      WithKeyMembers(b, a[0]);
      WithKeyMembers(a, a[0]);
      assert a[0] in b && b != [];
      WithKeyMembers(a, b[0]);
      WithKeyMembers(b, b[0]);
      HeadIsFirst(a, b[0]);
      HeadIsFirst(b, a[0]);
      OrderTail(a);
      OrderTail(b);
      assert KeyOf(a[0]) == KeyOf(b[0]);
      assert WithKey(a, KeyOf(a[0]))[0] == a[0] && WithKey(b, KeyOf(b[0]))[0] == b[0];
      assert SameByKey(a[1..], b[1..]) by {
        forall key ensures WithKey(a[1..], key) == WithKey(b[1..], key) {
          assert WithKey(a, key) == WithKey(b, key);
          TailWithKey(a, key);
          TailWithKey(b, key);
        }
      }
      OrderDetermines(a[1..], b[1..]);
      assert a == [a[0]] + a[1..] && b == [b[0]] + b[1..];
    }
  }

  lemma TailWithKey(s: seq<Envelope>, key: OrderKey)
    requires s != []
    ensures WithKey(s[1..], key) == if KeyOf(s[0]) == key then WithKey(s, key)[1..] else WithKey(s, key)
  {
  }

  /** Two logs sort alike exactly when they list the events of each key in the same order. */
  lemma SortsAlikeIff(a: seq<Envelope>, b: seq<Envelope>)
    ensures SortDeterministic(a) == SortDeterministic(b) <==> SameByKey(a, b)
  {
    forall key
      ensures WithKey(SortDeterministic(a), key) == WithKey(a, key)
      ensures WithKey(SortDeterministic(b), key) == WithKey(b, key)
    {
      SortIsStable(a, key);
      SortIsStable(b, key);
    }
    SortIsStable(a, OrderKey(0, 0, 0));
    SortIsStable(b, OrderKey(0, 0, 0));
    assert SameByKey(SortDeterministic(a), SortDeterministic(b)) <==> SameByKey(a, b);
    if SameByKey(a, b) {
      OrderDetermines(SortDeterministic(a), SortDeterministic(b));
    }
  }

  ghost predicate DistinctKeys(s: seq<Envelope>) {
    forall i, j :: 0 <= i < j < |s| ==> KeyOf(s[i]) != KeyOf(s[j])
  }

  lemma {:induction false} SingleWithKey(s: seq<Envelope>, x: Envelope)
    requires DistinctKeys(s) && x in s
    ensures WithKey(s, KeyOf(x)) == [x]
  {
    assert s == [s[0]] + s[1..];
    if x == s[0] {
      forall y | y in s[1..] ensures KeyOf(y) != KeyOf(x) {
        var k :| 0 <= k < |s| - 1 && s[1..][k] == y;
        assert s[k + 1] == y;
      }
      NoneWithKey(s[1..], KeyOf(x));
    } else {
      forall i, j | 0 <= i < j < |s| - 1 ensures KeyOf(s[1..][i]) != KeyOf(s[1..][j]) {
        assert KeyOf(s[i + 1]) != KeyOf(s[j + 1]);
      }
      SingleWithKey(s[1..], x);
      assert KeyOf(s[0]) != KeyOf(x) by {
        var k :| 0 <= k < |s| - 1 && s[1..][k] == x;
        assert s[k + 1] == x;
      }
    }
  }

  /** With distinct keys, logs with the same events sort to the same log. */
  lemma PermutationSortsAlike(a: seq<Envelope>, b: seq<Envelope>)
    requires DistinctKeys(a) && DistinctKeys(b) && forall x :: x in a <==> x in b
    ensures SortDeterministic(a) == SortDeterministic(b)
  {
    forall key ensures WithKey(a, key) == WithKey(b, key) {
      if x :| x in a && KeyOf(x) == key {
        SingleWithKey(a, x);
        SingleWithKey(b, x);
      } else {
        NoneWithKey(a, key);
        NoneWithKey(b, key);
      }
    }
    SortsAlikeIff(a, b);
  }

  lemma {:induction false} SortMembers(s: seq<Envelope>)
    ensures |SortDeterministic(s)| == |s|
    ensures forall x :: x in SortDeterministic(s) <==> x in s
  {
    if s != [] {
      var n := |s| - 1;
      SortMembers(s[..n]);
      InsertMembers(SortDeterministic(s[..n]), s[n]);
      InsertSize(SortDeterministic(s[..n]), s[n]);
      assert s == s[..n] + [s[n]];
    }
  }

  lemma {:induction false} InsertSize(s: seq<Envelope>, e: Envelope)
    ensures |Insert(s, e)| == |s| + 1
  {
    if s != [] && !Before(e, s[0]) {
      InsertSize(s[1..], e);
    }
  }

  // ---------------------------------------------------------------- events above a sequence id

  ghost predicate UniqueSequence(events: seq<Envelope>) {
    forall i, j :: 0 <= i < j < |events| ==> events[i].seqId != events[j].seqId
  }

  lemma OrderedSequence(s: seq<Envelope>, i: nat, j: nat)
    requires InOrder(s) && i < j < |s|
    ensures s[i].seqId <= s[j].seqId
  {
    assert !Before(s[j], s[i]);
  }

  /** Selects the events above a sequence id. */
  function Above(id: U64): Envelope -> bool {
    (e: Envelope) => e.seqId > id
  }

  lemma {:induction false} SuffixIsAbove(s: seq<Envelope>, id: U64, p: nat, i: nat)
    requires p <= |s| && i <= |s|
    requires forall k :: 0 <= k < p ==> s[k].seqId <= id
    requires forall k :: p <= k < |s| ==> s[k].seqId > id
    ensures RetainUpTo(s, Above(id), i) == if i <= p then [] else s[p..i]
  {
    if i > 0 {
      SuffixIsAbove(s, id, p, i - 1);
      assert Above(id)(s[i - 1]) <==> i - 1 >= p;
      if i - 1 >= p {
        assert s[p..i] == s[p..i - 1] + [s[i - 1]];
      }
    }
  }

  /** The hash an event is ordered by: its transaction's. */
  function TxOf(e: Envelope): TxHash {
    match e.payload
    case TxDecoded(tx) => tx.hash
    case _ => e.payload.hash
  }

  /** A sorted log stands by sequence id, then by source, then by transaction hash. */
  lemma SortedBy(events: seq<Envelope>, i: nat, j: nat)
    requires i < j < |SortDeterministic(events)|
    ensures var a, b := SortDeterministic(events)[i], SortDeterministic(events)[j];
      && a.seqId <= b.seqId
      && (a.seqId == b.seqId ==> a.sourceId <= b.sourceId)
      && (a.seqId == b.seqId && a.sourceId == b.sourceId ==> TxOf(a) <= TxOf(b))
  {
    hide SortDeterministic;
    SortIsStable(events, KeyOf(SortDeterministic(events)[i]));
    var a, b := SortDeterministic(events)[i], SortDeterministic(events)[j];
    assert !Before(b, a);
  }
}
