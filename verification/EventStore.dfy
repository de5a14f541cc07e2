/** The bounded event store: a ring of events in arrival order, shadowed by a sorted index. */
module EventStore {
  import opened Prelude
  import opened Lists
  import opened EventLog
  import opened EventOrder

  // ---------------------------------------------------------------- ordered lists of events

  lemma OrderedSlice(s: seq<Envelope>, i: nat)
    requires InOrder(s) && i < |s|
    ensures InOrder(s[..i] + s[i + 1..])
  {
    var r := s[..i] + s[i + 1..];
    forall a, b | 0 <= a < b < |r| ensures !Before(r[b], r[a]) {
      assert r[a] == s[if a < i then a else a + 1] && r[b] == s[if b < i then b else b + 1];
    }
  }

  lemma RemovalMultiset(s: seq<Envelope>, i: nat)
    requires i < |s|
    ensures multiset(s[..i] + s[i + 1..]) == multiset(s) - multiset{s[i]}
  {
    assert s == s[..i] + [s[i]] + s[i + 1..];
  }

  /** An event with the key of a given one lies between any two events with that key. */
  lemma SameKeyBetween(s: seq<Envelope>, target: Envelope, i: nat, k: nat, j: nat)
    requires InOrder(s) && i <= k <= j < |s| && SameKey(s[i], target) && SameKey(s[j], target)
    ensures SameKey(s[k], target)
  {
    assert i < k ==> !Before(s[k], s[i]);
    assert k < j ==> !Before(s[j], s[k]);
  }

  // ---------------------------------------------------------------- searches

  /** The first position whose event is not before `e`. */
  method PartitionBefore(s: seq<Envelope>, e: Envelope) returns (p: nat)
    requires InOrder(s)
    ensures p <= |s|
    ensures forall k :: 0 <= k < p ==> Before(s[k], e)
    ensures forall k :: p <= k < |s| ==> !Before(s[k], e)
  {
    p := 0;
    var high := |s|;
    while p < high
      invariant p <= high <= |s|
      invariant forall k :: 0 <= k < p ==> Before(s[k], e)
      invariant forall k :: high <= k < |s| ==> !Before(s[k], e)
    {
      var mid := (p + high) / 2;
      if Before(s[mid], e) {
        forall k | 0 <= k < mid ensures Before(s[k], e) {
          assert !Before(s[mid], s[k]);
        }
        p := mid + 1;
      } else {
        forall k | mid < k < |s| ensures !Before(s[k], e) {
          assert !Before(s[k], s[mid]);
        }
        high := mid;
      }
    }
  }

  /** The first position whose sequence id is above `id`. */
  method CursorStart(s: seq<Envelope>, id: U64) returns (p: nat)
    requires InOrder(s)
    ensures p <= |s|
    ensures forall k :: 0 <= k < p ==> s[k].seqId <= id
    ensures forall k :: p <= k < |s| ==> s[k].seqId > id
  {
    p := 0;
    var high := |s|;
    while p < high
      invariant p <= high <= |s|
      invariant forall k :: 0 <= k < p ==> s[k].seqId <= id
      invariant forall k :: high <= k < |s| ==> s[k].seqId > id
    {
      var mid := (p + high) / 2;
      if s[mid].seqId <= id {
        forall k | 0 <= k < mid ensures s[k].seqId <= id {
          OrderedSequence(s, k, mid);
        }
        p := mid + 1;
      } else {
        forall k | mid < k < |s| ensures s[k].seqId > id {
          OrderedSequence(s, mid, k);
        }
        high := mid;
      }
    }
  }

  /** Some position with the key of `target`, if there is one. */
  method BinarySearch(s: seq<Envelope>, target: Envelope) returns (found: Option<nat>)
    requires InOrder(s)
    ensures found.Some? ==> found.value < |s| && SameKey(s[found.value], target)
    ensures found.None? ==> forall k :: 0 <= k < |s| ==> !SameKey(s[k], target)
  {
    var low, high := 0, |s|;
    while low < high
      invariant 0 <= low <= high <= |s|
      invariant forall k :: 0 <= k < low ==> Before(s[k], target)
      invariant forall k :: high <= k < |s| ==> Before(target, s[k])
    {
      var mid := (low + high) / 2;
      if SameKey(s[mid], target) {
        return Some(mid);
      } else if Before(s[mid], target) {
        forall k | 0 <= k < mid ensures Before(s[k], target) {
          assert !Before(s[mid], s[k]);
        }
        low := mid + 1;
      } else {
        forall k | mid < k < |s| ensures Before(target, s[k]) {
          assert !Before(s[k], s[mid]);
        }
        high := mid;
      }
    }
    return None;
  }

  /** Removes one copy of an event from the index, wherever it stands among events with equal keys. */
  method RemoveFromIndex(s: seq<Envelope>, target: Envelope) returns (r: seq<Envelope>)
    requires InOrder(s)
    ensures InOrder(r)
    ensures target in s ==> multiset(r) == multiset(s) - multiset{target}
    ensures target !in s ==> r == s
  {
    var found := BinarySearch(s, target);
    if found.None? {
      return s;
    }
    var index := found.value;
    while index > 0 && SameKey(s[index - 1], target)
      invariant 0 <= index < |s| && SameKey(s[index], target)
    {
      index := index - 1;
    }
    ghost var first := index;
    forall k | 0 <= k < first ensures s[k] != target {
      if s[k] == target {
        SameKeyBetween(s, target, k, first - 1, first);
      }
    }
    while index < |s| && SameKey(s[index], target)
      invariant 0 <= first <= index <= |s|
      invariant forall k :: 0 <= k < index ==> s[k] != target
    {
      if s[index] == target {
        OrderedSlice(s, index);
        RemovalMultiset(s, index);
        return s[..index] + s[index + 1..];
      }
      index := index + 1;
    }
    forall k | index <= k < |s| ensures s[k] != target {
      if s[k] == target {
        SameKeyBetween(s, target, first, index, k);
      }
    }
    return s;
  }

  /** Puts a new event into the index. */
  method InsertIntoIndex(s: seq<Envelope>, e: Envelope) returns (r: seq<Envelope>)
    requires InOrder(s)
    ensures InOrder(r) && multiset(r) == multiset(s) + multiset{e}
  {
    if s == [] || !Before(e, s[|s| - 1]) {
      forall k | 0 <= k < |s| ensures !Before(e, s[k]) {
        assert k < |s| - 1 ==> !Before(s[|s| - 1], s[k]);
      }
      return s + [e];
    }
    var p := PartitionBefore(s, e);
    r := s[..p] + [e] + s[p..];
    assert s == s[..p] + s[p..];
    InsertedInOrder(s, e, p);
  }

  lemma InsertedInOrder(s: seq<Envelope>, e: Envelope, p: nat)
    requires InOrder(s) && p <= |s|
    requires forall k :: 0 <= k < p ==> Before(s[k], e)
    requires forall k :: p <= k < |s| ==> !Before(s[k], e)
    ensures InOrder(s[..p] + [e] + s[p..])
  {
    var r := s[..p] + [e] + s[p..];
    forall a, b | 0 <= a < b < |r| ensures !Before(r[b], r[a]) {
      assert a != p ==> r[a] == s[if a < p then a else a - 1];
      assert b != p ==> r[b] == s[if b < p then b else b - 1];
    }
  }

  // ---------------------------------------------------------------- the store

  function Take(s: seq<Envelope>, n: nat): seq<Envelope> {
    if |s| <= n then s else s[..n]
  }

  /** The first `limit` indexed events above a cursor, at least one. */
  method ScanIndex(index: seq<Envelope>, fromSeqId: U64, limit: nat) returns (r: seq<Envelope>)
    requires InOrder(index)
    ensures r == Take(Retain(index, Above(fromSeqId)), if limit == 0 then 1 else limit)
  {
    var count := if limit == 0 then 1 else limit;
    var start := CursorStart(index, fromSeqId);
    SuffixIsAbove(index, fromSeqId, start, |index|);
    assert index[start..|index|] == index[start..];
    r := if |index| - start <= count then index[start..] else index[start..start + count];
    assert start + count <= |index| ==> index[start..][..count] == index[start..start + count];
  }

  /** The most recent arrivals a ring of the given capacity retains. */
  function LastOf(s: seq<Envelope>, n: nat): seq<Envelope> {
    if |s| <= n then s else s[|s| - n..]
  }

  /** Retaining the latest after each arrival is retaining them once at the end. */
  lemma LastOfStep(arrivals: seq<Envelope>, e: Envelope, n: nat)
    ensures LastOf(LastOf(arrivals, n) + [e], n) == LastOf(arrivals + [e], n)
  {
  }

  class EventRing {
    const capacity: nat
    var events: seq<Envelope>
    var index: seq<Envelope>
    /** Every event ever appended, evicted ones included. */
    ghost var arrivals: seq<Envelope>

    /** The latest arrivals are retained, and the index is a sorted permutation of them. */
    ghost predicate Valid()
      reads this
    {
      InOrder(index) && multiset(index) == multiset(events) && events == LastOf(arrivals, capacity)
    }

    constructor (capacity: nat)
      ensures Valid() && arrivals == [] && this.capacity == capacity
    {
      this.capacity := capacity;
      events, index, arrivals := [], [], [];
    }

    /** Appends an event in any order; the oldest arrivals leave both structures. */
    method AppendEvent(e: Envelope)
      requires Valid()
      modifies this
      ensures Valid() && arrivals == old(arrivals) + [e]
      ensures events == if |arrivals| <= capacity then arrivals else arrivals[|arrivals| - capacity..]
    {
      ghost var all := events + [e];
      index := InsertIntoIndex(index, e);
      events := events + [e];
      while |events| > capacity
        invariant InOrder(index) && multiset(index) == multiset(events) && arrivals == old(arrivals)
        invariant |events| <= |all| && events == all[|all| - |events|..]
        invariant |events| < |all| ==> |events| >= capacity
      {
        EvictOldest();
      }
      assert events == LastOf(all, capacity);
      LastOfStep(arrivals, e, capacity);
      arrivals := arrivals + [e];
    }

    method EvictOldest()
      requires InOrder(index) && multiset(index) == multiset(events) && events != []
      modifies this`events, this`index
      ensures InOrder(index) && multiset(index) == multiset(events) && events == old(events[1..])
    {
      var oldest := events[0];
      assert oldest in multiset(events);
      assert events == [oldest] + events[1..];
      events := events[1..];
      index := RemoveFromIndex(index, oldest);
    }

    method ScanEvents(fromSeqId: U64, limit: nat) returns (r: seq<Envelope>)
      requires Valid()
      ensures r == Take(Retain(index, Above(fromSeqId)), if limit == 0 then 1 else limit)
    {
      r := ScanIndex(index, fromSeqId, limit);
    }

    /** The largest retained sequence id. */
    method LatestSeqId() returns (latest: Option<U64>)
      requires Valid()
      ensures latest.None? <==> events == []
      ensures latest.Some? ==>
        && (exists e :: e in events && e.seqId == latest.value)
        && forall e :: e in events ==> e.seqId <= latest.value
    {
      SameMembers(index, events);
      if index == [] {
        return None;
      }
      forall e | e in index ensures e.seqId <= index[|index| - 1].seqId {
        var k :| 0 <= k < |index| && index[k] == e;
        if k < |index| - 1 {
          OrderedSequence(index, k, |index| - 1);
        }
      }
      assert index[|index| - 1] in index;
      return Some(index[|index| - 1].seqId);
    }
  }

  lemma SameMembers(a: seq<Envelope>, b: seq<Envelope>)
    requires multiset(a) == multiset(b)
    ensures forall x :: x in a <==> x in b
    ensures a == [] <==> b == []
  {
    forall x ensures x in a <==> x in b {
      assert x in a <==> x in multiset(a);
      assert x in b <==> x in multiset(b);
    }
    assert |multiset(a)| == |a| && |multiset(b)| == |b|;
  }

  // ---------------------------------------------------------------- sequence ids

  /** Later arrivals carry larger ids, and ids start above zero. */
  ghost predicate Numbered(arrivals: seq<Envelope>) {
    && (forall i :: 0 <= i < |arrivals| ==> arrivals[i].seqId > 0)
    && (forall i, j :: 0 <= i < j < |arrivals| ==> arrivals[i].seqId < arrivals[j].seqId)
  }

  /** The retained event at a position is the arrival that many evictions later. */
  lemma RetainedArrival(arrivals: seq<Envelope>, n: nat, k: nat)
    requires k < |LastOf(arrivals, n)|
    ensures |LastOf(arrivals, n)| <= |arrivals|
    ensures LastOf(arrivals, n)[k] == arrivals[|arrivals| - |LastOf(arrivals, n)| + k]
  {
  }

  lemma NumberedRises(arrivals: seq<Envelope>, n: nat)
    requires Numbered(arrivals)
    ensures Rising(LastOf(arrivals, n), BySeqId())
  {
    hide LastOf;
    var s := LastOf(arrivals, n);
    forall i, j | 0 <= i < j < |s| ensures BySeqId()(s[i]) < BySeqId()(s[j]) {
      RetainedArrival(arrivals, n, i);
      RetainedArrival(arrivals, n, j);
    }
  }

  function BySeqId(): Envelope -> nat {
    (e: Envelope) => e.seqId
  }

  lemma {:induction false} MultiplicityAt(s: seq<Envelope>, i: nat, j: nat)
    requires i < j < |s| && s[i] == s[j]
    ensures multiset(s)[s[i]] >= 2
  {
    assert s == s[..j] + s[j..];
    assert s[..j][i] == s[i] && s[j..][0] == s[j];
  }

  lemma {:induction false} RisingOnce(events: seq<Envelope>, e: Envelope)
    requires Rising(events, BySeqId())
    ensures multiset(events)[e] <= 1
  {
    if events != [] {
      var n := |events| - 1;
      assert events == events[..n] + [events[n]];
      RisingOnce(events[..n], e);
      assert events[n] !in events[..n];
    }
  }

  /** An index over numbered arrivals has unique sequence ids, and lists them as they arrived. */
  lemma NumberedIndex(index: seq<Envelope>, events: seq<Envelope>)
    requires InOrder(index) && multiset(index) == multiset(events) && Rising(events, BySeqId())
    ensures UniqueSequence(index) && index == events
  {
    SameMembers(index, events);
    forall i, j | 0 <= i < j < |index| ensures index[i].seqId < index[j].seqId {
      OrderedSequence(index, i, j);
      assert index[i] in events && index[j] in events;
      RisingOnce(events, index[i]);
      if index[i] == index[j] {
        MultiplicityAt(index, i, j);
      }
    }
    RisingIsUnique(index, events, BySeqId());
  }

  lemma LatestIsLast(arrivals: seq<Envelope>, n: nat, latest: U64)
    requires Numbered(arrivals) && exists e :: e in LastOf(arrivals, n) && e.seqId == latest
    requires forall e :: e in LastOf(arrivals, n) ==> e.seqId <= latest
    ensures arrivals != [] && latest == arrivals[|arrivals| - 1].seqId
  {
    var s := LastOf(arrivals, n);
    var e :| e in s && e.seqId == latest;
    var k :| 0 <= k < |s| && s[k] == e;
    RetainedArrival(arrivals, n, k);
    RetainedArrival(arrivals, n, |s| - 1);
    assert s[|s| - 1] in s;
  }

  /** The single writer: numbers every event before it is stored. */
  class SequencedWriter {
    const ring: EventRing
    var nextSeqId: U64

    ghost predicate Valid()
      reads this, ring
    {
      && ring.Valid()
      && Numbered(ring.arrivals)
      && nextSeqId > 0
      && forall e :: e in ring.arrivals ==> e.seqId < nextSeqId
    }

    /** Starts writing to a store, which may hold recovered events, after the latest id in it. */
    constructor (ring: EventRing)
      requires ring.Valid() && Numbered(ring.arrivals) && (ring.capacity > 0 || ring.arrivals == [])
      requires forall e :: e in ring.arrivals ==> e.seqId < U64_MAX
      ensures Valid() && this.ring == ring
      ensures nextSeqId == if ring.arrivals == [] then 1 else SaturatingAdd(ring.arrivals[|ring.arrivals| - 1].seqId, 1)
    {
      this.ring := ring;
      nextSeqId := 1;
      new;
      var latest := ring.LatestSeqId();
      if latest.Some? {
        LatestIsLast(ring.arrivals, ring.capacity, latest.value);
        nextSeqId := SaturatingAdd(latest.value, 1);
      }
    }

    /** Stores a payload under the next id; ids stay unique in the index until the counter saturates. */
    method AppendPayload(unixMs: int, sourceId: SourceId, payload: Payload)
      requires Valid() && nextSeqId < U64_MAX
      modifies this, ring
      ensures Valid() && ring.arrivals == old(ring.arrivals) + [Envelope(old(nextSeqId), unixMs, sourceId, payload)]
      ensures nextSeqId == old(nextSeqId) + 1
      ensures UniqueSequence(ring.index) && ring.index == ring.events
    {
      hide InOrder, UniqueSequence, LastOf;
      var event := Envelope(nextSeqId, unixMs, sourceId, payload);
      nextSeqId := SaturatingAdd(nextSeqId, 1);
      ring.AppendEvent(event);
      NumberedRises(ring.arrivals, ring.capacity);
      NumberedIndex(ring.index, ring.events);
    }
  }
}
