/** Reading the event store: the cursor loop of the API and the plan of a restart. */
module EventPages {
  import opened Prelude
  import opened Lists
  import opened EventLog
  import opened EventOrder
  import opened EventStore
  import opened Snapshot

  const PAGE_SIZE: nat := 2_000
  const MAX_SCAN_EVENTS: nat := 200_000

  /** Selects the events a scan up to `to` is meant to collect. */
  function Within(to: U64): Envelope -> bool {
    (e: Envelope) => 0 < e.seqId <= to
  }

  /** One page: the scan reads twice as far as the page is long, then cuts. */
  method Page(index: seq<Envelope>, after: U64, limit: nat) returns (page: seq<Envelope>)
    requires InOrder(index) && limit > 0
    ensures page == Take(Retain(index, Above(after)), limit)
  {
    var scanned := ScanIndex(index, after, if 2 * limit > limit then 2 * limit else limit);
    page := Take(scanned, limit);
  }

  /** `p` splits the index at a sequence id. */
  ghost predicate SplitsAt(index: seq<Envelope>, id: U64, p: nat) {
    && p <= |index|
    && (forall k :: 0 <= k < p ==> index[k].seqId <= id)
    && (forall k :: p <= k < |index| ==> index[k].seqId > id)
  }

  lemma PageAt(index: seq<Envelope>, after: U64, p: nat, limit: nat)
    requires SplitsAt(index, after, p) && limit > 0
    ensures Take(Retain(index, Above(after)), limit) == index[p..if p + limit <= |index| then p + limit else |index|]
  {
    SuffixIsAbove(index, after, p, |index|);
    var rest := index[p..];
    assert index[p..|index|] == rest;
    if p + limit < |index| {
      assert rest[..limit] == index[p..p + limit];
    }
  }

  lemma {:induction false} WithinIsSlice(index: seq<Envelope>, to: U64, low: nat, high: nat, i: nat)
    requires SplitsAt(index, 0, low) && SplitsAt(index, to, high) && low <= high && i <= |index|
    ensures RetainUpTo(index, Within(to), i) == if i <= low then [] else index[low..if i < high then i else high]
  {
    if i > 0 {
      WithinIsSlice(index, to, low, high, i - 1);
      assert Within(to)(index[i - 1]) <==> low <= i - 1 < high;
      if low <= i - 1 < high {
        assert index[low..i] == index[low..i - 1] + [index[i - 1]];
      }
    }
  }

  lemma NextSplit(index: seq<Envelope>, p: nat)
    requires InOrder(index) && UniqueSequence(index) && p < |index|
    ensures SplitsAt(index, index[p].seqId, p + 1)
  {
    forall k | 0 <= k < |index| ensures k < p ==> index[k].seqId <= index[p].seqId {
      if k < p {
        OrderedSequence(index, k, p);
      }
    }
    forall k | p < k < |index| ensures index[k].seqId > index[p].seqId {
      OrderedSequence(index, p, k);
    }
  }

  /** No event of a page is skipped: each lies ahead of the cursor. */
  lemma AheadOfCursor(index: seq<Envelope>, after: U64, at: nat)
    requires SplitsAt(index, after, at) && at < |index|
    ensures index[at].seqId > after
  {
  }

  /** Where the target ends, seen from one event before or at its end. */
  lemma TargetFrom(index: seq<Envelope>, to: U64, at: nat, high: nat)
    requires SplitsAt(index, to, high) && at <= high && at < |index|
    requires SplitsAt(index, index[at].seqId, at + 1)
    ensures index[at].seqId < to ==> at < high
    ensures index[at].seqId >= to ==> high == if index[at].seqId == to then at + 1 else at
  {
    assert at + 1 < high ==> index[at + 1].seqId <= to;
  }

  /**
    Walks one page. Stops at the first event at or past `to`; otherwise takes the whole
    page. `p` and `high` are where the page starts and where the target ends in the index.
   */
  method ConsumePage(
      index: seq<Envelope>, page: seq<Envelope>, to: U64, after: U64, out: seq<Envelope>, ghost p: nat, ghost high: nat)
    returns (newAfter: U64, newOut: seq<Envelope>, finished: bool)
    requires InOrder(index) && UniqueSequence(index)
    requires p + |page| <= |index| && page == index[p..p + |page|]
    requires SplitsAt(index, after, p) && SplitsAt(index, to, high) && p <= high
    ensures finished ==> newOut == out + index[p..high] && high <= p + |page|
    ensures !finished ==> newOut == out + page && p + |page| <= high && SplitsAt(index, newAfter, p + |page|)
  {
    hide SplitsAt, InOrder, UniqueSequence;
    newAfter, newOut := after, out;
    assert index[p..p] == [];
    for i := 0 to |page|
      invariant newOut == out + index[p..p + i]
      invariant p + i <= high && SplitsAt(index, newAfter, p + i)
    {
      var event := page[i];
      AheadOfCursor(index, newAfter, p + i);
      assert event == index[p + i] && event.seqId > newAfter;
      NextSplit(index, p + i);
      TargetFrom(index, to, p + i, high);
      newAfter := event.seqId;
      if event.seqId <= to {
        newOut := newOut + [event];
        assert index[p..p + i + 1] == index[p..p + i] + [event];
      }
      if event.seqId >= to {
        return newAfter, newOut, true;
      }
    }
    return newAfter, newOut, false;
  }

  lemma CursorWithin(index: seq<Envelope>, id: U64, p: nat)
    requires SplitsAt(index, id, p)
    ensures p <= |index|
  {
  }

  /** Collects, page by page, the events up to a sequence id; stops after the scan cap. */
  method CollectEventsUpToSeq(index: seq<Envelope>, to: U64) returns (out: seq<Envelope>)
    requires InOrder(index) && UniqueSequence(index)
    ensures out == Take(Retain(index, Within(to)), 200_000)
  {
    hide InOrder, UniqueSequence, SplitsAt, Within, RetainUpTo;
    var after: U64 := 0;
    out := [];
    ghost var low := CursorPosition(index, 0);
    ghost var high := CursorPosition(index, to);
    ghost var p := low;
    OrderedCursors(index, to, low, high);
    CursorWithin(index, to, high);
    WithinIsSlice(index, to, low, high, |index|);
    while |out| < MAX_SCAN_EVENTS
      invariant low <= p <= high && out == index[low..p] && SplitsAt(index, after, p)
      invariant |out| <= MAX_SCAN_EVENTS && (|out| % PAGE_SIZE == 0 || p == |index|)
      decreases |index| - p
    {
      var page := Page(index, after, PAGE_SIZE);
      PageAt(index, after, p, PAGE_SIZE);
      if page == [] {
        break;
      }
      var finished;
      ghost var grown := out + index[p..high];
      after, out, finished := ConsumePage(index, page, to, after, out, p, high);
      if finished {
        assert grown == index[low..high];
        return;
      }
      p := p + |page|;
    }
    assert |out| == MAX_SCAN_EVENTS ==> index[low..high][..MAX_SCAN_EVENTS] == out;
  }

  lemma CursorPosition(index: seq<Envelope>, id: U64) returns (p: nat)
    requires InOrder(index)
    ensures SplitsAt(index, id, p)
  {
    p := 0;
    while p < |index| && index[p].seqId <= id
      invariant p <= |index| && forall k :: 0 <= k < p ==> index[k].seqId <= id
    {
      p := p + 1;
    }
    forall k | p <= k < |index| ensures index[k].seqId > id {
      if p < k {
        OrderedSequence(index, p, k);
      }
    }
  }

  lemma OrderedCursors(index: seq<Envelope>, to: U64, low: nat, high: nat)
    requires SplitsAt(index, 0, low) && SplitsAt(index, to, high)
    ensures low <= high
  {
    assert high < |index| ==> index[high].seqId > 0;
  }

  // ---------------------------------------------------------------- the restart plan

  const I64_MAX: int := 0x7FFF_FFFF_FFFF_FFFF
  const I64_MIN: int := -0x8000_0000_0000_0000

  type I64 = n: int | I64_MIN <= n <= I64_MAX

  function SaturatingSub64(a: I64, b: I64): I64 {
    if a - b > I64_MAX then I64_MAX else if a - b < I64_MIN then I64_MIN else a - b
  }

  datatype Stored = Stored(snapshot: PersistedSnapshot, capturedAtUnixMs: I64)

  datatype Plan = Plan(snapshot: Option<PersistedSnapshot>, replayEvents: seq<Envelope>, requiresRebuild: bool)

  /** Whether finality moved on too far since the snapshot was captured. */
  predicate TooOld(finalized: Option<I64>, stored: Stored, maxGapMs: U64) {
    finalized.Some? &&
    SaturatingSub64(finalized.value, stored.capturedAtUnixMs) > if maxGapMs <= I64_MAX then maxGapMs else I64_MAX
  }

  /** Some block was finalized more than the allowed gap after the capture; the largest gaps allow any. */
  predicate Outdated(finalized: Option<I64>, capturedAtUnixMs: I64, maxGapMs: U64) {
    finalized.Some? && maxGapMs < 0x7FFF_FFFF_FFFF_FFFF && finalized.value > capturedAtUnixMs + maxGapMs
  }

  /** The saturating comparison is the exact one. */
  lemma TooOldIff(finalized: Option<I64>, stored: Stored, maxGapMs: U64)
    ensures TooOld(finalized, stored, maxGapMs) <==> Outdated(finalized, stored.capturedAtUnixMs, maxGapMs)
  {
  }

  /**
    The plan of a restart: nothing without a snapshot, a rebuild for one that is too old,
    and otherwise the snapshot with every retained event above its watermark.
   */
  method RehydrationPlan(ring: EventRing, stored: Option<Stored>, finalized: Option<I64>, maxGapMs: U64)
    returns (plan: Plan)
    requires ring.Valid()
    ensures plan.requiresRebuild <==> stored.Some? && Outdated(finalized, stored.value.capturedAtUnixMs, maxGapMs)
    ensures stored.None? ==> plan == Plan(None, [], false)
    ensures stored.Some? && TooOld(finalized, stored.value, maxGapMs) ==> plan == Plan(None, [], true)
    ensures stored.Some? && !TooOld(finalized, stored.value, maxGapMs) ==>
      && plan.snapshot == Some(stored.value.snapshot) && !plan.requiresRebuild
      && plan.replayEvents == Retain(ring.index, Above(stored.value.snapshot.eventSeqHi))
      && InOrder(plan.replayEvents)
      && multiset(plan.replayEvents) <= multiset(ring.events)
      && forall e :: e in plan.replayEvents <==> e in ring.events && e.seqId > stored.value.snapshot.eventSeqHi
  {
    if stored.None? {
      return Plan(None, [], false);
    }
    TooOldIff(finalized, stored.value, maxGapMs);
    if TooOld(finalized, stored.value, maxGapMs) {
      return Plan(None, [], true);
    }
    var watermark := stored.value.snapshot.eventSeqHi;
    var events := ring.ScanEvents(watermark, if |ring.index| == 0 then 1 else |ring.index|);
    WholeSuffix(ring.index, watermark);
    SameMembers(ring.index, ring.events);
    RetainMembers(ring.index, Above(watermark), |ring.index|);
    return Plan(Some(stored.value.snapshot), events, false);
  }

  lemma WholeSuffix(index: seq<Envelope>, id: U64)
    requires InOrder(index)
    ensures var all := Retain(index, Above(id));
      |all| <= |index| && InOrder(all) && multiset(all) <= multiset(index)
  {
    var p := CursorPosition(index, id);
    SuffixIsAbove(index, id, p, |index|);
    assert index[p..|index|] == index[p..];
    assert index == index[..p] + index[p..];
  }
}
