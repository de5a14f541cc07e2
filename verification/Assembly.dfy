/**
  The block assembly engine: an incremental candidate set without shared transactions,
  kept under a gas limit and only ever exchanged for a higher score.
 */
module Assembly {
  import opened Prelude
  import opened Lists

  datatype Candidate = Candidate(id: nat, txHashes: seq<TxHash>, priorityScore: U32, gasUsed: U64, approved: bool)

  datatype RejectionReason = SimulationNotApproved | ObjectiveNotImproved | BlockGasLimitExceeded

  datatype Decision =
    | Inserted(id: nat, replacedIds: seq<nat>)
    | Rejected(id: nat, reason: RejectionReason)

  datatype Rollback = RolledBack(id: nat) | NotFound(id: nat)

  datatype Metrics = Metrics(
    inserted: U64, replaced: U64, rejected: U64, rejectedNotApproved: U64, rejectedNotImproved: U64,
    rejectedGasLimit: U64, rollback: U64, active: nat, totalPriorityScore: U64, totalGasUsed: U64)

  datatype Engine = Engine(candidates: seq<Candidate>, metrics: Metrics)

  const NO_METRICS := Metrics(0, 0, 0, 0, 0, 0, 0, 0, 0, 0)
  const EMPTY_ENGINE := Engine([], NO_METRICS)

  /** Two candidates share a transaction. */
  predicate Conflict(a: Candidate, b: Candidate) {
    exists h :: h in a.txHashes && h in b.txHashes
  }

  function Hits(c: Candidate): Candidate -> bool {
    (existing: Candidate) => Conflict(existing, c)
  }

  function Misses(c: Candidate): Candidate -> bool {
    (existing: Candidate) => !Conflict(existing, c)
  }

  function Score(): Candidate -> U64 {
    (c: Candidate) => c.priorityScore
  }

  function Gas(): Candidate -> U64 {
    (c: Candidate) => c.gasUsed
  }

  function Ids(cs: seq<Candidate>): seq<nat> {
    seq(|cs|, i requires 0 <= i < |cs| => cs[i].id)
  }

  /** The exact sum over the first `i` candidates. */
  function SumUpTo(cs: seq<Candidate>, weight: Candidate -> U64, i: nat): nat
    requires i <= |cs|
  {
    if i == 0 then 0 else SumUpTo(cs, weight, i - 1) + weight(cs[i - 1])
  }

  function Sum(cs: seq<Candidate>, weight: Candidate -> U64): nat {
    SumUpTo(cs, weight, |cs|)
  }

  /** The fold the code computes, with saturating additions. */
  function FoldUpTo(cs: seq<Candidate>, weight: Candidate -> U64, i: nat): U64
    requires i <= |cs|
  {
    if i == 0 then 0 else SaturatingAdd(FoldUpTo(cs, weight, i - 1), weight(cs[i - 1]))
  }

  function Fold(cs: seq<Candidate>, weight: Candidate -> U64): U64 {
    FoldUpTo(cs, weight, |cs|)
  }

  // ---------------------------------------------------------------- the two operations

  function Refresh(cs: seq<Candidate>, m: Metrics): Engine {
    Engine(cs, m.(active := |cs|, totalPriorityScore := Fold(cs, Score()), totalGasUsed := Fold(cs, Gas())))
  }

  function CountRejection(m: Metrics, reason: RejectionReason): Metrics {
    var m' := m.(rejected := SaturatingAdd(m.rejected, 1));
    match reason
    case SimulationNotApproved => m'.(rejectedNotApproved := SaturatingAdd(m.rejectedNotApproved, 1))
    case ObjectiveNotImproved => m'.(rejectedNotImproved := SaturatingAdd(m.rejectedNotImproved, 1))
    case BlockGasLimitExceeded => m'.(rejectedGasLimit := SaturatingAdd(m.rejectedGasLimit, 1))
  }

  function Judge(e: Engine, limit: U64, c: Candidate): Decision {
    var hit := Retain(e.candidates, Hits(c));
    if !c.approved then Rejected(c.id, SimulationNotApproved)
    else if hit != [] && c.priorityScore <= Fold(hit, Score()) then Rejected(c.id, ObjectiveNotImproved)
    else if SaturatingAdd(SaturatingSub(e.metrics.totalGasUsed, Fold(hit, Gas())), c.gasUsed) > limit then
      Rejected(c.id, BlockGasLimitExceeded)
    else Inserted(c.id, Ids(hit))
  }

  /** `usize as u64` on the number of replaced candidates. */
  function Truncated(n: nat): U64 {
    n % (U64_MAX + 1)
  }

  function Insert(e: Engine, limit: U64, c: Candidate): Engine {
    match Judge(e, limit, c)
    case Rejected(_, reason) => e.(metrics := CountRejection(e.metrics, reason))
    case Inserted(_, replacedIds) =>
      Refresh(Retain(e.candidates, Misses(c)) + [c],
              e.metrics.(inserted := SaturatingAdd(e.metrics.inserted, 1),
                         replaced := SaturatingAdd(e.metrics.replaced, Truncated(|replacedIds|))))
  }

  /** The position of the first candidate with an id among the first `i`, or `i`. */
  function PositionUpTo(cs: seq<Candidate>, id: nat, i: nat): (p: nat)
    requires i <= |cs|
    ensures p <= i
  {
    if i == 0 then 0
    else
      var p := PositionUpTo(cs, id, i - 1);
      if p < i - 1 || cs[i - 1].id == id then p else i
  }

  lemma {:induction false} FirstPosition(cs: seq<Candidate>, id: nat, p: nat, i: nat)
    requires p <= |cs| && i <= |cs| && forall k :: 0 <= k < p ==> cs[k].id != id
    requires p < |cs| ==> cs[p].id == id
    ensures PositionUpTo(cs, id, i) == if i <= p then i else p
  {
    if i > 0 {
      FirstPosition(cs, id, p, i - 1);
    }
  }

  function Remove(e: Engine, id: nat): Engine {
    var p := PositionUpTo(e.candidates, id, |e.candidates|);
    if p == |e.candidates| then e
    else
      Refresh(e.candidates[..p] + e.candidates[p + 1..],
              e.metrics.(rollback := SaturatingAdd(e.metrics.rollback, 1)))
  }

  datatype Command = InsertCandidate(candidate: Candidate) | RemoveCandidate(id: nat)

  function Step(e: Engine, limit: U64, cmd: Command): Engine {
    match cmd
    case InsertCandidate(c) => Insert(e, limit, c)
    case RemoveCandidate(id) => Remove(e, id)
  }

  /** The engine after the first `k` commands. */
  function Exec(limit: U64, cmds: seq<Command>, k: nat): Engine
    requires k <= |cmds|
  {
    if k == 0 then EMPTY_ENGINE else Step(Exec(limit, cmds, k - 1), limit, cmds[k - 1])
  }

  // ---------------------------------------------------------------- sums

  /** The fold is the exact sum, capped. */
  lemma {:induction false} FoldIsCapped(cs: seq<Candidate>, weight: Candidate -> U64, i: nat)
    requires i <= |cs|
    ensures FoldUpTo(cs, weight, i) == if SumUpTo(cs, weight, i) <= U64_MAX then SumUpTo(cs, weight, i) else U64_MAX
  {
    if i > 0 {
      FoldIsCapped(cs, weight, i - 1);
    }
  }

  lemma {:induction false} SumPrefix(a: seq<Candidate>, b: seq<Candidate>, weight: Candidate -> U64, i: nat)
    requires i <= |a|
    ensures SumUpTo(a + b, weight, i) == SumUpTo(a, weight, i)
  {
    if i > 0 {
      SumPrefix(a, b, weight, i - 1);
    }
  }

  lemma SumAppend(a: seq<Candidate>, c: Candidate, weight: Candidate -> U64)
    ensures Sum(a + [c], weight) == Sum(a, weight) + weight(c)
  {
    SumPrefix(a, [c], weight, |a|);
  }

  /** Splitting a set by whether it conflicts splits its sums. */
  lemma {:induction false} SumSplits(cs: seq<Candidate>, c: Candidate, weight: Candidate -> U64, i: nat)
    requires i <= |cs|
    ensures SumUpTo(cs, weight, i) ==
      Sum(RetainUpTo(cs, Hits(c), i), weight) + Sum(RetainUpTo(cs, Misses(c), i), weight)
    ensures |RetainUpTo(cs, Hits(c), i)| + |RetainUpTo(cs, Misses(c), i)| == i
  {
    hide Conflict;
    if i > 0 {
      SumSplits(cs, c, weight, i - 1);
      var hit, kept := RetainUpTo(cs, Hits(c), i - 1), RetainUpTo(cs, Misses(c), i - 1);
      if Hits(c)(cs[i - 1]) {
        SumAppend(hit, cs[i - 1], weight);
        assert kept + [] == kept;
      } else {
        SumAppend(kept, cs[i - 1], weight);
        assert hit + [] == hit;
      }
    }
  }

  lemma {:induction false} SumWithout(cs: seq<Candidate>, p: nat, weight: Candidate -> U64, i: nat)
    requires p < i <= |cs|
    ensures SumUpTo(cs, weight, i) == Sum(cs[..p] + cs[p + 1..i], weight) + weight(cs[p])
    decreases i
  {
    var head := cs[..p];
    if i == p + 1 {
      assert head + cs[p + 1..i] == head;
      SumPrefix(head, cs[p..], weight, p);
      assert head + cs[p..] == cs;
    } else {
      SumWithout(cs, p, weight, i - 1);
      SumAppend(head + cs[p + 1..i - 1], cs[i - 1], weight);
      assert head + cs[p + 1..i] == (head + cs[p + 1..i - 1]) + [cs[i - 1]];
    }
  }

  // ---------------------------------------------------------------- what every step keeps

  ghost predicate Disjoint(cs: seq<Candidate>) {
    forall i, j :: 0 <= i < j < |cs| ==> !Conflict(cs[i], cs[j])
  }

  ghost predicate AllApproved(cs: seq<Candidate>) {
    forall i :: 0 <= i < |cs| ==> cs[i].approved
  }

  ghost predicate TotalsCurrent(e: Engine) {
    && e.metrics.active == |e.candidates|
    && e.metrics.totalPriorityScore == Fold(e.candidates, Score())
    && e.metrics.totalGasUsed == Fold(e.candidates, Gas())
  }

  /** Nothing is lost between the counters, until one of them saturates. */
  ghost predicate CountersBalance(e: Engine) {
    && (e.metrics.inserted < U64_MAX ==>
          e.metrics.inserted == e.metrics.replaced + e.metrics.rollback + |e.candidates|)
    && (e.metrics.rejected < U64_MAX ==>
          e.metrics.rejected ==
          e.metrics.rejectedNotApproved + e.metrics.rejectedNotImproved + e.metrics.rejectedGasLimit)
  }

  ghost predicate Sound(e: Engine, limit: U64) {
    && Disjoint(e.candidates)
    && AllApproved(e.candidates)
    && TotalsCurrent(e)
    && CountersBalance(e)
    && (limit < U64_MAX ==> Sum(e.candidates, Gas()) <= limit)
  }

  lemma {:induction false} RetainDisjoint(cs: seq<Candidate>, keep: Candidate -> bool, i: nat)
    requires i <= |cs| && Disjoint(cs)
    ensures Disjoint(RetainUpTo(cs, keep, i))
  {
    hide Conflict;
    if i > 0 {
      RetainDisjoint(cs, keep, i - 1);
      RetainMembers(cs, keep, i - 1);
      var earlier := RetainUpTo(cs, keep, i - 1);
      forall a | 0 <= a < |earlier| ensures !Conflict(earlier[a], cs[i - 1]) {
        assert earlier[a] in earlier;
        var j :| 0 <= j < i - 1 && cs[j] == earlier[a];
      }
    }
  }

  lemma NextSetSound(cs: seq<Candidate>, c: Candidate)
    requires Disjoint(cs) && AllApproved(cs) && c.approved
    ensures Disjoint(Retain(cs, Misses(c)) + [c]) && AllApproved(Retain(cs, Misses(c)) + [c])
  {
    hide Conflict;
    var kept := Retain(cs, Misses(c));
    RetainDisjoint(cs, Misses(c), |cs|);
    RetainMembers(cs, Misses(c), |cs|);
    forall a | 0 <= a < |kept| ensures !Conflict(kept[a], c) && kept[a].approved {
      assert kept[a] in kept;
      assert Misses(c)(kept[a]);
    }
  }

  /** The gas check: within a limit below the top it is exact, because nothing saturates. */
  lemma GasStaysWithin(e: Engine, limit: U64, c: Candidate)
    requires TotalsCurrent(e) && limit < U64_MAX && Sum(e.candidates, Gas()) <= limit
    requires Judge(e, limit, c).Inserted?
    ensures Sum(Retain(e.candidates, Misses(c)) + [c], Gas()) <= limit
  {
    var hit, kept := Retain(e.candidates, Hits(c)), Retain(e.candidates, Misses(c));
    SumSplits(e.candidates, c, Gas(), |e.candidates|);
    SumAppend(kept, c, Gas());
    FoldIsCapped(e.candidates, Gas(), |e.candidates|);
    FoldIsCapped(hit, Gas(), |hit|);
  }

  lemma InsertBalances(e: Engine, limit: U64, c: Candidate)
    requires TotalsCurrent(e) && CountersBalance(e)
    ensures CountersBalance(Insert(e, limit, c))
  {
    hide Conflict, FoldUpTo, RetainUpTo;
    SumSplits(e.candidates, c, Gas(), |e.candidates|);
  }

  lemma InsertKeepsSound(e: Engine, limit: U64, c: Candidate)
    requires Sound(e, limit)
    ensures Sound(Insert(e, limit, c), limit)
  {
    hide Disjoint, AllApproved, CountersBalance, SumUpTo, FoldUpTo, RetainUpTo;
    InsertBalances(e, limit, c);
    if Judge(e, limit, c).Inserted? {
      NextSetSound(e.candidates, c);
      if limit < U64_MAX {
        GasStaysWithin(e, limit, c);
      }
    }
  }

  lemma RemoveKeepsSound(e: Engine, limit: U64, id: nat)
    requires Sound(e, limit)
    ensures Sound(Remove(e, id), limit)
  {
    hide Conflict, FoldUpTo, SumUpTo;
    var cs := e.candidates;
    var p := PositionUpTo(cs, id, |cs|);
    if p < |cs| {
      SumWithout(cs, p, Gas(), |cs|);
      assert cs[p + 1..|cs|] == cs[p + 1..];
    }
  }

  /**
    Over every run of inserts and removals: no two candidates share a transaction, all are
    approved, the cached totals are the folds, the counters balance, and the gas of the
    set is within the limit whenever the limit is below the largest integer.
   */
  lemma {:induction false} RunsStaySound(limit: U64, cmds: seq<Command>, k: nat)
    requires k <= |cmds|
    ensures Sound(Exec(limit, cmds, k), limit)
  {
    hide Sound, Insert, Remove;
    if k == 0 {
      EmptyIsSound(limit);
    } else {
      RunsStaySound(limit, cmds, k - 1);
      var e := Exec(limit, cmds, k - 1);
      match cmds[k - 1]
      case InsertCandidate(c) => InsertKeepsSound(e, limit, c);
      case RemoveCandidate(id) => RemoveKeepsSound(e, limit, id);
    }
  }

  lemma EmptyIsSound(limit: U64)
    ensures Sound(EMPTY_ENGINE, limit)
  {
  }

  /** Below the largest limit the cached gas total is exact: it never saturates. */
  lemma GasTotalIsExact(e: Engine, limit: U64)
    requires Sound(e, limit) && limit < U64_MAX
    ensures e.metrics.totalGasUsed == Sum(e.candidates, Gas()) <= limit
  {
    FoldIsCapped(e.candidates, Gas(), |e.candidates|);
  }

  /** The bound on the limit is needed: with the largest limit two candidates can exceed it. */
  lemma LargestLimitIsExceeded()
    ensures var first, second := Candidate(0, [0], 1, U64_MAX, true), Candidate(1, [1], 1, 1, true);
      Sum(Exec(U64_MAX, [InsertCandidate(first), InsertCandidate(second)], 2).candidates, Gas()) > U64_MAX
  {
    var first, second := Candidate(0, [0], 1, U64_MAX, true), Candidate(1, [1], 1, 1, true);
    var cmds := [InsertCandidate(first), InsertCandidate(second)];
    var e0, e1 := Exec(U64_MAX, cmds, 0), Exec(U64_MAX, cmds, 1);
    assert e1 == Insert(e0, U64_MAX, first);
    assert Retain(e0.candidates, Hits(first)) == [] && Retain(e0.candidates, Misses(first)) == [];
    assert e1.candidates == [first];
    assert !Conflict(first, second);
    assert RetainUpTo([first], Hits(second), 1) == [] && RetainUpTo([first], Misses(second), 1) == [first];
    var e2 := Exec(U64_MAX, cmds, 2);
    assert e2 == Insert(e1, U64_MAX, second);
    assert e2.candidates == [first] + [second];
    SumAppend([first], second, Gas());
    SumAppend([], first, Gas());
    assert [] + [first] == [first];
  }

  /** No insertion lowers the exact total score, and one that replaces anything raises it. */
  lemma InsertNeverLowersScore(e: Engine, limit: U64, c: Candidate)
    ensures Sum(Insert(e, limit, c).candidates, Score()) >= Sum(e.candidates, Score())
    ensures Judge(e, limit, c).Inserted? && Judge(e, limit, c).replacedIds != [] ==>
      Sum(Insert(e, limit, c).candidates, Score()) > Sum(e.candidates, Score())
  {
    var hit, kept := Retain(e.candidates, Hits(c)), Retain(e.candidates, Misses(c));
    SumSplits(e.candidates, c, Score(), |e.candidates|);
    SumAppend(kept, c, Score());
    FoldIsCapped(hit, Score(), |hit|);
    if hit == [] {
      assert Sum(hit, Score()) == 0;
    }
  }
}
