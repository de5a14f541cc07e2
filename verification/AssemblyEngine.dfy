/** The assembly engine as its methods mutate it. */
module AssemblyMachine {
  import opened Prelude
  import opened Lists
  import opened Assembly

  datatype Hit = Hit(index: nat, id: nat, score: U32, gas: U64)

  /** What the filter collects about the conflicting ones among the first `i` candidates. */
  function HitsUpTo(cs: seq<Candidate>, c: Candidate, i: nat): seq<Hit>
    requires i <= |cs|
  {
    if i == 0 then []
    else
      var e := cs[i - 1];
      HitsUpTo(cs, c, i - 1) + if Hits(c)(e) then [Hit(i - 1, e.id, e.priorityScore, e.gasUsed)] else []
  }

  method SharesTransaction(a: Candidate, b: Candidate) returns (shares: bool)
    ensures shares == Conflict(a, b)
  {
    for i := 0 to |a.txHashes|
      invariant forall k :: 0 <= k < i ==> a.txHashes[k] !in b.txHashes
    {
      if a.txHashes[i] in b.txHashes {
        return true;
      }
    }
    return false;
  }

  method FindConflicts(cs: seq<Candidate>, c: Candidate) returns (conflicts: seq<Hit>)
    ensures conflicts == HitsUpTo(cs, c, |cs|)
  {
    conflicts := [];
    for i := 0 to |cs|
      invariant conflicts == HitsUpTo(cs, c, i)
    {
      var e := cs[i];
      var shares := SharesTransaction(e, c);
      if shares {
        conflicts := conflicts + [Hit(i, e.id, e.priorityScore, e.gasUsed)];
      }
    }
  }

  /** What the hits say matches the conflicting candidates themselves. */
  ghost predicate Describes(hits: seq<Hit>, cs: seq<Candidate>) {
    |hits| == |cs| && forall k :: 0 <= k < |hits| ==>
      hits[k].id == cs[k].id && hits[k].score == cs[k].priorityScore && hits[k].gas == cs[k].gasUsed
  }

  /** The hits point at exactly the conflicting positions, in ascending order. */
  ghost predicate PointsAt(hits: seq<Hit>, cs: seq<Candidate>, c: Candidate, i: nat)
    requires i <= |cs|
  {
    && (forall a, b :: 0 <= a < b < |hits| ==> hits[a].index < hits[b].index)
    && (forall k :: 0 <= k < |hits| ==> hits[k].index < i && Hits(c)(cs[hits[k].index]))
    && (forall j :: 0 <= j < i && Hits(c)(cs[j]) ==> exists k :: 0 <= k < |hits| && hits[k].index == j)
  }

  lemma {:induction false} HitsDescribe(cs: seq<Candidate>, c: Candidate, i: nat)
    requires i <= |cs|
    ensures Describes(HitsUpTo(cs, c, i), RetainUpTo(cs, Hits(c), i))
  {
    hide Conflict;
    if i > 0 {
      HitsDescribe(cs, c, i - 1);
    }
  }

  lemma PointsOneMore(hits: seq<Hit>, cs: seq<Candidate>, c: Candidate, i: nat, next: Hit)
    requires 0 < i <= |cs| && PointsAt(hits, cs, c, i - 1) && next.index == i - 1 && Hits(c)(cs[i - 1])
    ensures PointsAt(hits + [next], cs, c, i)
  {
    hide Conflict, Hits;
    var all := hits + [next];
    assert all[|hits|].index == i - 1;
    forall j | 0 <= j < i && Hits(c)(cs[j]) ensures exists k :: 0 <= k < |all| && all[k].index == j {
      if j < i - 1 {
        var k :| 0 <= k < |hits| && hits[k].index == j;
        assert all[k].index == j;
      }
    }
  }

  lemma {:induction false} HitsPoint(cs: seq<Candidate>, c: Candidate, i: nat)
    requires i <= |cs|
    ensures PointsAt(HitsUpTo(cs, c, i), cs, c, i)
  {
    hide Hits;
    if i > 0 {
      HitsPoint(cs, c, i - 1);
      var earlier := HitsUpTo(cs, c, i - 1);
      if Hits(c)(cs[i - 1]) {
        PointsOneMore(earlier, cs, c, i, Hit(i - 1, cs[i - 1].id, cs[i - 1].priorityScore, cs[i - 1].gasUsed));
      } else {
        assert HitsUpTo(cs, c, i) == earlier;
      }
    }
  }

  // ---------------------------------------------------------------- folds over the conflicts

  function ScoreOf(): Hit -> U64 {
    (h: Hit) => h.score
  }

  function GasOf(): Hit -> U64 {
    (h: Hit) => h.gas
  }

  function FoldHits(hits: seq<Hit>, weight: Hit -> U64, i: nat): U64
    requires i <= |hits|
  {
    if i == 0 then 0 else SaturatingAdd(FoldHits(hits, weight, i - 1), weight(hits[i - 1]))
  }

  lemma {:induction false} FoldsAgree(hits: seq<Hit>, cs: seq<Candidate>, i: nat)
    requires Describes(hits, cs) && i <= |hits|
    ensures FoldHits(hits, ScoreOf(), i) == FoldUpTo(cs, Score(), i)
    ensures FoldHits(hits, GasOf(), i) == FoldUpTo(cs, Gas(), i)
  {
    if i > 0 {
      FoldsAgree(hits, cs, i - 1);
    }
  }

  method SumHits(hits: seq<Hit>) returns (score: U64, gas: U64)
    ensures score == FoldHits(hits, ScoreOf(), |hits|) && gas == FoldHits(hits, GasOf(), |hits|)
  {
    score, gas := 0, 0;
    for i := 0 to |hits|
      invariant score == FoldHits(hits, ScoreOf(), i)
    {
      score := SaturatingAdd(score, hits[i].score);
    }
    for i := 0 to |hits|
      invariant gas == FoldHits(hits, GasOf(), i)
    {
      gas := SaturatingAdd(gas, hits[i].gas);
    }
  }

  // ---------------------------------------------------------------- removing from the back

  /** The kept ones among the candidates from `i` on. */
  function KeptFrom(cs: seq<Candidate>, c: Candidate, i: nat): seq<Candidate>
    requires i <= |cs|
    decreases |cs| - i
  {
    if i == |cs| then [] else (if Misses(c)(cs[i]) then [cs[i]] else []) + KeptFrom(cs, c, i + 1)
  }

  lemma {:induction false} KeptSplits(cs: seq<Candidate>, c: Candidate, i: nat)
    requires i <= |cs|
    ensures RetainUpTo(cs, Misses(c), i) + KeptFrom(cs, c, i) == KeptFrom(cs, c, 0)
  {
    hide Conflict;
    if i == 0 {
      assert [] + KeptFrom(cs, c, 0) == KeptFrom(cs, c, 0);
    } else {
      KeptSplits(cs, c, i - 1);
      var earlier, rest := RetainUpTo(cs, Misses(c), i - 1), KeptFrom(cs, c, i);
      if Misses(c)(cs[i - 1]) {
        assert earlier + ([cs[i - 1]] + rest) == (earlier + [cs[i - 1]]) + rest;
      } else {
        assert [] + rest == rest && earlier + [] == earlier;
      }
    }
  }

  /** A stretch without conflicts is kept whole. */
  lemma {:induction false} StretchKept(cs: seq<Candidate>, c: Candidate, a: nat, b: nat)
    requires a <= b <= |cs| && forall j :: a <= j < b ==> Misses(c)(cs[j])
    ensures KeptFrom(cs, c, a) == cs[a..b] + KeptFrom(cs, c, b)
    decreases b - a
  {
    hide Conflict, KeptFrom;
    if a == b {
      assert cs[a..b] + KeptFrom(cs, c, b) == KeptFrom(cs, c, b);
    } else {
      StretchKept(cs, c, a + 1, b);
      HeadKept(cs, c, a);
      assert cs[a..b] == [cs[a]] + cs[a + 1..b];
      Regrouped([cs[a]], cs[a + 1..b], KeptFrom(cs, c, b));
    }
  }

  lemma HeadKept(cs: seq<Candidate>, c: Candidate, a: nat)
    requires a < |cs| && Misses(c)(cs[a])
    ensures KeptFrom(cs, c, a) == [cs[a]] + KeptFrom(cs, c, a + 1)
  {
  }

  lemma Regrouped(x: seq<Candidate>, y: seq<Candidate>, z: seq<Candidate>)
    ensures (x + y) + z == x + (y + z)
  {
  }

  function Boundary(hits: seq<Hit>, cs: seq<Candidate>, j: nat): nat
    requires j <= |hits|
  {
    if j == |hits| then |cs| else hits[j].index
  }

  lemma NoHitAt(cs: seq<Candidate>, c: Candidate, hits: seq<Hit>, j: nat, i: nat)
    requires PointsAt(hits, cs, c, |cs|) && j <= |hits|
    requires (if j == 0 then 0 else hits[j - 1].index + 1) <= i < Boundary(hits, cs, j)
    ensures forall k :: 0 <= k < |hits| ==> hits[k].index != i
  {
    hide Conflict;
    forall k | 0 <= k < |hits| ensures hits[k].index != i {
      if k < j - 1 {
        assert hits[k].index < hits[j - 1].index;
      }
      if j < k {
        assert hits[j].index < hits[k].index;
      }
    }
  }

  lemma BetweenHits(cs: seq<Candidate>, c: Candidate, hits: seq<Hit>, j: nat)
    requires PointsAt(hits, cs, c, |cs|) && j <= |hits|
    ensures var low := if j == 0 then 0 else hits[j - 1].index + 1;
      && low <= Boundary(hits, cs, j) <= |cs|
      && forall i :: low <= i < Boundary(hits, cs, j) ==> Misses(c)(cs[i])
  {
    hide Conflict;
    var low := if j == 0 then 0 else hits[j - 1].index + 1;
    forall i | low <= i < Boundary(hits, cs, j) ensures Misses(c)(cs[i]) {
      NoHitAt(cs, c, hits, j, i);
    }
  }

  lemma RemoveOneMore(cs: seq<Candidate>, c: Candidate, hits: seq<Hit>, j: nat)
    requires PointsAt(hits, cs, c, |cs|) && 0 < j <= |hits|
    requires Boundary(hits, cs, j) <= |cs|
    ensures var p, q := Boundary(hits, cs, j), hits[j - 1].index;
      var r := cs[..p] + KeptFrom(cs, c, p);
      && q < p && q < |r| && r[..q] + r[q + 1..] == cs[..q] + KeptFrom(cs, c, q)
  {
    hide Conflict, PointsAt, KeptFrom;
    var p, q := Boundary(hits, cs, j), hits[j - 1].index;
    BetweenHits(cs, c, hits, j);
    StretchKept(cs, c, q + 1, p);
    HitNotKept(cs, c, hits, j - 1);
    var r := cs[..p] + KeptFrom(cs, c, p);
    assert r[..q] == cs[..q];
    assert r[q + 1..] == cs[q + 1..p] + KeptFrom(cs, c, p);
  }

  lemma HitNotKept(cs: seq<Candidate>, c: Candidate, hits: seq<Hit>, k: nat)
    requires PointsAt(hits, cs, c, |cs|) && k < |hits|
    ensures hits[k].index < |cs| && KeptFrom(cs, c, hits[k].index) == KeptFrom(cs, c, hits[k].index + 1)
  {
    hide Conflict;
    var q := hits[k].index;
    assert Hits(c)(cs[q]) && !Misses(c)(cs[q]);
    assert [] + KeptFrom(cs, c, q + 1) == KeptFrom(cs, c, q + 1);
  }

  /** Removes the conflicting positions from the highest down, so that the lower ones stay valid. */
  method RemoveConflicts(cs: seq<Candidate>, ghost c: Candidate, conflicts: seq<Hit>) returns (r: seq<Candidate>)
    requires conflicts == HitsUpTo(cs, c, |cs|)
    ensures r == Retain(cs, Misses(c))
  {
    hide Conflict, PointsAt, KeptFrom, HitsUpTo;
    HitsPoint(cs, c, |cs|);
    r := cs;
    var j: nat := |conflicts|;
    KeptNothing(cs, c);
    assert cs[..|cs|] + [] == cs;
    while j > 0
      invariant j <= |conflicts| && Boundary(conflicts, cs, j) <= |cs|
      invariant r == cs[..Boundary(conflicts, cs, j)] + KeptFrom(cs, c, Boundary(conflicts, cs, j))
    {
      RemoveOneMore(cs, c, conflicts, j);
      j := j - 1;
      var index := conflicts[j].index;
      r := r[..index] + r[index + 1..];
    }
    BetweenHits(cs, c, conflicts, 0);
    StretchKept(cs, c, 0, Boundary(conflicts, cs, 0));
    assert cs[0..Boundary(conflicts, cs, 0)] == cs[..Boundary(conflicts, cs, 0)];
    KeptSplits(cs, c, |cs|);
    assert Retain(cs, Misses(c)) + [] == Retain(cs, Misses(c));
  }

  lemma KeptNothing(cs: seq<Candidate>, c: Candidate)
    ensures KeptFrom(cs, c, |cs|) == []
  {
  }

  // ---------------------------------------------------------------- the engine

  class AssemblyEngine {
    const blockGasLimit: U64
    var candidates: seq<Candidate>
    var metrics: Metrics

    ghost function Model(): Engine
      reads this
    {
      Engine(candidates, metrics)
    }

    constructor (limit: U64)
      ensures Model() == EMPTY_ENGINE && blockGasLimit == limit
      ensures Sound(Model(), limit)
    {
      blockGasLimit := limit;
      candidates, metrics := [], NO_METRICS;
    }

    method Insert(c: Candidate) returns (decision: Decision)
      requires Sound(Model(), blockGasLimit)
      modifies this
      ensures decision == Judge(old(Model()), blockGasLimit, c)
      ensures Model() == Assembly.Insert(old(Model()), blockGasLimit, c)
      ensures Sound(Model(), blockGasLimit)
    {
      hide Sound, FoldUpTo, RetainUpTo;
      InsertKeepsSound(Model(), blockGasLimit, c);
      if !c.approved {
        decision := Reject(c.id, SimulationNotApproved);
        return;
      }
      var conflicts := FindConflicts(candidates, c);
      var score, gas := SumHits(conflicts);
      HitsDescribe(candidates, c, |candidates|);
      FoldsAgree(conflicts, Retain(candidates, Hits(c)), |conflicts|);
      if conflicts != [] && c.priorityScore <= score {
        decision := Reject(c.id, ObjectiveNotImproved);
        return;
      }
      var nextGasUsed := SaturatingAdd(SaturatingSub(metrics.totalGasUsed, gas), c.gasUsed);
      if nextGasUsed > blockGasLimit {
        decision := Reject(c.id, BlockGasLimitExceeded);
        return;
      }
      var replacedIds := seq(|conflicts|, i requires 0 <= i < |conflicts| => conflicts[i].id);
      assert replacedIds == Ids(Retain(candidates, Hits(c)));
      Replace(c, conflicts);
      decision := Inserted(c.id, replacedIds);
    }

    /** The accepting tail of an insertion. */
    method Replace(c: Candidate, conflicts: seq<Hit>)
      requires conflicts == HitsUpTo(candidates, c, |candidates|)
      modifies this
      ensures Model() ==
        Refresh(old(Retain(candidates, Misses(c))) + [c],
                old(metrics).(inserted := SaturatingAdd(old(metrics).inserted, 1),
                              replaced := SaturatingAdd(old(metrics).replaced, Truncated(|conflicts|))))
    {
      candidates := RemoveConflicts(candidates, c, conflicts);
      candidates := candidates + [c];
      metrics := metrics.(inserted := SaturatingAdd(metrics.inserted, 1));
      metrics := metrics.(replaced := SaturatingAdd(metrics.replaced, Truncated(|conflicts|)));
      RefreshLiveMetrics();
    }

    method Reject(id: nat, reason: RejectionReason) returns (decision: Decision)
      modifies this`metrics
      ensures metrics == CountRejection(old(metrics), reason) && decision == Rejected(id, reason)
    {
      metrics := metrics.(rejected := SaturatingAdd(metrics.rejected, 1));
      match reason {
        case SimulationNotApproved =>
          metrics := metrics.(rejectedNotApproved := SaturatingAdd(metrics.rejectedNotApproved, 1));
        case ObjectiveNotImproved =>
          metrics := metrics.(rejectedNotImproved := SaturatingAdd(metrics.rejectedNotImproved, 1));
        case BlockGasLimitExceeded =>
          metrics := metrics.(rejectedGasLimit := SaturatingAdd(metrics.rejectedGasLimit, 1));
      }
      decision := Rejected(id, reason);
    }

    method RemoveCandidate(id: nat) returns (decision: Rollback)
      requires Sound(Model(), blockGasLimit)
      modifies this
      ensures Model() == Remove(old(Model()), id) && Sound(Model(), blockGasLimit)
      ensures decision == if exists c :: c in old(candidates) && c.id == id then RolledBack(id) else NotFound(id)
    {
      RemoveKeepsSound(Model(), blockGasLimit, id);
      var index := 0;
      while index < |candidates| && candidates[index].id != id
        invariant index <= |candidates| && forall k :: 0 <= k < index ==> candidates[k].id != id
      {
        index := index + 1;
      }
      FirstPosition(candidates, id, index, |candidates|);
      if index == |candidates| {
        return NotFound(id);
      }
      candidates := candidates[..index] + candidates[index + 1..];
      metrics := metrics.(rollback := SaturatingAdd(metrics.rollback, 1));
      RefreshLiveMetrics();
      decision := RolledBack(id);
    }

    method RefreshLiveMetrics()
      modifies this`metrics
      ensures Model() == Refresh(candidates, old(metrics))
    {
      var score: U64, gas: U64 := 0, 0;
      for i := 0 to |candidates|
        invariant score == FoldUpTo(candidates, Score(), i) && gas == FoldUpTo(candidates, Gas(), i)
      {
        score := SaturatingAdd(score, candidates[i].priorityScore);
        gas := SaturatingAdd(gas, candidates[i].gasUsed);
      }
      metrics := metrics.(active := |candidates|, totalPriorityScore := score, totalGasUsed := gas);
    }
  }
}
