/**
  What the assembly engine accepts, refuses and counts, read off the candidates' fields and
  exact sums.
 */
module AssemblyLaws {
  import opened Prelude
  import opened Lists
  import opened Assembly

  predicate Shares(a: Candidate, b: Candidate) {
    exists h :: h in a.txHashes && h in b.txHashes
  }

  /** The candidates that share no transaction with `c`, in order. */
  function Beside(cs: seq<Candidate>, c: Candidate): seq<Candidate> {
    if cs == [] then []
    else
      var n := |cs| - 1;
      Beside(cs[..n], c) + if Shares(cs[n], c) then [] else [cs[n]]
  }

  /** The ids of those that share one, in order. */
  function IdsAgainst(cs: seq<Candidate>, c: Candidate): seq<nat> {
    if cs == [] then []
    else
      var n := |cs| - 1;
      IdsAgainst(cs[..n], c) + if Shares(cs[n], c) then [cs[n].id] else []
  }

  /** Their exact total score. */
  function ScoreAgainst(cs: seq<Candidate>, c: Candidate): nat {
    if cs == [] then 0
    else
      var n := |cs| - 1;
      ScoreAgainst(cs[..n], c) + if Shares(cs[n], c) then cs[n].priorityScore else 0
  }

  function TotalScore(cs: seq<Candidate>): nat {
    if cs == [] then 0 else TotalScore(cs[..|cs| - 1]) + cs[|cs| - 1].priorityScore
  }

  function TotalGas(cs: seq<Candidate>): nat {
    if cs == [] then 0 else TotalGas(cs[..|cs| - 1]) + cs[|cs| - 1].gasUsed
  }

  // ---------------------------------------------------------------- the engine's sums are the exact ones

  lemma {:induction false} SumsAreTotals(cs: seq<Candidate>)
    ensures Sum(cs, Score()) == TotalScore(cs) && Sum(cs, Gas()) == TotalGas(cs)
  {
    if cs != [] {
      var n := |cs| - 1;
      SumsAreTotals(cs[..n]);
      SumAppend(cs[..n], cs[n], Score());
      SumAppend(cs[..n], cs[n], Gas());
      assert cs[..n] + [cs[n]] == cs;
    }
  }

  lemma {:induction false} RetainFront(cs: seq<Candidate>, keep: Candidate -> bool, n: nat, i: nat)
    requires i <= n <= |cs|
    ensures RetainUpTo(cs[..n], keep, i) == RetainUpTo(cs, keep, i)
  {
    if i > 0 {
      RetainFront(cs, keep, n, i - 1);
    }
  }

  lemma RetainLast(cs: seq<Candidate>, keep: Candidate -> bool)
    requires cs != []
    ensures var n := |cs| - 1; Retain(cs, keep) == Retain(cs[..n], keep) + if keep(cs[n]) then [cs[n]] else []
  {
    RetainFront(cs, keep, |cs| - 1, |cs| - 1);
  }

  lemma IdsAppend(cs: seq<Candidate>, c: Candidate)
    ensures Ids(cs + [c]) == Ids(cs) + [c.id]
  {
  }

  lemma {:induction false} MissesAreBeside(cs: seq<Candidate>, c: Candidate)
    ensures Retain(cs, Misses(c)) == Beside(cs, c)
  {
    if cs != [] {
      MissesAreBeside(cs[..|cs| - 1], c);
      RetainLast(cs, Misses(c));
    }
  }

  lemma {:induction false} HitsAreAgainst(cs: seq<Candidate>, c: Candidate)
    ensures Ids(Retain(cs, Hits(c))) == IdsAgainst(cs, c)
    ensures Sum(Retain(cs, Hits(c)), Score()) == ScoreAgainst(cs, c)
    ensures Retain(cs, Hits(c)) != [] <==> exists k :: 0 <= k < |cs| && Shares(cs[k], c)
  {
    if cs != [] {
      var n := |cs| - 1;
      var earlier := Retain(cs[..n], Hits(c));
      HitsAreAgainst(cs[..n], c);
      RetainLast(cs, Hits(c));
      SumAppend(earlier, cs[n], Score());
      IdsAppend(earlier, cs[n]);
      assert earlier + [] == earlier;
      assert (exists k :: 0 <= k < |cs| && Shares(cs[k], c)) <==>
        Shares(cs[n], c) || exists k :: 0 <= k < n && Shares(cs[..n][k], c);
    }
  }

  // ---------------------------------------------------------------- one insertion

  /** Nothing that shares a transaction with `c` stands in its way: there is none, or `c` outweighs all of it. */
  predicate Outweighs(cs: seq<Candidate>, c: Candidate) {
    (exists k :: 0 <= k < |cs| && Shares(cs[k], c)) ==> c.priorityScore > ScoreAgainst(cs, c)
  }

  /** The gas of what would remain, and its own, is within the limit; the largest limit admits everything. */
  predicate Fits(cs: seq<Candidate>, c: Candidate, limit: U64) {
    limit == U64_MAX || TotalGas(Beside(cs, c)) + c.gasUsed <= limit
  }

  /** Below the largest limit the engine's saturating gas check is the exact one. */
  lemma GasCheckIsExact(e: Engine, limit: U64, c: Candidate)
    requires Sound(e, limit)
    ensures var hit := Retain(e.candidates, Hits(c));
      SaturatingAdd(SaturatingSub(e.metrics.totalGasUsed, Fold(hit, Gas())), c.gasUsed) <= limit <==>
      Fits(e.candidates, c, limit)
  {
    hide RetainUpTo, SumUpTo, FoldUpTo, Conflict, Disjoint, AllApproved, CountersBalance, TotalGas, Beside;
    if limit < U64_MAX {
      var hit, rest := Retain(e.candidates, Hits(c)), Retain(e.candidates, Misses(c));
      SumSplits(e.candidates, c, Gas(), |e.candidates|);
      FoldIsCapped(hit, Gas(), |hit|);
      GasTotalIsExact(e, limit);
      MissesAreBeside(e.candidates, c);
      SumsAreTotals(rest);
    }
  }

  lemma ScoreCheckIsExact(cs: seq<Candidate>, c: Candidate)
    ensures var hit := Retain(cs, Hits(c));
      !(hit != [] && c.priorityScore <= Fold(hit, Score())) <==> Outweighs(cs, c)
  {
    hide RetainUpTo, SumUpTo, FoldUpTo, Conflict, ScoreAgainst, Shares;
    var hit := Retain(cs, Hits(c));
    HitsAreAgainst(cs, c);
    FoldIsCapped(hit, Score(), |hit|);
  }

  /**
    One insertion, exactly: which reason it is refused for, checked in this order, or which
    candidates it replaces and what the set is afterwards.
   */
  lemma InsertionIs(e: Engine, limit: U64, c: Candidate)
    requires Sound(e, limit)
    ensures var cs, d, e' := e.candidates, Judge(e, limit, c), Insert(e, limit, c);
      if !c.approved then d == Rejected(c.id, SimulationNotApproved) && e'.candidates == cs
      else if !Outweighs(cs, c) then d == Rejected(c.id, ObjectiveNotImproved) && e'.candidates == cs
      else if !Fits(cs, c, limit) then d == Rejected(c.id, BlockGasLimitExceeded) && e'.candidates == cs
      else d == Inserted(c.id, IdsAgainst(cs, c)) && e'.candidates == Beside(cs, c) + [c]
  {
    hide RetainUpTo, FoldUpTo, Sound, Outweighs, Fits;
    GasCheckIsExact(e, limit, c);
    ScoreCheckIsExact(e.candidates, c);
    HitsAreAgainst(e.candidates, c);
    MissesAreBeside(e.candidates, c);
  }

  /** A candidate that is not in the set gets in exactly when it is approved, outweighs its rivals and fits. */
  lemma TakenIff(e: Engine, limit: U64, c: Candidate)
    requires Sound(e, limit) && c !in e.candidates
    ensures c in Insert(e, limit, c).candidates <==>
      c.approved && Outweighs(e.candidates, c) && Fits(e.candidates, c, limit)
  {
    hide Sound, Outweighs, Fits, Insert, Judge, Beside;
    InsertionIs(e, limit, c);
  }

  /** Removal takes out the first candidate with the id, and changes nothing if there is none. */
  lemma RemovalIs(e: Engine, id: nat, p: nat)
    requires p <= |e.candidates| && forall q :: 0 <= q < p ==> e.candidates[q].id != id
    requires p < |e.candidates| ==> e.candidates[p].id == id
    ensures p == |e.candidates| ==> Remove(e, id) == e
    ensures p < |e.candidates| ==> Remove(e, id).candidates == e.candidates[..p] + e.candidates[p + 1..]
  {
    FirstPosition(e.candidates, id, p, |e.candidates|);
  }

  // ---------------------------------------------------------------- over runs

  /** Safety over every run, in the candidates' own fields. */
  lemma RunsStaySafe(limit: U64, cmds: seq<Command>, k: nat)
    requires k <= |cmds|
    ensures var e := Exec(limit, cmds, k);
      && (forall i, j, h :: 0 <= i < j < |e.candidates| && h in e.candidates[i].txHashes ==>
            h !in e.candidates[j].txHashes)
      && (forall i :: 0 <= i < |e.candidates| ==> e.candidates[i].approved)
      && (limit < U64_MAX ==> e.metrics.totalGasUsed == TotalGas(e.candidates) <= limit)
      && (TotalScore(e.candidates) <= U64_MAX ==> e.metrics.totalPriorityScore == TotalScore(e.candidates))
      && e.metrics.active == |e.candidates|
  {
    hide SumUpTo, FoldUpTo, TotalGas, TotalScore, Exec;
    var e := Exec(limit, cmds, k);
    RunsStaySound(limit, cmds, k);
    SumsAreTotals(e.candidates);
    FoldIsCapped(e.candidates, Score(), |e.candidates|);
    FoldIsCapped(e.candidates, Gas(), |e.candidates|);
    forall i, j, h | 0 <= i < j < |e.candidates| && h in e.candidates[i].txHashes
      ensures h !in e.candidates[j].txHashes
    {
      assert !Conflict(e.candidates[i], e.candidates[j]);
    }
  }

  /** Command `j` of the run inserted its candidate. */
  predicate InsertsAt(limit: U64, cmds: seq<Command>, j: nat)
    requires j < |cmds|
  {
    cmds[j].InsertCandidate? && Judge(Exec(limit, cmds, j), limit, cmds[j].candidate).Inserted?
  }

  /** Command `j` of the run was an insertion refused for the reason. */
  predicate RefusesAt(limit: U64, cmds: seq<Command>, j: nat, reason: RejectionReason)
    requires j < |cmds|
  {
    cmds[j].InsertCandidate? &&
    Judge(Exec(limit, cmds, j), limit, cmds[j].candidate) == Rejected(cmds[j].candidate.id, reason)
  }

  /** Command `j` of the run removed a candidate. */
  predicate RemovesAt(limit: U64, cmds: seq<Command>, j: nat)
    requires j < |cmds|
  {
    cmds[j].RemoveCandidate? && exists c :: c in Exec(limit, cmds, j).candidates && c.id == cmds[j].id
  }

  function Inserting(limit: U64, cmds: seq<Command>, k: nat): set<nat>
    requires k <= |cmds|
  {
    set j: nat | j < k && InsertsAt(limit, cmds, j)
  }

  function Refusing(limit: U64, cmds: seq<Command>, k: nat, reason: RejectionReason): set<nat>
    requires k <= |cmds|
  {
    set j: nat | j < k && RefusesAt(limit, cmds, j, reason)
  }

  function Removing(limit: U64, cmds: seq<Command>, k: nat): set<nat>
    requires k <= |cmds|
  {
    set j: nat | j < k && RemovesAt(limit, cmds, j)
  }

  /** Each counter is the number of commands of its kind. */
  ghost predicate Counted(limit: U64, cmds: seq<Command>, k: nat)
    requires k <= |cmds|
  {
    var m := Exec(limit, cmds, k).metrics;
    && m.inserted == |Inserting(limit, cmds, k)|
    && m.rollback == |Removing(limit, cmds, k)|
    && m.rejectedNotApproved == |Refusing(limit, cmds, k, SimulationNotApproved)|
    && m.rejectedNotImproved == |Refusing(limit, cmds, k, ObjectiveNotImproved)|
    && m.rejectedGasLimit == |Refusing(limit, cmds, k, BlockGasLimitExceeded)|
    && m.rejected == m.rejectedNotApproved + m.rejectedNotImproved + m.rejectedGasLimit
  }

  lemma GrownByOne(small: set<nat>, big: set<nat>, k: nat, added: bool)
    requires k !in small && forall j: nat :: j in big <==> j in small || (added && j == k)
    ensures |big| == |small| + if added then 1 else 0
  {
    assert big == small + if added then {k} else {};
  }

  lemma OneMoreInserting(limit: U64, cmds: seq<Command>, k: nat)
    requires k < |cmds|
    ensures |Inserting(limit, cmds, k + 1)| == |Inserting(limit, cmds, k)| + if InsertsAt(limit, cmds, k) then 1 else 0
  {
    hide InsertsAt;
    GrownByOne(Inserting(limit, cmds, k), Inserting(limit, cmds, k + 1), k, InsertsAt(limit, cmds, k));
  }

  lemma OneMoreRemoving(limit: U64, cmds: seq<Command>, k: nat)
    requires k < |cmds|
    ensures |Removing(limit, cmds, k + 1)| == |Removing(limit, cmds, k)| + if RemovesAt(limit, cmds, k) then 1 else 0
  {
    hide RemovesAt;
    GrownByOne(Removing(limit, cmds, k), Removing(limit, cmds, k + 1), k, RemovesAt(limit, cmds, k));
  }

  lemma OneMoreRefusing(limit: U64, cmds: seq<Command>, k: nat, reason: RejectionReason)
    requires k < |cmds|
    ensures |Refusing(limit, cmds, k + 1, reason)| ==
      |Refusing(limit, cmds, k, reason)| + if RefusesAt(limit, cmds, k, reason) then 1 else 0
  {
    hide RefusesAt;
    GrownByOne(Refusing(limit, cmds, k, reason), Refusing(limit, cmds, k + 1, reason), k,
               RefusesAt(limit, cmds, k, reason));
  }

  /** What one command adds to the counters, as long as none of them is at its largest value. */
  lemma CommandCounts(limit: U64, cmds: seq<Command>, k: nat)
    requires k < |cmds|
    requires var m := Exec(limit, cmds, k).metrics; m.inserted + m.rollback + m.rejected < U64_MAX
    requires var m := Exec(limit, cmds, k).metrics;
      m.rejected == m.rejectedNotApproved + m.rejectedNotImproved + m.rejectedGasLimit
    ensures var m, m' := Exec(limit, cmds, k).metrics, Exec(limit, cmds, k + 1).metrics;
      && m'.inserted == m.inserted + (if InsertsAt(limit, cmds, k) then 1 else 0)
      && m'.rollback == m.rollback + (if RemovesAt(limit, cmds, k) then 1 else 0)
      && m'.rejectedNotApproved ==
         m.rejectedNotApproved + (if RefusesAt(limit, cmds, k, SimulationNotApproved) then 1 else 0)
      && m'.rejectedNotImproved ==
         m.rejectedNotImproved + (if RefusesAt(limit, cmds, k, ObjectiveNotImproved) then 1 else 0)
      && m'.rejectedGasLimit ==
         m.rejectedGasLimit + (if RefusesAt(limit, cmds, k, BlockGasLimitExceeded) then 1 else 0)
      && m'.rejected == m'.rejectedNotApproved + m'.rejectedNotImproved + m'.rejectedGasLimit
  {
    hide RetainUpTo, FoldUpTo;
    var e := Exec(limit, cmds, k);
    if cmds[k].RemoveCandidate? {
      var p := PositionUpTo(e.candidates, cmds[k].id, |e.candidates|);
      FoundIff(e.candidates, cmds[k].id, |e.candidates|);
    }
  }

  lemma {:induction false} FoundIff(cs: seq<Candidate>, id: nat, i: nat)
    requires i <= |cs|
    ensures PositionUpTo(cs, id, i) < i <==> exists q :: 0 <= q < i && cs[q].id == id
  {
    if i > 0 {
      FoundIff(cs, id, i - 1);
    }
  }

  /** Over every run each counter is the number of commands of its kind, refusals reason by reason. */
  lemma {:induction false} CountersAreCounts(limit: U64, cmds: seq<Command>, k: nat)
    requires k <= |cmds| <= U64_MAX
    ensures Counted(limit, cmds, k)
    ensures var m := Exec(limit, cmds, k).metrics; m.inserted + m.rollback + m.rejected <= k
  {
    hide Insert, Remove, InsertsAt, RemovesAt, RefusesAt, Inserting, Removing, Refusing;
    if k == 0 {
      NothingCounted(limit, cmds);
    } else {
      CountersAreCounts(limit, cmds, k - 1);
      CommandCounts(limit, cmds, k - 1);
      OneMoreInserting(limit, cmds, k - 1);
      OneMoreRemoving(limit, cmds, k - 1);
      OneMoreRefusing(limit, cmds, k - 1, SimulationNotApproved);
      OneMoreRefusing(limit, cmds, k - 1, ObjectiveNotImproved);
      OneMoreRefusing(limit, cmds, k - 1, BlockGasLimitExceeded);
      OneKind(limit, cmds, k - 1);
    }
  }

  lemma OneKind(limit: U64, cmds: seq<Command>, k: nat)
    requires k < |cmds|
    ensures
      (if InsertsAt(limit, cmds, k) then 1 else 0) + (if RemovesAt(limit, cmds, k) then 1 else 0) +
      (if RefusesAt(limit, cmds, k, SimulationNotApproved) then 1 else 0) +
      (if RefusesAt(limit, cmds, k, ObjectiveNotImproved) then 1 else 0) +
      (if RefusesAt(limit, cmds, k, BlockGasLimitExceeded) then 1 else 0) <= 1
  {
    hide Judge;
  }

  lemma NothingCounted(limit: U64, cmds: seq<Command>)
    ensures Counted(limit, cmds, 0)
  {
  }
}
