/**
  Two lifecycle projections of one log: the rows storage derives event by event, and the
  status in the replayed state that the API falls back to when no row is retained.
 */
module Lifecycle {
  import opened Prelude
  import opened SchedulerModel
  import opened EventLog
  import opened Mempool
  import opened LogRefinement
  import opened Tables

  datatype Reason = Text(text: string) | Hash(hash: TxHash) | Block(number: U64, block: BlockHash) | Reopened

  datatype Shown = Shown(status: string, reason: Option<Reason>)

  type StatusRow = Row<Shown>

  const PENDING := "pending"
  const REPLACED := "replaced"
  const DROPPED := "dropped"
  const PROVISIONAL := "confirmed_provisional"
  const FINAL := "confirmed_final"

  /** The row an appended event contributes. */
  function RowOf(p: Payload): Option<StatusRow> {
    match p
    case TxDecoded(tx) => Some(Row(tx.hash, Shown(PENDING, None)))
    case TxDropped(h, reason) => Some(Row(h, Shown(DROPPED, Some(Text(reason)))))
    case TxConfirmedProvisional(h, number, block) => Some(Row(h, Shown(PROVISIONAL, Some(Block(number, block)))))
    case TxConfirmedFinal(h, number, block) => Some(Row(h, Shown(FINAL, Some(Block(number, block)))))
    case TxReplaced(h, newHash) => Some(Row(h, Shown(REPLACED, Some(Hash(newHash)))))
    case TxReorged(h, _, _) => Some(Row(h, Shown(PENDING, Some(Reopened))))
    case _ => None
  }

  /** The rows of the first `i` events, oldest first. */
  function RowsUpTo(log: seq<Payload>, i: nat): seq<StatusRow>
    requires i <= |log|
  {
    if i == 0 then []
    else
      var next := RowOf(log[i - 1]);
      RowsUpTo(log, i - 1) + if next.Some? then [next.value] else []
  }

  /** How the API words a replayed status. */
  function LabelOf(status: Status): (string, Option<Reason>) {
    match status
    case Pending => (PENDING, None)
    case ReplacedBy(newHash) => (REPLACED, Some(Hash(newHash)))
    case Dropped(reason) => (DROPPED, Some(Text(reason)))
    case ConfirmedProvisional(number, block) => (PROVISIONAL, Some(Block(number, block)))
    case ConfirmedFinal(number, block) => (FINAL, Some(Block(number, block)))
  }

  /** A row says the same as a replayed status; only a row mentions that a reorg reopened it. */
  predicate Shows(row: StatusRow, status: Status) {
    && row.value.status == LabelOf(status).0
    && (row.value.reason == LabelOf(status).1 || row.value.reason == Some(Reopened))
  }

  predicate RowAgrees(rows: seq<StatusRow>, m: Pool, h: TxHash) {
    var row := Newest(rows, h);
    row.Some? ==> h in m.txs && Shows(row.value, m.txs[h].status)
  }

  /** Wherever there is a row, its latest one says what the replayed state says. */
  ghost predicate RowsAgree(rows: seq<StatusRow>, m: Pool) {
    forall h :: RowAgrees(rows, m, h)
  }

  // ---------------------------------------------------------------- eviction

  /** Dropping the oldest rows never changes which row is the newest; it can only leave none. */
  lemma {:induction false} EvictionKeepsNewest(rows: seq<StatusRow>, from: nat, h: TxHash)
    requires from <= |rows|
    ensures Newest(rows[from..], h) in {None, Newest(rows, h)}
  {
    if from > 0 {
      EvictionKeepsNewest(rows[1..], from - 1, h);
      assert rows[1..][from - 1..] == rows[from..];
    } else {
      assert rows[0..] == rows;
    }
  }

  // ---------------------------------------------------------------- one event

  function AppendRow(rows: seq<StatusRow>, p: Payload): seq<StatusRow> {
    var next := RowOf(p);
    if next.Some? then rows + [next.value] else rows
  }

  /** The hash a decoded transaction would replace without a replacement event. */
  function SilentlyReplaced(m: Pool, tx: Tx): Option<TxHash> {
    if tx.sender in m.queues && tx.nonce in m.queues[tx.sender] && m.queues[tx.sender][tx.nonce] != tx.hash
       && m.queues[tx.sender][tx.nonce] in m.txs then Some(m.queues[tx.sender][tx.nonce])
    else None
  }

  /** When an event keeps the two projections in agreement. */
  predicate KeepsRows(rows: seq<StatusRow>, m: Pool, p: Payload) {
    match p
    case TxDecoded(tx) =>
      var old' := SilentlyReplaced(m, tx);
      old'.Some? && Newest(rows, old'.value).Some? ==> Shows(Newest(rows, old'.value).value, ReplacedBy(tx.hash))
    case TxReplaced(h, _) => h in m.txs
    case TxReady(h, _, _) => Newest(rows, h).Some? ==> Newest(rows, h).value.value.status == PENDING
    case TxBlocked(h, _, _, _) => Newest(rows, h).Some? ==> Newest(rows, h).value.value.status == PENDING
    case TxReorged(h, block, _) => h in m.txs && (m.txs[h].status.Pending? || ConfirmedIn(m.txs[h].status, block))
    case _ => true
  }

  /** The status of every hash after an event, as far as it changes. */
  lemma StatusAfter(m: Pool, p: Payload, h: TxHash)
    ensures var m' := Apply(m, p);
      match p
      case TxDecoded(tx) =>
        if h == tx.hash then h in m'.txs && m'.txs[h].status.Pending?
        else if SilentlyReplaced(m, tx) == Some(h) then h in m'.txs && m'.txs[h].status == ReplacedBy(tx.hash)
        else SameStatus(m, m', h)
      case TxReady(g, _, _) => if h == g then h in m'.txs && m'.txs[h].status.Pending? else SameStatus(m, m', h)
      case TxBlocked(g, _, _, _) => if h == g then h in m'.txs && m'.txs[h].status.Pending? else SameStatus(m, m', h)
      case TxDropped(g, reason) =>
        if h == g then h in m'.txs && m'.txs[h].status == Dropped(reason) else SameStatus(m, m', h)
      case TxConfirmedProvisional(g, number, block) =>
        if h == g then h in m'.txs && m'.txs[h].status == ConfirmedProvisional(number, block) else SameStatus(m, m', h)
      case TxConfirmedFinal(g, number, block) =>
        if h == g then h in m'.txs && m'.txs[h].status == ConfirmedFinal(number, block) else SameStatus(m, m', h)
      case TxReplaced(g, newHash) =>
        if h == g && h in m.txs then h in m'.txs && m'.txs[h].status == ReplacedBy(newHash) else SameStatus(m, m', h)
      case TxReorged(g, block, _) =>
        if h == g && h in m.txs && ConfirmedIn(m.txs[h].status, block) then h in m'.txs && m'.txs[h].status.Pending?
        else SameStatus(m, m', h)
      case _ => m' == m
  {
    hide Recompute;
    match p
    case TxDecoded(tx) =>
      var old' := SilentlyReplaced(m, tx);
      var txs := if old'.Some? then Settle(m.txs, old'.value, ReplacedBy(tx.hash)) else m.txs;
      RecomputeKeepsStatus(Ensure(m.(txs := txs), tx.hash, tx.sender, tx.nonce), tx.sender, h);
    case TxReady(g, s, n) =>
      RecomputeKeepsStatus(Ensure(m, g, s, n), s, h);
    case TxBlocked(g, s, n, _) =>
      RecomputeKeepsStatus(Ensure(m, g, s, n), s, h);
    case TxDropped(g, reason) => SettledStatus(m, g, Dropped(reason), h);
    case TxConfirmedProvisional(g, number, block) => SettledStatus(m, g, ConfirmedProvisional(number, block), h);
    case TxConfirmedFinal(g, number, block) => SettledStatus(m, g, ConfirmedFinal(number, block), h);
    case TxReplaced(g, newHash) => SettledStatus(m, g, ReplacedBy(newHash), h);
    case TxReorged(g, block, _) => ReorgedStatus(m, g, block, h);
    case _ =>
  }

  predicate SameStatus(a: Pool, b: Pool, h: TxHash) {
    (h in a.txs <==> h in b.txs) && (h in a.txs ==> b.txs[h].status == a.txs[h].status)
  }

  lemma RecomputeKeepsStatus(m: Pool, s: Address, h: TxHash)
    ensures SameStatus(m, Recompute(m, s), h)
  {
    hide Relabel;
    if s in m.queues {
      RelabelKeeps(m.txs, m.queues[s]);
    }
  }

  lemma SettledStatus(m: Pool, g: TxHash, status: Status, h: TxHash)
    ensures var m' := ApplySettled(m, g, status);
      if h == g then h in m'.txs && m'.txs[h].status == status else SameStatus(m, m', h)
  {
    hide Recompute;
    if g in m.txs && m.txs[g].sender.Some? && m.txs[g].nonce.Some? {
      var s, n := m.txs[g].sender.value, m.txs[g].nonce.value;
      RecomputeKeepsStatus(RemoveEntry(m.(txs := Settle(m.txs, g, status)), g, s, n), s, h);
    }
  }

  lemma ReorgedStatus(m: Pool, g: TxHash, block: BlockHash, h: TxHash)
    ensures var m' := ApplyReorged(m, g, block);
      if h == g && h in m.txs && ConfirmedIn(m.txs[h].status, block) then h in m'.txs && m'.txs[h].status.Pending?
      else SameStatus(m, m', h)
  {
    hide Recompute;
    if g in m.txs && ConfirmedIn(m.txs[g].status, block) && m.txs[g].sender.Some? && m.txs[g].nonce.Some? {
      var s, n := m.txs[g].sender.value, m.txs[g].nonce.value;
      RecomputeKeepsStatus(Ensure(m.(txs := m.txs[g := m.txs[g].(status := Pending)]), g, s, n), s, h);
    }
  }

  /** Exactly when one event keeps the projections in agreement. */
  lemma StepKeepsRowsIff(rows: seq<StatusRow>, m: Pool, p: Payload)
    requires RowsAgree(rows, m)
    ensures RowsAgree(AppendRow(rows, p), Apply(m, p)) <==> KeepsRows(rows, m, p)
  {
    hide Apply, RowsAgree;
    var rows', m' := AppendRow(rows, p), Apply(m, p);
    if KeepsRows(rows, m, p) {
      forall h ensures RowAgrees(rows', m', h) {
        StepKeepsRow(rows, m, p, h);
      }
      AgreeEverywhere(rows', m');
    }
    if RowsAgree(rows', m') {
      RowsHaveToBeKept(rows, m, p);
    }
  }

  lemma AgreeEverywhere(rows: seq<StatusRow>, m: Pool)
    requires forall h :: RowAgrees(rows, m, h)
    ensures RowsAgree(rows, m)
  {
  }

  lemma StepKeepsRow(rows: seq<StatusRow>, m: Pool, p: Payload, h: TxHash)
    requires RowsAgree(rows, m) && KeepsRows(rows, m, p)
    ensures RowAgrees(AppendRow(rows, p), Apply(m, p), h)
  {
    hide Apply;
    assert RowAgrees(rows, m, h);
    StatusAfter(m, p, h);
    if RowOf(p).Some? {
      AppendedRow(rows, RowOf(p).value, h);
    }
  }

  lemma RowsHaveToBeKept(rows: seq<StatusRow>, m: Pool, p: Payload)
    requires RowsAgree(rows, m) && RowsAgree(AppendRow(rows, p), Apply(m, p))
    ensures KeepsRows(rows, m, p)
  {
    hide Apply;
    var h :=
      if p.TxDecoded? && SilentlyReplaced(m, p.tx).Some? then SilentlyReplaced(m, p.tx).value else p.PrimaryHash();
    assert RowAgrees(rows, m, h) && RowAgrees(AppendRow(rows, p), Apply(m, p), h);
    StatusAfter(m, p, h);
    if RowOf(p).Some? {
      AppendedRow(rows, RowOf(p).value, h);
    }
  }

  /** Every hash of the replayed table has a row. */
  ghost predicate RowsCover(rows: seq<StatusRow>, m: Pool) {
    forall h :: h in m.txs ==> Newest(rows, h).Some?
  }

  /** Only a label report can bring a hash into the table that has no row. */
  predicate KeepsCover(rows: seq<StatusRow>, p: Payload) {
    p.TxReady? || p.TxBlocked? ==> Newest(rows, p.hash).Some?
  }

  lemma StepKeepsCoverIff(rows: seq<StatusRow>, m: Pool, p: Payload)
    requires RowsCover(rows, m)
    ensures RowsCover(AppendRow(rows, p), Apply(m, p)) <==> KeepsCover(rows, p)
  {
    hide Apply, Newest, SilentlyReplaced;
    var rows', m' := AppendRow(rows, p), Apply(m, p);
    if KeepsCover(rows, p) {
      forall h | h in m'.txs ensures Newest(rows', h).Some? {
        CoveredAfter(rows, m, p, h);
      }
    } else {
      StatusAfter(m, p, p.hash);
    }
  }

  lemma CoveredAfter(rows: seq<StatusRow>, m: Pool, p: Payload, h: TxHash)
    requires RowsCover(rows, m) && KeepsCover(rows, p) && h in Apply(m, p).txs
    ensures Newest(AppendRow(rows, p), h).Some?
  {
    hide Apply, Newest;
    StatusAfter(m, p, h);
    if RowOf(p).Some? {
      AppendedRow(rows, RowOf(p).value, h);
    }
  }

  // ---------------------------------------------------------------- logs of the admission path

  /** The rows after appending the first `i` events to a table. */
  function AppendRows(rows: seq<StatusRow>, log: seq<Payload>, i: nat): seq<StatusRow>
    requires i <= |log|
  {
    if i == 0 then rows else AppendRow(AppendRows(rows, log, i - 1), log[i - 1])
  }

  lemma {:induction false} RowsOfLog(log: seq<Payload>, i: nat)
    requires i <= |log|
    ensures AppendRows([], log, i) == RowsUpTo(log, i)
  {
    if i > 0 {
      RowsOfLog(log, i - 1);
    }
  }

  lemma {:induction false} AppendConcat(rows: seq<StatusRow>, a: seq<Payload>, b: seq<Payload>, i: nat)
    requires i <= |b|
    ensures AppendRows(rows, a + b, |a| + i) == AppendRows(AppendRows(rows, a, |a|), b, i)
  {
    hide AppendRow;
    if i == 0 {
      AppendPrefix(rows, a, b, |a|);
    } else {
      AppendConcat(rows, a, b, i - 1);
      assert (a + b)[|a| + i - 1] == b[i - 1];
    }
  }

  lemma {:induction false} AppendPrefix(rows: seq<StatusRow>, a: seq<Payload>, b: seq<Payload>, i: nat)
    requires i <= |a|
    ensures AppendRows(rows, a + b, i) == AppendRows(rows, a, i)
  {
    hide AppendRow;
    if i > 0 {
      AppendPrefix(rows, a, b, i - 1);
    }
  }

  lemma {:induction false} NoRows(rows: seq<StatusRow>, log: seq<Payload>, i: nat)
    requires i <= |log| && forall k :: 0 <= k < |log| ==> RowOf(log[k]).None?
    ensures AppendRows(rows, log, i) == rows
  {
    if i > 0 {
      NoRows(rows, log, i - 1);
    }
  }

  lemma {:induction false} TransitionsHaveNoRows(ts: seq<Transition>, i: nat)
    requires i <= |ts|
    ensures forall k :: 0 <= k < |TransitionEvents(ts, i)| ==> RowOf(TransitionEvents(ts, i)[k]).None?
  {
    if i > 0 {
      TransitionsHaveNoRows(ts, i - 1);
    }
  }

  /** Of one admission's events only the decision events leave rows. */
  lemma EmissionRows(rows: seq<StatusRow>, c: ValidCore, tx: Tx, cfg: Config)
    ensures var emission, decision := Emission(c, tx, cfg), DecisionEvents(tx, Decide(c, tx, cfg));
      AppendRows(rows, emission, |emission|) == AppendRows(rows, decision, |decision|)
  {
    hide AppendRow, AppendRows, DecisionEvents, TransitionEvents, Decide, Admit;
    var outcome := AdmitOutcome(c, tx, cfg);
    var quiet := [TxSeen(tx.hash), TxFetched(tx.hash)];
    var decision := DecisionEvents(tx, outcome.admission);
    var follow := TransitionEvents(outcome.transitions, |outcome.transitions|);
    NoRows(rows, quiet, 2);
    AppendConcat(rows, quiet, decision + follow, |decision + follow|);
    AppendConcat(rows, decision, follow, |follow|);
    TransitionsHaveNoRows(outcome.transitions, |outcome.transitions|);
    NoRows(AppendRows(rows, decision, |decision|), follow, |follow|);
  }

  lemma FreeSlotReplacesNobody(c: Core, m: Pool, tx: Tx)
    requires Agrees(c, m) && !Occupied(c, tx.sender, tx.nonce)
    ensures SilentlyReplaced(m, tx).None?
  {
    AgreesQueues(c, m);
  }

  lemma DecisionKeepsRows(rows: seq<StatusRow>, c: ValidCore, m: Pool, tx: Tx, cfg: Config)
    requires Agrees(c, m) && RowsAgree(rows, m)
    ensures var decision := DecisionEvents(tx, Decide(c, tx, cfg));
      RowsAgree(AppendRows(rows, decision, |decision|), ReplayAll(m, decision))
  {
    hide Agrees, RowsAgree, ApplyDecoded, ApplySettled, AppendRow, SilentlyReplaced, Newest, Admit;
    AgreesBijective(c, m);
    var decision := DecisionEvents(tx, Decide(c, tx, cfg));
    match Decide(c, tx, cfg)
    case Duplicate =>
    case Admitted =>
      ReplayOne(m, decision);
      FreeSlotReplacesNobody(c, m, tx);
      StepKeepsRowsIff(rows, m, decision[0]);
      assert AppendRows(rows, decision, 0) == rows;
    case Replaced(incumbent) =>
      ReplaceKeepsRows(rows, c, m, tx, cfg);
    case _ =>
      ReplayOne(m, decision);
      StepKeepsRowsIff(rows, m, decision[0]);
      assert AppendRows(rows, decision, 0) == rows;
  }

  lemma ReplaceKeepsRows(rows: seq<StatusRow>, c: ValidCore, m: Pool, tx: Tx, cfg: Config)
    requires Agrees(c, m) && RowsAgree(rows, m) && Decide(c, tx, cfg).Replaced?
    ensures var decision := DecisionEvents(tx, Decide(c, tx, cfg));
      RowsAgree(AppendRows(rows, decision, 2), ReplayAll(m, decision))
  {
    hide Agrees, RowsAgree, ApplyDecoded, ApplySettled, AppendRow, SilentlyReplaced, Newest, Admit, Evict, Put;
    AgreesBijective(c, m);
    var incumbent := Decide(c, tx, cfg).replacedHash;
    var decision := DecisionEvents(tx, Decide(c, tx, cfg));
    ReplayTwo(m, decision);
    ReplaceIsEvictAndPut(c, tx, cfg);
    KnownToPool(c, m, incumbent);
    SettledEvicts(c, m, incumbent, ReplacedBy(tx.hash));
    StepKeepsRowsIff(rows, m, decision[0]);
    var m1 := Apply(m, decision[0]);
    FreeSlotReplacesNobody(Evict(c, incumbent), m1, tx);
    StepKeepsRowsIff(AppendRow(rows, decision[0]), m1, decision[1]);
    assert AppendRows(rows, decision, 0) == rows;
    assert AppendRows(rows, decision, 1) == AppendRow(rows, decision[0]);
    assert AppendRows(rows, decision, 2) == AppendRow(AppendRows(rows, decision, 1), decision[1]);
  }

  lemma EmissionKeepsRows(rows: seq<StatusRow>, c: ValidCore, m: Pool, tx: Tx, cfg: Config)
    requires Agrees(c, m) && RowsAgree(rows, m)
    ensures var emission := Emission(c, tx, cfg);
      RowsAgree(AppendRows(rows, emission, |emission|), ReplayAll(m, emission))
  {
    hide Agrees, RowsAgree, Emission, AppendRows, Replay, DecisionEvents, Decide;
    EmissionIsDecision(c, m, tx, cfg);
    EmissionRows(rows, c, tx, cfg);
    DecisionKeepsRows(rows, c, m, tx, cfg);
  }

  lemma {:induction false} LogKeepsRows(txs: seq<Tx>, cfg: Config, i: nat)
    requires i <= |txs|
    ensures var log := Log(EMPTY, txs, i, cfg); RowsAgree(AppendRows([], log, |log|), ReplayAll(EMPTY_POOL, log))
  {
    hide Agrees, RowsAgree, Emission, AppendRow, Apply, Admit;
    if i == 0 {
      NothingDisagrees(EMPTY_POOL);
    } else {
      LogKeepsRows(txs, cfg, i - 1);
      EmptyAgrees();
      LogKeepsAgreement(EMPTY, EMPTY_POOL, txs, i - 1, cfg);
      var c, earlier := Run(EMPTY, txs, i - 1, cfg), Log(EMPTY, txs, i - 1, cfg);
      var m, rows := ReplayAll(EMPTY_POOL, earlier), AppendRows([], earlier, |earlier|);
      var emission := Emission(c, txs[i - 1], cfg);
      ReplayConcat(EMPTY_POOL, earlier, emission, |emission|);
      AppendConcat([], earlier, emission, |emission|);
      EmissionKeepsRows(rows, c, m, txs[i - 1], cfg);
    }
  }

  lemma {:induction false} ReplayKeepsCover(rows: seq<StatusRow>, m: Pool, events: seq<Payload>, i: nat)
    requires i <= |events| && RowsCover(rows, m)
    requires forall k :: 0 <= k < |events| ==> !events[k].TxReady? && !events[k].TxBlocked?
    ensures RowsCover(AppendRows(rows, events, i), Replay(m, events, i))
  {
    hide RowsCover, AppendRow, Apply;
    if i > 0 {
      ReplayKeepsCover(rows, m, events, i - 1);
      StepKeepsCoverIff(AppendRows(rows, events, i - 1), Replay(m, events, i - 1), events[i - 1]);
    }
  }

  lemma EmissionKeepsCover(rows: seq<StatusRow>, c: ValidCore, m: Pool, tx: Tx, cfg: Config)
    requires Agrees(c, m) && RowsCover(rows, m)
    ensures var emission := Emission(c, tx, cfg);
      RowsCover(AppendRows(rows, emission, |emission|), ReplayAll(m, emission))
  {
    hide Agrees, RowsCover, Emission, AppendRows, Replay, Decide;
    EmissionIsDecision(c, m, tx, cfg);
    EmissionRows(rows, c, tx, cfg);
    var decision := DecisionEvents(tx, Decide(c, tx, cfg));
    ReplayKeepsCover(rows, m, decision, |decision|);
  }

  lemma {:induction false} LogKeepsCover(txs: seq<Tx>, cfg: Config, i: nat)
    requires i <= |txs|
    ensures var log := Log(EMPTY, txs, i, cfg); RowsCover(AppendRows([], log, |log|), ReplayAll(EMPTY_POOL, log))
  {
    hide Agrees, Emission, AppendRow, Apply, Admit;
    if i > 0 {
      LogKeepsCover(txs, cfg, i - 1);
      EmptyAgrees();
      LogKeepsAgreement(EMPTY, EMPTY_POOL, txs, i - 1, cfg);
      var c, earlier := Run(EMPTY, txs, i - 1, cfg), Log(EMPTY, txs, i - 1, cfg);
      var m, rows := ReplayAll(EMPTY_POOL, earlier), AppendRows([], earlier, |earlier|);
      var emission := Emission(c, txs[i - 1], cfg);
      ReplayConcat(EMPTY_POOL, earlier, emission, |emission|);
      AppendConcat([], earlier, emission, |emission|);
      EmissionKeepsCover(rows, c, m, txs[i - 1], cfg);
    }
  }

  lemma NothingDisagrees(m: Pool)
    ensures RowsAgree([], m)
  {
  }

  lemma {:induction false} QuietHasNoRows(rows: seq<StatusRow>, log: seq<Payload>, i: nat)
    requires i <= |log|
    ensures AppendRows(rows, log, i) == AppendRows(rows, LoudUpTo(log, i), |LoudUpTo(log, i)|)
  {
    if i > 0 {
      QuietHasNoRows(rows, log, i - 1);
      var earlier := LoudUpTo(log, i - 1);
      if Quiet(log[i - 1]) {
        assert LoudUpTo(log, i) == earlier;
      } else {
        AppendConcat(rows, earlier, [log[i - 1]], 1);
        assert AppendRows(AppendRows(rows, earlier, |earlier|), [log[i - 1]], 0) ==
          AppendRows(rows, earlier, |earlier|);
      }
    }
  }

  /**
    For every log of the admission path, with any downstream events mixed in and however
    many of the oldest rows were evicted: the latest retained row of a hash says what the
    replayed state says of it. A hash had a row at all exactly when the replayed state has it.
   */
  lemma ProjectionsAgree(txs: seq<Tx>, cfg: Config, log: seq<Payload>, evicted: nat, h: TxHash)
    requires Loud(log) == Loud(Log(EMPTY, txs, |txs|, cfg))
    requires evicted <= |RowsUpTo(log, |log|)|
    ensures RowAgrees(RowsUpTo(log, |log|)[evicted..], ReplayAll(EMPTY_POOL, log), h)
    ensures Newest(RowsUpTo(log, |log|), h).Some? <==> h in ReplayAll(EMPTY_POOL, log).txs
  {
    hide Apply, LoudUpTo, Log, AppendRows, RowsUpTo, Replay, Newest;
    var recorded, rows := Log(EMPTY, txs, |txs|, cfg), RowsUpTo(log, |log|);
    LogKeepsRows(txs, cfg, |txs|);
    LogKeepsCover(txs, cfg, |txs|);
    QuietEventsIgnored(EMPTY_POOL, recorded, |recorded|);
    QuietEventsIgnored(EMPTY_POOL, log, |log|);
    QuietHasNoRows([], recorded, |recorded|);
    QuietHasNoRows([], log, |log|);
    RowsOfLog(log, |log|);
    EvictionKeepsNewest(rows, evicted, h);
    assert RowAgrees(rows, ReplayAll(EMPTY_POOL, log), h);
  }

  // ---------------------------------------------------------------- the wording of both projections

  /**
    What each event makes storage and API say of its hash, word by word: a row's status and
    reason, and the replayed status as it is worded when no row is retained. They differ
    only in that a row remembers that a reorg reopened its hash.
   */
  lemma WordedAs(m: Pool, p: Payload)
    ensures var m', row, h := Apply(m, p), RowOf(p), p.PrimaryHash();
      match p
      case TxDecoded(tx) =>
        row == Some(Row(h, Shown("pending", None))) && h in m'.txs && LabelOf(m'.txs[h].status) == ("pending", None)
      case TxDropped(_, reason) =>
        && row == Some(Row(h, Shown("dropped", Some(Text(reason)))))
        && h in m'.txs && LabelOf(m'.txs[h].status) == ("dropped", Some(Text(reason)))
      case TxReplaced(_, newHash) =>
        && row == Some(Row(h, Shown("replaced", Some(Hash(newHash)))))
        && (h in m.txs ==> h in m'.txs && LabelOf(m'.txs[h].status) == ("replaced", Some(Hash(newHash))))
      case TxConfirmedProvisional(_, number, block) =>
        && row == Some(Row(h, Shown("confirmed_provisional", Some(Block(number, block)))))
        && h in m'.txs && LabelOf(m'.txs[h].status) == ("confirmed_provisional", Some(Block(number, block)))
      case TxConfirmedFinal(_, number, block) =>
        && row == Some(Row(h, Shown("confirmed_final", Some(Block(number, block)))))
        && h in m'.txs && LabelOf(m'.txs[h].status) == ("confirmed_final", Some(Block(number, block)))
      case TxReorged(_, block, _) =>
        && row == Some(Row(h, Shown("pending", Some(Reopened))))
        && (h in m.txs && ConfirmedIn(m.txs[h].status, block) ==>
              h in m'.txs && LabelOf(m'.txs[h].status) == ("pending", None))
      case _ => row == None
  {
    hide Apply;
    StatusAfter(m, p, p.PrimaryHash());
  }
}
