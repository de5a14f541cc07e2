/**
  The restart sequence at the level of logged events: the events above the watermark
  sanitise the snapshot and are then re-admitted to the restored state.
 */
module Rehydration {
  import opened Prelude
  import opened Ordered
  import opened NonceGap
  import opened SchedulerModel
  import opened EventLog
  import opened History
  import opened LogRefinement
  import opened Recovery
  import opened Snapshot
  import opened Sanitize
  import opened Lists
  import opened Fees
  import Counting

  // ---------------------------------------------------------------- re-admitting logged transactions

  /** The transactions decoded by the first `i` events. */
  function DecodedUpTo(events: seq<Payload>, i: nat): seq<Tx>
    requires i <= |events|
  {
    if i == 0 then []
    else DecodedUpTo(events, i - 1) + if events[i - 1].TxDecoded? then [events[i - 1].tx] else []
  }

  function DecodedTxs(events: seq<Payload>): seq<Tx> {
    DecodedUpTo(events, |events|)
  }

  /** The state after re-admitting what events `from` to `i` decoded. */
  ghost function Readmit(t: ValidCore, events: seq<Payload>, from: nat, i: nat, cfg: Config): ValidCore
    requires from <= i <= |events|
    decreases i
  {
    if i == from then t
    else
      var earlier := Readmit(t, events, from, i - 1, cfg);
      if events[i - 1].TxDecoded? then
        AdmitKeepsInvariants(earlier, events[i - 1].tx, cfg);
        Admit(earlier, events[i - 1].tx, cfg)
      else earlier
  }

  lemma {:induction false} ReadmitIsRun(t: ValidCore, events: seq<Payload>, i: nat, cfg: Config)
    requires i <= |events|
    ensures Readmit(t, events, 0, i, cfg) == RunAll(t, DecodedUpTo(events, i), cfg)
  {
    hide Admit;
    if i > 0 {
      ReadmitIsRun(t, events, i - 1, cfg);
      var earlier := DecodedUpTo(events, i - 1);
      if events[i - 1].TxDecoded? {
        RunPrefix(t, earlier, [events[i - 1].tx], |earlier|, cfg);
      } else {
        assert earlier + [] == earlier;
      }
    }
  }

  lemma {:induction false} RunPrefix(t: ValidCore, a: seq<Tx>, b: seq<Tx>, i: nat, cfg: Config)
    requires i <= |a|
    ensures Run(t, a + b, i, cfg) == Run(t, a, i, cfg)
  {
    hide Admit;
    if i > 0 {
      RunPrefix(t, a, b, i - 1, cfg);
    }
  }

  lemma {:induction false} ReadmitPrefix(t: ValidCore, a: seq<Payload>, b: seq<Payload>, from: nat, i: nat, cfg: Config)
    requires from <= i <= |a|
    ensures Readmit(t, a + b, from, i, cfg) == Readmit(t, a, from, i, cfg)
    decreases i
  {
    hide Admit;
    if from < i {
      ReadmitPrefix(t, a, b, from, i - 1, cfg);
    }
  }

  /** Events before the start do not matter. */
  lemma {:induction false} ReadmitShift(t: ValidCore, a: seq<Payload>, b: seq<Payload>, from: nat, i: nat, cfg: Config)
    requires from <= i <= |b|
    ensures Readmit(t, a + b, |a| + from, |a| + i, cfg) == Readmit(t, b, from, i, cfg)
    decreases i
  {
    hide Admit;
    if from < i {
      ReadmitShift(t, a, b, from, i - 1, cfg);
      assert (a + b)[|a| + i - 1] == b[i - 1];
    }
  }

  lemma {:induction false} ReadmitConcat(t: ValidCore, a: seq<Payload>, b: seq<Payload>, from: nat, i: nat, cfg: Config)
    requires from <= |a| && i <= |b|
    ensures Readmit(t, a + b, from, |a| + i, cfg) == Readmit(Readmit(t, a, from, |a|, cfg), b, 0, i, cfg)
    decreases i
  {
    hide Admit;
    if i == 0 {
      ReadmitPrefix(t, a, b, from, |a|, cfg);
    } else {
      ReadmitConcat(t, a, b, from, i - 1, cfg);
      assert (a + b)[|a| + i - 1] == b[i - 1];
    }
  }

  // ---------------------------------------------------------------- the recorded events of a run

  /** Events that no admission records although replay heeds them: drops at a full ingress queue, confirmations. */
  predicate Foreign(p: Payload) {
    (p.TxDropped? && p.reason == QUEUE_FULL) || p.TxConfirmedProvisional? || p.TxConfirmedFinal?
  }

  /** Events that record what became of an admission. */
  predicate Recording(p: Payload) {
    !Quiet(p) && !Foreign(p)
  }

  function IsRecording(): Payload -> bool {
    (p: Payload) => Recording(p)
  }

  /** The part of a log that records admissions. */
  function Records(log: seq<Payload>): seq<Payload> {
    Retain(log, IsRecording())
  }

  /** The lifecycle events of submission `j`. */
  ghost function StepEvents(txs: seq<Tx>, cfg: Config, j: nat): seq<Payload>
    requires j < |txs|
  {
    OutcomeEvents(txs[j], AdmitOutcome(Run(EMPTY, txs, j, cfg), txs[j], cfg))
  }

  /** The lifecycle events of the first `i` submissions. */
  ghost function Recorded(txs: seq<Tx>, cfg: Config, i: nat): seq<Payload>
    requires i <= |txs|
  {
    if i == 0 then [] else Recorded(txs, cfg, i - 1) + StepEvents(txs, cfg, i - 1)
  }

  lemma {:induction false} LoudConcat(a: seq<Payload>, b: seq<Payload>, i: nat)
    requires i <= |b|
    ensures LoudUpTo(a + b, |a| + i) == Loud(a) + LoudUpTo(b, i)
  {
    if i == 0 {
      LoudPrefix(a, b, |a|);
    } else {
      LoudConcat(a, b, i - 1);
      assert (a + b)[|a| + i - 1] == b[i - 1];
    }
  }

  lemma {:induction false} LoudPrefix(a: seq<Payload>, b: seq<Payload>, i: nat)
    requires i <= |a|
    ensures LoudUpTo(a + b, i) == LoudUpTo(a, i)
  {
    if i > 0 {
      LoudPrefix(a, b, i - 1);
    }
  }

  lemma {:induction false} AllLoud(a: seq<Payload>, i: nat)
    requires i <= |a| && forall k :: 0 <= k < |a| ==> !Quiet(a[k])
    ensures LoudUpTo(a, i) == a[..i]
  {
    if i > 0 {
      AllLoud(a, i - 1);
    }
  }

  lemma {:induction false} TransitionEventAt(ts: seq<Transition>, i: nat)
    requires i <= |ts|
    ensures |TransitionEvents(ts, i)| == i
    ensures forall k :: 0 <= k < i ==> TransitionEvents(ts, i)[k] == TransitionEvent(ts[k])
  {
    if i > 0 {
      TransitionEventAt(ts, i - 1);
    }
  }

  /** Where a submission's events decode its transaction, if they do. */
  function DecodedAt(a: Admission): int {
    match a
    case Admitted => 0
    case Replaced(_) => 1
    case _ => -1
  }

  /** Recorded events only, and a decoding exactly when the transaction was admitted. */
  ghost predicate WellShaped(events: seq<Payload>, tx: Tx, a: Admission) {
    && (forall k :: 0 <= k < |events| ==> Recording(events[k]))
    && (forall k :: 0 <= k < |events| ==> (events[k].TxDecoded? <==> k == DecodedAt(a)))
    && (a.IsAdmitted() ==> DecodedAt(a) < |events| && events[DecodedAt(a)] == TxDecoded(tx))
  }

  lemma OutcomeShape(tx: Tx, outcome: Outcome)
    ensures WellShaped(OutcomeEvents(tx, outcome), tx, outcome.admission)
  {
    var ts := outcome.transitions;
    TransitionEventAt(ts, |ts|);
    var decision, events := DecisionEvents(tx, outcome.admission), OutcomeEvents(tx, outcome);
    forall k | 0 <= k < |events|
      ensures Recording(events[k]) && (events[k].TxDecoded? <==> k == DecodedAt(outcome.admission))
    {
      if k < |decision| {
        assert events[k] == decision[k];
      } else {
        assert events[k] == TransitionEvent(ts[k - |decision|]);
      }
    }
  }

  lemma LoudEmission(c: ValidCore, tx: Tx, cfg: Config)
    ensures Loud(Emission(c, tx, cfg)) == OutcomeEvents(tx, AdmitOutcome(c, tx, cfg))
  {
    hide AdmitOutcome, OutcomeEvents;
    var outcome := AdmitOutcome(c, tx, cfg);
    var quiet, events := [TxSeen(tx.hash), TxFetched(tx.hash)], OutcomeEvents(tx, outcome);
    OutcomeShape(tx, outcome);
    LoudConcat(quiet, events, |events|);
    AllLoud(events, |events|);
    TwoQuiet(quiet);
    assert events[..|events|] == events;
  }

  lemma NothingLoud()
    ensures Loud([]) == []
  {
  }

  lemma {:induction false} LoudOfLog(txs: seq<Tx>, cfg: Config, i: nat)
    requires i <= |txs|
    ensures Loud(Log(EMPTY, txs, i, cfg)) == Recorded(txs, cfg, i)
  {
    hide Admit, OutcomeEvents, Emission, Run, AdmitOutcome, LoudUpTo;
    if i == 0 {
      NothingLoud();
    } else {
      LoudOfLog(txs, cfg, i - 1);
      var emission := Emission(Run(EMPTY, txs, i - 1, cfg), txs[i - 1], cfg);
      LoudConcat(Log(EMPTY, txs, i - 1, cfg), emission, |emission|);
      LoudEmission(Run(EMPTY, txs, i - 1, cfg), txs[i - 1], cfg);
    }
  }

  lemma TwoQuiet(quiet: seq<Payload>)
    requires |quiet| == 2 && Quiet(quiet[0]) && Quiet(quiet[1])
    ensures Loud(quiet) == []
  {
    assert LoudUpTo(quiet, 0) == [];
    assert LoudUpTo(quiet, 1) == [];
  }

  // ---------------------------------------------------------------- re-admitting a suffix of the log

  lemma {:induction false} SingleDecoding(
      t: ValidCore, events: seq<Payload>, tx: Tx, a: Admission, from: nat, i: nat, cfg: Config)
    requires from <= i <= |events| && WellShaped(events, tx, a)
    ensures WellFormed(Admit(t, tx, cfg))
    ensures Readmit(t, events, from, i, cfg) ==
      if a.IsAdmitted() && from <= DecodedAt(a) < i then Admit(t, tx, cfg) else t
    decreases i
  {
    hide Admit;
    AdmitKeepsInvariants(t, tx, cfg);
    if from < i {
      SingleDecoding(t, events, tx, a, from, i - 1, cfg);
    }
  }

  /** Re-admitting one submission's events moves a tracking state on. */
  lemma StepTracks(t: ValidCore, txs: seq<Tx>, cfg: Config, j: nat)
    requires j < |txs| && HashesNameOne(txs) && Tracks(t, txs, cfg, j)
    ensures var events := StepEvents(txs, cfg, j); Tracks(Readmit(t, events, 0, |events|, cfg), txs, cfg, j + 1)
  {
    hide Tracks, HashesNameOne, AdmitOutcome, OutcomeEvents, Admit, Readmit;
    var tx, outcome := txs[j], AdmitOutcome(Run(EMPTY, txs, j, cfg), txs[j], cfg);
    OutcomeDecision(Run(EMPTY, txs, j, cfg), tx, cfg);
    OutcomeShape(tx, outcome);
    var events := StepEvents(txs, cfg, j);
    SingleDecoding(t, events, tx, outcome.admission, 0, |events|, cfg);
    if outcome.admission.IsAdmitted() {
      ReadmissionTracks(t, txs, cfg, j);
      ShapeDecodes(events, tx, outcome.admission);
    } else {
      RefusalTracks(t, txs, cfg, j);
    }
  }

  lemma OutcomeDecision(c: ValidCore, tx: Tx, cfg: Config)
    ensures AdmitOutcome(c, tx, cfg).admission == Decide(c, tx, cfg)
  {
  }

  lemma ShapeDecodes(events: seq<Payload>, tx: Tx, a: Admission)
    requires WellShaped(events, tx, a) && a.IsAdmitted()
    ensures 0 <= DecodedAt(a) < |events|
  {
  }

  lemma {:induction false} RecordedGrows(txs: seq<Tx>, cfg: Config, a: nat, b: nat)
    requires a <= b <= |txs|
    ensures |Recorded(txs, cfg, a)| <= |Recorded(txs, cfg, b)|
    ensures Recorded(txs, cfg, b)[..|Recorded(txs, cfg, a)|] == Recorded(txs, cfg, a)
    decreases b
  {
    hide StepEvents;
    if a < b {
      RecordedGrows(txs, cfg, a, b - 1);
    }
  }

  /** Re-admitting all events of the submissions from `start` on stays on track for the rest of the run. */
  lemma {:induction false} TailTracks(t: ValidCore, txs: seq<Tx>, cfg: Config, start: nat, j: nat)
    requires start <= j <= |txs| && HashesNameOne(txs) && Tracks(t, txs, cfg, start)
    requires |Recorded(txs, cfg, start)| <= |Recorded(txs, cfg, j)|
    ensures var events := Recorded(txs, cfg, j);
      Tracks(Readmit(t, events, |Recorded(txs, cfg, start)|, |events|, cfg), txs, cfg, j)
    decreases j
  {
    hide Tracks, HashesNameOne, StepEvents, Admit;
    if start < j {
      RecordedGrows(txs, cfg, start, j - 1);
      TailTracks(t, txs, cfg, start, j - 1);
      var earlier, step, from := Recorded(txs, cfg, j - 1), StepEvents(txs, cfg, j - 1), |Recorded(txs, cfg, start)|;
      ReadmitConcat(t, earlier, step, from, |step|, cfg);
      StepTracks(Readmit(t, earlier, from, |earlier|, cfg), txs, cfg, j - 1);
    }
  }

  // ---------------------------------------------------------------- a log cut anywhere

  /** Nothing is decoded between two positions, in whichever order they stand. */
  ghost predicate NoneDecoded(events: seq<Payload>, a: nat, b: nat) {
    forall k :: (a <= k < b || b <= k < a) && k < |events| ==> !events[k].TxDecoded?
  }

  /** A cut may as well stand between two submissions. */
  lemma {:induction false} CutBetween(txs: seq<Tx>, cfg: Config, i: nat, cut: nat) returns (start: nat)
    requires i <= |txs| && cut <= |Recorded(txs, cfg, i)|
    ensures start <= i && NoneDecoded(Recorded(txs, cfg, i), cut, |Recorded(txs, cfg, start)|)
  {
    hide StepEvents, Run, Decide;
    start := i;
    if i > 0 {
      var earlier, step := Recorded(txs, cfg, i - 1), StepEvents(txs, cfg, i - 1);
      if cut <= |earlier| {
        start := CutBetween(txs, cfg, i - 1, cut);
        RecordedGrows(txs, cfg, start, i - 1);
      } else {
        StepShape(txs, cfg, i - 1);
        var c := Run(EMPTY, txs, i - 1, cfg);
        var at := DecodedAt(Decide(c, txs[i - 1], cfg));
        start := if cut <= |earlier| + at then i - 1 else i;
      }
    }
  }

  lemma StepShape(txs: seq<Tx>, cfg: Config, j: nat)
    requires j < |txs|
    ensures WellShaped(StepEvents(txs, cfg, j), txs[j], Decide(Run(EMPTY, txs, j, cfg), txs[j], cfg))
  {
    hide Run, AdmitOutcome, OutcomeEvents, WellShaped;
    var c := Run(EMPTY, txs, j, cfg);
    OutcomeDecision(c, txs[j], cfg);
    OutcomeShape(txs[j], AdmitOutcome(c, txs[j], cfg));
  }

  /** Starting later or earlier by events that decode nothing makes no difference. */
  lemma {:induction false} ReadmitSkips(t: ValidCore, events: seq<Payload>, a: nat, b: nat, i: nat, cfg: Config)
    requires a <= b <= i <= |events| && forall k :: a <= k < b ==> !events[k].TxDecoded?
    ensures Readmit(t, events, a, i, cfg) == Readmit(t, events, b, i, cfg)
    decreases i
  {
    hide Admit;
    if a < i {
      if b < i {
        ReadmitSkips(t, events, a, b, i - 1, cfg);
      } else {
        ReadmitSkips(t, events, a, i - 1, i - 1, cfg);
      }
    }
  }

  /** Every decoding in the record is that of an admitted submission. */
  lemma {:induction false} DecodingSubmission(txs: seq<Tx>, cfg: Config, n: nat, k: nat) returns (i: nat)
    requires n <= |txs| && k < |Recorded(txs, cfg, n)| && Recorded(txs, cfg, n)[k].TxDecoded?
    ensures i < n && Decide(Run(EMPTY, txs, i, cfg), txs[i], cfg).IsAdmitted()
    ensures Recorded(txs, cfg, n)[k] == TxDecoded(txs[i]) && k < |Recorded(txs, cfg, i + 1)|
  {
    hide StepEvents, Run, Decide;
    var earlier := Recorded(txs, cfg, n - 1);
    if k < |earlier| {
      i := DecodingSubmission(txs, cfg, n - 1, k);
    } else {
      i := n - 1;
      StepShape(txs, cfg, i);
      assert StepEvents(txs, cfg, i)[k - |earlier|] == Recorded(txs, cfg, n)[k];
    }
  }

  /** Every admitted submission is decoded among its own events. */
  lemma {:induction false} DecodingRecorded(txs: seq<Tx>, cfg: Config, n: nat, i: nat) returns (k: nat)
    requires i < n <= |txs| && Decide(Run(EMPTY, txs, i, cfg), txs[i], cfg).IsAdmitted()
    ensures |Recorded(txs, cfg, i)| <= k < |Recorded(txs, cfg, n)|
    ensures Recorded(txs, cfg, n)[k] == TxDecoded(txs[i])
  {
    hide StepEvents, Run, Decide;
    var earlier, step := Recorded(txs, cfg, n - 1), StepEvents(txs, cfg, n - 1);
    if i < n - 1 {
      k := DecodingRecorded(txs, cfg, n - 1, i);
    } else {
      StepShape(txs, cfg, i);
      k := |earlier| + DecodedAt(Decide(Run(EMPTY, txs, i, cfg), txs[i], cfg));
    }
  }

  // ---------------------------------------------------------------- what a restart can bring back

  /** Some event decodes a transaction with this hash. */
  ghost predicate DecodedIn(events: seq<Payload>, h: TxHash) {
    exists k :: 0 <= k < |events| && events[k].TxDecoded? && events[k].tx.hash == h
  }

  lemma {:induction false} DecodedComesFrom(events: seq<Payload>, i: nat, j: nat)
    requires i <= |events| && j < |DecodedUpTo(events, i)|
    ensures DecodedIn(events, DecodedUpTo(events, i)[j].hash)
  {
    var earlier := DecodedUpTo(events, i - 1);
    if j < |earlier| {
      DecodedComesFrom(events, i - 1, j);
    } else {
      assert events[i - 1].TxDecoded?;
    }
  }

  /** A re-admission adds nothing but the transactions it submits. */
  lemma {:induction false} OnlySubmittedAppear(t: ValidCore, list: seq<Tx>, i: nat, cfg: Config, h: TxHash)
    requires i <= |list| && h in Run(t, list, i, cfg).pending && h !in t.pending
    ensures exists j :: 0 <= j < i && list[j].hash == h
  {
    hide Admit;
    if i > 0 {
      OnlyNewcomerAppears(Run(t, list, i - 1, cfg), list[i - 1], cfg, h);
      if h in Run(t, list, i - 1, cfg).pending {
        OnlySubmittedAppear(t, list, i - 1, cfg, h);
      }
    }
  }

  /** Part of an earlier state of the run, slot for slot. */
  ghost predicate PartOf(t: ValidCore, txs: seq<Tx>, cfg: Config, taken: nat)
    requires taken <= |txs|
  {
    Bijective(t) && forall s, n :: Occupied(t, s, n) ==> SameSlot(t, Run(EMPTY, txs, taken, cfg), s, n)
  }

  lemma PartPendingIsFinal(t: ValidCore, txs: seq<Tx>, cfg: Config, taken: nat, s: Address, n: U64)
    requires taken <= |txs| && HashesNameOne(txs) && PartOf(t, txs, cfg, taken)
    requires var end := RunAll(EMPTY, txs, cfg); Occupied(end, s, n) && Occupant(end, s, n).hash in t.pending
    ensures SameSlot(t, RunAll(EMPTY, txs, cfg), s, n)
  {
    hide Run, Bijective;
    var end, c := RunAll(EMPTY, txs, cfg), Run(EMPTY, txs, taken, cfg);
    var final := Occupant(end, s, n);
    var held := t.pending[final.hash];
    PendingHolds(t, final.hash);
    assert SameSlot(t, c, held.sender, held.nonce);
    OccupantFromRun(txs, cfg, taken, held.sender, held.nonce);
    OccupantFromRun(txs, cfg, |txs|, s, n);
    OccupantFills(end, s, n);
    SameHashSameTx(txs, held, final);
  }

  lemma SameHashSameTx(txs: seq<Tx>, a: Tx, b: Tx)
    requires HashesNameOne(txs) && a in txs && b in txs && a.hash == b.hash
    ensures a == b
  {
    var i :| 0 <= i < |txs| && txs[i] == a;
    var j :| 0 <= j < |txs| && txs[j] == b;
  }

  lemma PendingHolds(t: ValidCore, h: TxHash)
    requires Bijective(t) && h in t.pending
    ensures Holds(t, t.pending[h]) && t.pending[h].hash == h
  {
    assert Queued(t, t.pending[h]);
    OccupantHash(t, t.pending[h].sender, t.pending[h].nonce);
  }

  lemma OccupantFromRun(txs: seq<Tx>, cfg: Config, i: nat, s: Address, n: U64)
    requires i <= |txs| && Occupied(Run(EMPTY, txs, i, cfg), s, n)
    ensures Occupant(Run(EMPTY, txs, i, cfg), s, n) in txs
  {
    var c := Run(EMPTY, txs, i, cfg);
    RunComesFrom(txs, cfg, i);
    OccupantIsPending(c, s, n);
    var h := Occupant(c, s, n).hash;
    var k :| 0 <= k < i <= |txs| && txs[k] == c.pending[h];
  }

  /** What is decoded after the cut was admitted by a submission after it. */
  lemma DecodedSince(txs: seq<Tx>, cfg: Config, cut: nat, start: nat, rest: seq<Payload>, h: TxHash) returns (i: nat)
    requires start <= |txs| && cut <= |Recorded(txs, cfg, |txs|)| && rest == Recorded(txs, cfg, |txs|)[cut..]
    requires NoneDecoded(Recorded(txs, cfg, |txs|), cut, |Recorded(txs, cfg, start)|) && DecodedIn(rest, h)
    ensures start <= i < |txs| && txs[i].hash == h && Decide(Run(EMPTY, txs, i, cfg), txs[i], cfg).IsAdmitted()
  {
    hide Recorded, Run, Decide;
    var k :| 0 <= k < |rest| && rest[k].TxDecoded? && rest[k].tx.hash == h;
    i := DecodingSubmission(txs, cfg, |txs|, cut + k);
    if i < start {
      RecordedGrows(txs, cfg, i + 1, start);
    }
  }

  /** A final occupant decoded after the cut has its slot filled by a submission after it. */
  lemma DecodedIsRefilled(
      txs: seq<Tx>, cfg: Config, cut: nat, start: nat, rest: seq<Payload>, s: Address, n: U64)
    requires HashesNameOne(txs) && start <= |txs| && cut <= |Recorded(txs, cfg, |txs|)|
    requires rest == Recorded(txs, cfg, |txs|)[cut..]
    requires NoneDecoded(Recorded(txs, cfg, |txs|), cut, |Recorded(txs, cfg, start)|)
    requires var end := RunAll(EMPTY, txs, cfg); Occupied(end, s, n) && DecodedIn(rest, Occupant(end, s, n).hash)
    ensures Refilled(txs, cfg, start, s, n)
  {
    hide Recorded, Run, HashesNameOne, NoneDecoded, Decide;
    var end := RunAll(EMPTY, txs, cfg);
    var final := Occupant(end, s, n);
    var i := DecodedSince(txs, cfg, cut, start, rest, final.hash);
    OccupantFromRun(txs, cfg, |txs|, s, n);
    OccupantFills(end, s, n);
    SameHashSameTx(txs, txs[i], final);
    assert AdmitsAt(txs, cfg, i, s, n);
  }

  /** Every transaction pending in the end is there already or is decoded by these events. */
  ghost predicate AllAtHand(t: ValidCore, end: ValidCore, events: seq<Payload>) {
    forall h :: h in end.pending ==> h in t.pending || DecodedIn(events, h)
  }

  lemma AtHandLeadsToTheEnd(
      t: ValidCore, txs: seq<Tx>, cfg: Config, taken: nat, first: seq<Payload>, rest: seq<Payload>)
    requires taken <= |txs| && HashesNameOne(txs) && PartOf(t, txs, cfg, taken)
    requires first + rest == Recorded(txs, cfg, |txs|)
    requires AllAtHand(t, RunAll(EMPTY, txs, cfg), rest)
    ensures RunAll(t, DecodedTxs(rest), cfg) == RunAll(EMPTY, txs, cfg)
  {
    hide HashesNameOne, Bijective, Tracks, Recorded, Readmit, Run, DecodedIn, SameSlot;
    var events, end := Recorded(txs, cfg, |txs|), RunAll(EMPTY, txs, cfg);
    var start := CutBetween(txs, cfg, |txs|, |first|);
    assert rest == events[|first|..];
    forall s, n | Occupied(end, s, n) ensures SameSlot(t, end, s, n) || Refilled(txs, cfg, start, s, n) {
      OccupantIsPending(end, s, n);
      if Occupant(end, s, n).hash in t.pending {
        PartPendingIsFinal(t, txs, cfg, taken, s, n);
      } else {
        DecodedIsRefilled(txs, cfg, |first|, start, rest, s, n);
      }
    }
    CompletedTracks(t, txs, cfg, taken, start);
    ReadmittedTailEnds(t, txs, cfg, start, first, rest);
  }

  lemma ReadmittedTailEnds(
      t: ValidCore, txs: seq<Tx>, cfg: Config, start: nat, first: seq<Payload>, rest: seq<Payload>)
    requires start <= |txs| && HashesNameOne(txs) && Tracks(t, txs, cfg, start)
    requires first + rest == Recorded(txs, cfg, |txs|)
    requires NoneDecoded(Recorded(txs, cfg, |txs|), |first|, |Recorded(txs, cfg, start)|)
    ensures RunAll(t, DecodedTxs(rest), cfg) == RunAll(EMPTY, txs, cfg)
  {
    hide HashesNameOne, Tracks, Recorded, Readmit, Run;
    var events, from := Recorded(txs, cfg, |txs|), |Recorded(txs, cfg, start)|;
    RecordedGrows(txs, cfg, start, |txs|);
    TailTracks(t, txs, cfg, start, |txs|);
    TracksToTheEnd(Readmit(t, events, from, |events|, cfg), txs, cfg);
    if |first| <= from {
      ReadmitSkips(t, events, |first|, from, |events|, cfg);
    } else {
      ReadmitSkips(t, events, from, |first|, |events|, cfg);
    }
    ReadmitShift(t, first, rest, 0, |rest|, cfg);
    ReadmitIsRun(t, rest, |rest|, cfg);
  }

  lemma EndIsAtHand(t: ValidCore, end: ValidCore, events: seq<Payload>, cfg: Config)
    requires RunAll(t, DecodedTxs(events), cfg) == end
    ensures AllAtHand(t, end, events)
  {
    hide DecodedIn, Run;
    var list := DecodedTxs(events);
    forall h | h in end.pending && h !in t.pending ensures DecodedIn(events, h) {
      OnlySubmittedAppear(t, list, |list|, cfg, h);
      var j :| 0 <= j < |list| && list[j].hash == h;
      DecodedComesFrom(events, |events|, j);
    }
  }

  // ---------------------------------------------------------------- removed transactions are filled in again

  /** Submission `j` records the removal of `h`. */
  ghost predicate RemovesAt(txs: seq<Tx>, cfg: Config, j: nat, h: TxHash)
    requires j < |txs|
  {
    var c := Run(EMPTY, txs, j, cfg);
    || Decide(c, txs[j], cfg) == Replaced(h)
    || (txs[j].hash == h && Decide(c, txs[j], cfg) in {UnderpricedReplacement, SenderLimitReached})
  }

  lemma StepRemoves(txs: seq<Tx>, cfg: Config, j: nat, k: nat, h: TxHash)
    requires j < |txs| && k < |StepEvents(txs, cfg, j)| && Removes(StepEvents(txs, cfg, j)[k], h)
    ensures RemovesAt(txs, cfg, j, h)
  {
    hide AdmitOutcome, Run, OutcomeEvents, Removes;
    var outcome := AdmitOutcome(Run(EMPTY, txs, j, cfg), txs[j], cfg);
    OutcomeDecision(Run(EMPTY, txs, j, cfg), txs[j], cfg);
    OutcomeRemoves(txs[j], outcome, k, h);
  }

  lemma OutcomeRemoves(tx: Tx, outcome: Outcome, k: nat, h: TxHash)
    requires k < |OutcomeEvents(tx, outcome)| && Removes(OutcomeEvents(tx, outcome)[k], h)
    ensures outcome.admission == Replaced(h) ||
      (tx.hash == h && outcome.admission in {UnderpricedReplacement, SenderLimitReached})
  {
    TransitionEventAt(outcome.transitions, |outcome.transitions|);
    var decision, events := DecisionEvents(tx, outcome.admission), OutcomeEvents(tx, outcome);
    assert forall x :: |decision| <= x < |events| ==> events[x] == TransitionEvent(outcome.transitions[x - |decision|]);
    assert k < |decision| ==> events[k] == decision[k];
  }

  lemma {:induction false} RecordedRemoves(txs: seq<Tx>, cfg: Config, i: nat, k: nat, h: TxHash) returns (j: nat)
    requires i <= |txs| && k < |Recorded(txs, cfg, i)| && Removes(Recorded(txs, cfg, i)[k], h)
    ensures j < i && RemovesAt(txs, cfg, j, h) && k < |Recorded(txs, cfg, j + 1)|
  {
    hide StepEvents, RemovesAt, Removes;
    var earlier := Recorded(txs, cfg, i - 1);
    if k < |earlier| {
      j := RecordedRemoves(txs, cfg, i - 1, k, h);
    } else {
      j := i - 1;
      StepRemoves(txs, cfg, j, k - |earlier|, h);
    }
  }

  /** After the removal is recorded the hash is not pending, and it was submitted by then. */
  lemma RemovedIsGone(txs: seq<Tx>, cfg: Config, j: nat, h: TxHash) returns (i: nat)
    requires j < |txs| && RemovesAt(txs, cfg, j, h)
    ensures h !in Run(EMPTY, txs, j + 1, cfg).pending
    ensures i <= j && txs[i].hash == h
  {
    var c, tx := Run(EMPTY, txs, j, cfg), txs[j];
    if Decide(c, tx, cfg) == Replaced(h) {
      var removed := AdmitIsPut(c, tx, cfg);
      OccupantHash(c, tx.sender, tx.nonce);
      RunComesFrom(txs, cfg, j);
      i :| 0 <= i < j <= |txs| && txs[i] == c.pending[h];
    } else {
      i := j;
    }
  }

  /** A submitted transaction that is not pending stays out for the rest of the run. */
  lemma {:induction false} GoneForGood(txs: seq<Tx>, cfg: Config, i: nat, a: nat, b: nat)
    requires i < a <= b <= |txs| && AllRaising(txs, cfg) && HashesNameOne(txs)
    requires txs[i].hash !in Run(EMPTY, txs, a, cfg).pending
    ensures txs[i].hash !in Run(EMPTY, txs, b, cfg).pending
    decreases b
  {
    hide Decide, Admit;
    if a < b {
      GoneForGood(txs, cfg, i, a, b - 1);
      var c, tx := Run(EMPTY, txs, b - 1, cfg), txs[b - 1];
      RefusedFromThenOn(txs, cfg, i, b - 1);
      OnlyNewcomerAppears(c, tx, cfg, txs[i].hash);
      assert txs[b - 1].hash == txs[i].hash ==> txs[b - 1] == txs[i];
    }
  }

  lemma OnlyNewcomerAppears(c: ValidCore, tx: Tx, cfg: Config, h: TxHash)
    ensures h in Admit(c, tx, cfg).pending && h !in c.pending ==> tx.hash == h && Decide(c, tx, cfg).IsAdmitted()
  {
  }

  /** A pending transaction of the snapshot whose removal is recorded has its slot refilled after the snapshot. */
  lemma RemovalIsRefilled(txs: seq<Tx>, cfg: Config, taken: nat, j: nat, h: TxHash)
    requires taken <= |txs| && j < |txs| && AllRaising(txs, cfg) && HashesNameOne(txs) && RemovesAt(txs, cfg, j, h)
    requires h in Run(EMPTY, txs, taken, cfg).pending
    ensures var tx := Run(EMPTY, txs, taken, cfg).pending[h]; Refilled(txs, cfg, taken, tx.sender, tx.nonce)
  {
    hide RemovesAt, Refilled, Bijective, Admit, HashesNameOne;
    var c := Run(EMPTY, txs, taken, cfg);
    var tx := c.pending[h];
    var i := RemovedIsGone(txs, cfg, j, h);
    if j + 1 <= taken {
      GoneForGood(txs, cfg, i, j + 1, taken);
    } else {
      SlotHolds(txs, cfg, taken, h);
      var later := Run(EMPTY, txs, j + 1, cfg);
      if SameSlot(c, later, tx.sender, tx.nonce) {
        OccupantIsPending(later, tx.sender, tx.nonce);
      }
      ChangedSlotRefilled(txs, cfg, taken, j + 1, tx.sender, tx.nonce);
    }
  }

  lemma OccupantIsPending(c: ValidCore, s: Address, n: U64)
    requires Occupied(c, s, n)
    ensures Occupant(c, s, n).hash in c.pending
  {
  }

  lemma SlotHolds(txs: seq<Tx>, cfg: Config, i: nat, h: TxHash)
    requires i <= |txs| && h in Run(EMPTY, txs, i, cfg).pending
    ensures var c := Run(EMPTY, txs, i, cfg); c.pending[h].hash == h && Holds(c, c.pending[h])
  {
    var c := Run(EMPTY, txs, i, cfg);
    EmptyIsBijective();
    RunKeepsBijection(EMPTY, txs, i, cfg);
    assert Queued(c, c.pending[h]);
    OccupantHash(c, c.pending[h].sender, c.pending[h].nonce);
  }

  ghost predicate AllRecorded(txs: seq<Tx>, cfg: Config, removed: set<TxHash>) {
    forall h :: h in removed ==> exists j :: 0 <= j < |txs| && RemovesAt(txs, cfg, j, h)
  }

  /** A transaction whose removal the run records is not pending in the end. */
  lemma RemovedNeverReturns(txs: seq<Tx>, cfg: Config, removed: set<TxHash>, h: TxHash)
    requires AllRaising(txs, cfg) && HashesNameOne(txs) && AllRecorded(txs, cfg, removed) && h in removed
    ensures h !in RunAll(EMPTY, txs, cfg).pending
  {
    hide HashesNameOne, RemovesAt, Run;
    var j :| 0 <= j < |txs| && RemovesAt(txs, cfg, j, h);
    var i := RemovedIsGone(txs, cfg, j, h);
    GoneForGood(txs, cfg, i, j + 1, |txs|);
  }

  lemma KeptSlots(c: ValidCore, removed: set<TxHash>, s: Address, n: U64)
    requires Bijective(c)
    ensures Bijective(Kept(c, removed))
    ensures Occupied(Kept(c, removed), s, n) ==> SameSlot(Kept(c, removed), c, s, n)
  {
    KeptIsBijective(c, removed);
    if Occupied(c, s, n) {
      OccupantHash(c, s, n);
    }
    var kept: ValidCore := Kept(c, removed);
    if Occupied(kept, s, n) {
      OccupantHash(kept, s, n);
    }
  }

  lemma KeptIsPart(txs: seq<Tx>, cfg: Config, taken: nat, removed: set<TxHash>)
    requires taken <= |txs| && Bijective(Run(EMPTY, txs, taken, cfg))
    ensures WellFormed(Kept(Run(EMPTY, txs, taken, cfg), removed))
    ensures PartOf(Kept(Run(EMPTY, txs, taken, cfg), removed), txs, cfg, taken)
  {
    hide Bijective, Kept, Run;
    var c := Run(EMPTY, txs, taken, cfg);
    KeptSlots(c, removed, 0, 0);
    WellFormedIfBijective(Kept(c, removed));
    var t: ValidCore := Kept(c, removed);
    forall s, n | Occupied(t, s, n) ensures SameSlot(t, c, s, n) {
      KeptSlots(c, removed, s, n);
    }
  }

  // ---------------------------------------------------------------- events that do not matter

  lemma {:induction false} RecordsDecodeTheSame(log: seq<Payload>, i: nat)
    requires i <= |log|
    ensures DecodedUpTo(log, i) == DecodedTxs(RetainUpTo(log, IsRecording(), i))
  {
    if i > 0 {
      RecordsDecodeTheSame(log, i - 1);
      var earlier := RetainUpTo(log, IsRecording(), i - 1);
      if IsRecording()(log[i - 1]) {
        DecodedPrefix(earlier, [log[i - 1]], |earlier|);
      } else {
        assert earlier + [] == earlier;
      }
    }
  }

  lemma {:induction false} DecodedPrefix(a: seq<Payload>, b: seq<Payload>, i: nat)
    requires i <= |a|
    ensures DecodedUpTo(a + b, i) == DecodedUpTo(a, i)
  {
    if i > 0 {
      DecodedPrefix(a, b, i - 1);
    }
  }

  lemma DecodedInRecords(log: seq<Payload>, h: TxHash)
    ensures DecodedIn(Records(log), h) <==> DecodedIn(log, h)
  {
    var records := Records(log);
    RetainMembers(log, IsRecording(), |log|);
    if DecodedIn(log, h) {
      var k :| 0 <= k < |log| && log[k].TxDecoded? && log[k].tx.hash == h;
      assert log[k] in records;
    }
    if DecodedIn(records, h) {
      var k :| 0 <= k < |records| && records[k].TxDecoded? && records[k].tx.hash == h;
      assert records[k] in records;
    }
  }

  /** A log without foreign events records all its loud events. */
  lemma {:induction false} LoudIsRecorded(log: seq<Payload>, i: nat)
    requires i <= |log| && forall p :: p in LoudUpTo(log, i) ==> Recording(p)
    ensures RetainUpTo(log, IsRecording(), i) == LoudUpTo(log, i)
  {
    if i > 0 {
      var earlier := LoudUpTo(log, i - 1);
      assert forall p :: p in earlier ==> p in LoudUpTo(log, i);
      LoudIsRecorded(log, i - 1);
      if !Quiet(log[i - 1]) {
        assert LoudUpTo(log, i)[|earlier|] == log[i - 1];
      }
    }
  }

  lemma {:induction false} RunIsRecording(txs: seq<Tx>, cfg: Config, i: nat)
    requires i <= |txs|
    ensures forall p :: p in Recorded(txs, cfg, i) ==> Recording(p)
  {
    hide Recording, StepEvents;
    if i > 0 {
      RunIsRecording(txs, cfg, i - 1);
      StepShape(txs, cfg, i - 1);
    }
  }

  lemma RecordsOfLog(txs: seq<Tx>, cfg: Config, i: nat)
    requires i <= |txs|
    ensures Records(Log(EMPTY, txs, i, cfg)) == Recorded(txs, cfg, i)
  {
    hide Recording, Log, Recorded;
    var log := Log(EMPTY, txs, i, cfg);
    LoudOfLog(txs, cfg, i);
    RunIsRecording(txs, cfg, i);
    LoudIsRecorded(log, |log|);
  }

  // ---------------------------------------------------------------- recovery

  /**
    Two parts of one log of the run, with any quiet and foreign events mixed in: the events
    a restart does not see, and those it replays.
   */
  ghost predicate RecordsRun(txs: seq<Tx>, cfg: Config, unseen: seq<Payload>, seen: seq<Payload>) {
    Records(unseen) + Records(seen) == Records(Log(EMPTY, txs, |txs|, cfg))
  }

  /** Re-admission ends in the run's state exactly when all of it is at hand. */
  lemma EndsAsTheRunIff(
      t: ValidCore, txs: seq<Tx>, cfg: Config, taken: nat, unseen: seq<Payload>, seen: seq<Payload>)
    requires taken <= |txs| && HashesNameOne(txs) && PartOf(t, txs, cfg, taken) && RecordsRun(txs, cfg, unseen, seen)
    ensures RunAll(t, DecodedTxs(seen), cfg) == RunAll(EMPTY, txs, cfg) <==> AllAtHand(t, RunAll(EMPTY, txs, cfg), seen)
  {
    hide HashesNameOne, PartOf, Run, Records, Log, Recorded, DecodedIn, DecodedUpTo;
    RecordsOfLog(txs, cfg, |txs|);
    RecordsDecodeTheSame(seen, |seen|);
    assert DecodedTxs(seen) == DecodedTxs(Records(seen)) by {
      RecordsIsWhole(seen);
    }
    var end := RunAll(EMPTY, txs, cfg);
    if AllAtHand(t, end, seen) {
      forall h | h in end.pending && h !in t.pending ensures DecodedIn(Records(seen), h) {
        DecodedInRecords(seen, h);
      }
      AtHandLeadsToTheEnd(t, txs, cfg, taken, Records(unseen), Records(seen));
    }
    if RunAll(t, DecodedTxs(seen), cfg) == end {
      EndIsAtHand(t, end, seen, cfg);
    }
  }

  lemma RecordsIsWhole(log: seq<Payload>)
    ensures Records(log) == RetainUpTo(log, IsRecording(), |log|)
  {
  }

  /**
    Crash recovery, exactly. Take any run, any snapshot taken during it, and whatever part
    of the run's log a restart still sees. Either sanitising breaks a ready run, and the
    restart rejects the snapshot for its frontier; or it restores the kept transactions,
    and ends in precisely the state of the uninterrupted run if and only if every
    transaction pending in the end was kept or is decoded by an event it sees.
   */
  lemma CrashRecoveryIff(
      txs: seq<Tx>, cfg: Config, taken: nat, unseen: seq<Payload>, seen: seq<Payload>, watermark: U64)
    requires taken <= |txs| && HashesNameOne(txs)
    requires RecordsRun(txs, cfg, unseen, seen)
    ensures var c, end, removed := Run(EMPTY, txs, taken, cfg), RunAll(EMPTY, txs, cfg), Removed(seen);
      var restored := Restore(Sanitized(Persist(c).(eventSeqHi := watermark), removed));
      if Counting.Classified(c, true) <= removed || RunsKept(c, removed) then
        && restored == Success(Kept(c, removed)) && WellFormed(restored.value)
        && (RunAll(restored.value, DecodedTxs(seen), cfg) == end <==> AllAtHand(restored.value, end, seen))
      else restored == Failure(ExecutableFrontierMismatch)
  {
    hide HashesNameOne, RecordsRun, RunsKept, Bijective, PartOf, Restore, Sanitized, AllAtHand,
      Removed, Kept, WellFormed, DecodedTxs, Run;
    var c, removed := Run(EMPTY, txs, taken, cfg), Removed(seen);
    EmptyIsBijective();
    RunKeepsBijection(EMPTY, txs, taken, cfg);
    SanitizedRestore(c, removed, watermark);
    KeptIsPart(txs, cfg, taken, removed);
    EndsAsTheRunIff(Kept(c, removed), txs, cfg, taken, unseen, seen);
  }

  /** A transaction that enters after the snapshot is decoded after it. */
  lemma {:induction false} EntersLater(txs: seq<Tx>, cfg: Config, a: nat, b: nat, h: TxHash) returns (i: nat)
    requires a <= b <= |txs| && h in Run(EMPTY, txs, b, cfg).pending && h !in Run(EMPTY, txs, a, cfg).pending
    ensures a <= i < b && txs[i].hash == h && Decide(Run(EMPTY, txs, i, cfg), txs[i], cfg).IsAdmitted()
    decreases b
  {
    hide Admit, Decide;
    OnlyNewcomerAppears(Run(EMPTY, txs, b - 1, cfg), txs[b - 1], cfg, h);
    if h in Run(EMPTY, txs, b - 1, cfg).pending {
      i := EntersLater(txs, cfg, a, b - 1, h);
    } else {
      i := b - 1;
    }
  }

  lemma NewcomersAreSeen(
      txs: seq<Tx>, cfg: Config, taken: nat, unseen: seq<Payload>, seen: seq<Payload>, h: TxHash)
    requires taken <= |txs| && RecordsRun(txs, cfg, unseen, seen)
    requires |Records(unseen)| <= |Records(Log(EMPTY, txs, taken, cfg))|
    requires h in RunAll(EMPTY, txs, cfg).pending && h !in Run(EMPTY, txs, taken, cfg).pending
    ensures DecodedIn(seen, h)
  {
    hide Run, Records, Log, Recorded, Decide;
    RecordsOfLog(txs, cfg, |txs|);
    RecordsOfLog(txs, cfg, taken);
    var i := EntersLater(txs, cfg, taken, |txs|, h);
    var k := DecodingRecorded(txs, cfg, |txs|, i);
    RecordedGrows(txs, cfg, taken, i);
    assert Records(seen)[k - |Records(unseen)|] == Recorded(txs, cfg, |txs|)[k];
    DecodedInRecords(seen, h);
  }

  /**
    When everything unseen was recorded before the snapshot, only foreign events can make a
    difference: the restart ends in the run's state if and only if each transaction
    that is pending both in the snapshot and in the end, and is removed by an event the
    restart sees, is also decoded by one.
   */
  lemma CrashRecoveryWithForeignIff(
      txs: seq<Tx>, cfg: Config, taken: nat, unseen: seq<Payload>, seen: seq<Payload>, watermark: U64)
    requires taken <= |txs| && HashesNameOne(txs)
    requires RecordsRun(txs, cfg, unseen, seen) && |Records(unseen)| <= |Records(Log(EMPTY, txs, taken, cfg))|
    ensures var c, end, removed := Run(EMPTY, txs, taken, cfg), RunAll(EMPTY, txs, cfg), Removed(seen);
      var restored := Restore(Sanitized(Persist(c).(eventSeqHi := watermark), removed));
      if Counting.Classified(c, true) <= removed || RunsKept(c, removed) then
        && restored.Success? && WellFormed(restored.value)
        && (RunAll(restored.value, DecodedTxs(seen), cfg) == end <==>
            forall h :: h in c.pending && h in end.pending && h in removed ==> DecodedIn(seen, h))
      else restored == Failure(ExecutableFrontierMismatch)
  {
    hide HashesNameOne, RecordsRun, RunsKept, Bijective, Restore, Sanitized, Removed, WellFormed,
      DecodedTxs, DecodedIn, Run, Log, Records;
    var c, end, removed := Run(EMPTY, txs, taken, cfg), RunAll(EMPTY, txs, cfg), Removed(seen);
    CrashRecoveryIff(txs, cfg, taken, unseen, seen, watermark);
    forall h | h in end.pending && h !in c.pending ensures DecodedIn(seen, h) {
      NewcomersAreSeen(txs, cfg, taken, unseen, seen, h);
    }
    assert forall h :: h in Kept(c, removed).pending <==> h in c.pending && h !in removed;
  }

  /**
    A log of the run without foreign events, split at the watermark. The watermark was read
    before the snapshot was taken, and an event is only logged after its admission, so
    everything below the watermark records admissions the snapshot already holds.
   */
  ghost predicate SplitLog(txs: seq<Tx>, cfg: Config, taken: nat, below: seq<Payload>, above: seq<Payload>)
    requires taken <= |txs|
  {
    && Loud(below) + Loud(above) == Loud(Log(EMPTY, txs, |txs|, cfg))
    && |Loud(below)| <= |Loud(Log(EMPTY, txs, taken, cfg))|
  }

  lemma SplitLogRecords(txs: seq<Tx>, cfg: Config, taken: nat, below: seq<Payload>, above: seq<Payload>)
    requires taken <= |txs| && SplitLog(txs, cfg, taken, below, above)
    ensures RecordsRun(txs, cfg, below, above) && Records(above) == Loud(above)
    ensures |Records(below)| <= |Records(Log(EMPTY, txs, taken, cfg))|
  {
    hide Log, Recorded, LoudUpTo, Recording;
    LoudOfLog(txs, cfg, |txs|);
    LoudOfLog(txs, cfg, taken);
    RecordsOfLog(txs, cfg, |txs|);
    RecordsOfLog(txs, cfg, taken);
    RunIsRecording(txs, cfg, |txs|);
    var all := Recorded(txs, cfg, |txs|);
    forall p | p in Loud(below) || p in Loud(above) ensures p in all {
    }
    LoudIsRecorded(below, |below|);
    LoudIsRecorded(above, |above|);
  }

  /** Right after a submission has recorded the removal of a hash, the hash is not pending. */
  lemma RemovedForNow(txs: seq<Tx>, cfg: Config, j: nat, h: TxHash)
    requires j < |txs| && RemovesAt(txs, cfg, j, h)
    ensures h !in Run(EMPTY, txs, j + 1, cfg).pending
  {
    var c, tx := Run(EMPTY, txs, j, cfg), txs[j];
    if Decide(c, tx, cfg) == Replaced(h) {
      var removed := AdmitIsPut(c, tx, cfg);
    }
  }

  /** If it is pending in the end, some event after the one that removed it decodes it. */
  lemma ReturnIsDecoded(txs: seq<Tx>, cfg: Config, k: nat, h: TxHash) returns (later: nat)
    requires k < |Recorded(txs, cfg, |txs|)| && Removes(Recorded(txs, cfg, |txs|)[k], h)
    requires h in RunAll(EMPTY, txs, cfg).pending
    ensures k < later < |Recorded(txs, cfg, |txs|)|
    ensures Recorded(txs, cfg, |txs|)[later].TxDecoded? && Recorded(txs, cfg, |txs|)[later].tx.hash == h
  {
    hide Recorded, Run, RemovesAt, Removes, Decide;
    var j := RecordedRemoves(txs, cfg, |txs|, k, h);
    RemovedForNow(txs, cfg, j, h);
    var i := EntersLater(txs, cfg, j + 1, |txs|, h);
    later := DecodingRecorded(txs, cfg, |txs|, i);
    RecordedGrows(txs, cfg, j + 1, i);
  }

  /** The same in the upper part of a split log. */
  lemma RevivedAbove(
      txs: seq<Tx>, cfg: Config, taken: nat, below: seq<Payload>, above: seq<Payload>, k: nat, h: TxHash)
    requires taken <= |txs| && SplitLog(txs, cfg, taken, below, above)
    requires k < |Loud(above)| && Removes(Loud(above)[k], h) && h in RunAll(EMPTY, txs, cfg).pending
    ensures exists x :: k < x < |Loud(above)| && Revives(Loud(above)[x], h)
  {
    hide Removes, LoudUpTo, Log, Recorded, Run;
    LoudOfLog(txs, cfg, |txs|);
    var loud, events := Loud(above), Recorded(txs, cfg, |txs|);
    assert events[|Loud(below)| + k] == loud[k];
    var later := ReturnIsDecoded(txs, cfg, |Loud(below)| + k, h);
    assert loud[later - |Loud(below)|] == events[later];
  }

  /** What the upper part of the log removes for good is not pending in the end. */
  lemma RemovedAboveIsGone(
      txs: seq<Tx>, cfg: Config, taken: nat, below: seq<Payload>, above: seq<Payload>, h: TxHash)
    requires taken <= |txs| && SplitLog(txs, cfg, taken, below, above) && h in Removed(above)
    ensures h !in RunAll(EMPTY, txs, cfg).pending
  {
    hide Removes, Revives, LoudUpTo, Log, RemovedUpTo, Run, SplitLog;
    QuietRemovesNothing(above, |above|);
    LoudIsWhole(above);
    var loud := Loud(above);
    RemovedIff(loud, |loud|, h);
    var k :| 0 <= k < |loud| && Removes(loud[k], h) && forall x :: k < x < |loud| ==> !Revives(loud[x], h);
    if h in RunAll(EMPTY, txs, cfg).pending {
      RevivedAbove(txs, cfg, taken, below, above, k, h);
    }
  }

  lemma LoudIsWhole(log: seq<Payload>)
    ensures Loud(log) == LoudUpTo(log, |log|)
  {
  }

  lemma {:induction false} QuietRemovesNothing(log: seq<Payload>, i: nat)
    requires i <= |log|
    ensures RemovedUpTo(log, i) == Removed(LoudUpTo(log, i))
  {
    if i > 0 {
      QuietRemovesNothing(log, i - 1);
      var earlier := LoudUpTo(log, i - 1);
      if Quiet(log[i - 1]) {
        assert LoudUpTo(log, i) == earlier;
      } else {
        RemovedPrefix(earlier, [log[i - 1]], |earlier|);
      }
    }
  }

  /**
    Crash recovery for a log split at the watermark. Either every sender left in the
    snapshot keeps its ready run, and then the restart ends in precisely the state of the
    uninterrupted run, or the restart rejects the snapshot for its frontier and asks for a
    rebuild.
   */
  lemma CrashRecovery(
      txs: seq<Tx>, cfg: Config, taken: nat, below: seq<Payload>, above: seq<Payload>, watermark: U64)
    requires taken <= |txs| && HashesNameOne(txs)
    requires SplitLog(txs, cfg, taken, below, above)
    ensures var c, removed := Run(EMPTY, txs, taken, cfg), Removed(above);
      var restored := Restore(Sanitized(Persist(c).(eventSeqHi := watermark), removed));
      if Counting.Classified(c, true) <= removed || RunsKept(c, removed) then
        && restored.Success? && WellFormed(restored.value)
        && RunAll(restored.value, DecodedTxs(above), cfg) == RunAll(EMPTY, txs, cfg)
      else restored == Failure(ExecutableFrontierMismatch)
  {
    hide HashesNameOne, SplitLog, RecordsRun, RunsKept, Restore, Sanitized,
      Removed, WellFormed, DecodedTxs, DecodedIn, Run, Records, Log;
    SplitLogRecords(txs, cfg, taken, below, above);
    CrashRecoveryWithForeignIff(txs, cfg, taken, below, above, watermark);
    forall h | h in Removed(above) ensures h !in RunAll(EMPTY, txs, cfg).pending {
      RemovedAboveIsGone(txs, cfg, taken, below, above, h);
    }
  }

  /** Without sanitising the same restart always succeeds and ends in the same state. */
  lemma UnsanitisedRecovery(
      txs: seq<Tx>, cfg: Config, taken: nat, below: seq<Payload>, above: seq<Payload>, watermark: U64)
    requires taken <= |txs| && HashesNameOne(txs)
    requires SplitLog(txs, cfg, taken, below, above)
    ensures var restored := Restore(Persist(Run(EMPTY, txs, taken, cfg)).(eventSeqHi := watermark));
      && restored.Success? && WellFormed(restored.value)
      && RunAll(restored.value, DecodedTxs(above), cfg) == RunAll(EMPTY, txs, cfg)
  {
    hide HashesNameOne, SplitLog, RecordsRun, DecodedTxs, DecodedIn, Run, Persist, Records, Log;
    var c := Run(EMPTY, txs, taken, cfg);
    EmptyIsBijective();
    RunKeepsBijection(EMPTY, txs, taken, cfg);
    RoundTripIff(c);
    QueuelessIsEmpty(c);
    SplitLogRecords(txs, cfg, taken, below, above);
    forall h | h in RunAll(EMPTY, txs, cfg).pending && h !in c.pending ensures DecodedIn(above, h) {
      NewcomersAreSeen(txs, cfg, taken, below, above, h);
    }
    EndsAsTheRunIff(c, txs, cfg, taken, below, above);
  }

  lemma QueuelessIsEmpty(c: Core)
    requires Bijective(c)
    ensures c.queues == map[] ==> c.pending == map[]
  {
    forall h | h in c.pending ensures c.pending[h].sender in c.queues {
      assert Queued(c, c.pending[h]);
    }
  }

  /**
    How a rejection comes about: one ready transaction, with ready neighbours of the same
    sender on both sides, is removed after the watermark and nothing else is.
   */
  lemma RemovalInsideRunRejects(c: Core, s: Address, below: U64, gone: U64, above: U64, watermark: U64)
    requires Bijective(c) && s in c.queues && below < gone < above
    requires below in c.queues[s] && gone in c.queues[s] && above in c.queues[s]
    requires Label(c.queues[s].Keys, above).Ready?
    ensures Restore(Sanitized(Persist(c).(eventSeqHi := watermark), {c.queues[s][gone]})) ==
      Failure(ExecutableFrontierMismatch)
  {
    hide RunsKept, Counting.Classified, Restore, Sanitized, Persist;
    SanitizedRestore(c, {c.queues[s][gone]}, watermark);
    ReadyNeighbourStays(c, s, gone, above);
    RunBroken(c, s, below, gone, above);
  }

  lemma ReadyNeighbourStays(c: Core, s: Address, gone: U64, above: U64)
    requires Bijective(c) && s in c.queues && gone < above && gone in c.queues[s] && above in c.queues[s]
    requires Label(c.queues[s].Keys, above).Ready?
    ensures !(Counting.Classified(c, true) <= {c.queues[s][gone]})
  {
    hide Label;
    var h := c.queues[s][above];
    assert FillsSlot(c, h, s, above) && FillsSlot(c, c.queues[s][gone], s, gone);
    assert Queued(c, c.pending[h]);
    assert h in Counting.Classified(c, true);
  }

  lemma RunBroken(c: Core, s: Address, below: U64, gone: U64, above: U64)
    requires Bijective(c) && s in c.queues && below < gone < above
    requires below in c.queues[s] && gone in c.queues[s] && above in c.queues[s]
    requires Label(c.queues[s].Keys, above).Ready?
    ensures !RunsKept(c, {c.queues[s][gone]})
  {
    var q, removed := c.queues[s], {c.queues[s][gone]};
    assert FillsSlot(c, q[below], s, below) && FillsSlot(c, q[gone], s, gone) && FillsSlot(c, q[above], s, above);
    var kept := KeptQueue(q, removed);
    assert below in kept && above in kept && gone !in kept;
    assert s in Kept(c, removed).queues && Kept(c, removed).queues[s] == kept;
    assert Least(kept.Keys) <= gone && gone !in kept.Keys;
    assert above in kept.Keys && gone <= above < FirstGap(q.Keys);
  }

  lemma {:induction false} TransitionsRemoveNothing(ts: seq<Transition>, removed: seq<Payload>, i: nat)
    requires i <= |ts|
    ensures Removed(removed + TransitionEvents(ts, i)) == Removed(removed)
  {
    if i == 0 {
      assert removed + [] == removed;
    } else {
      TransitionsRemoveNothing(ts, removed, i - 1);
      var earlier := removed + TransitionEvents(ts, i - 1);
      assert removed + TransitionEvents(ts, i) == earlier + [TransitionEvent(ts[i - 1])];
      RemovedAppended(earlier, TransitionEvent(ts[i - 1]));
    }
  }

  lemma RemovedAppended(events: seq<Payload>, p: Payload)
    requires p.TxReady? || p.TxBlocked?
    ensures Removed(events + [p]) == Removed(events)
  {
    RemovedPrefix(events, [p], |events|);
  }

  lemma {:induction false} RemovedPrefix(a: seq<Payload>, b: seq<Payload>, i: nat)
    requires i <= |a|
    ensures RemovedUpTo(a + b, i) == RemovedUpTo(a, i)
  {
    if i > 0 {
      RemovedPrefix(a, b, i - 1);
    }
  }

  /** The events of a replacement remove its incumbent and nothing else. */
  lemma ReplacementRemoves(c: ValidCore, r: Tx, cfg: Config)
    requires Decide(c, r, cfg).Replaced? && Decide(c, r, cfg).replacedHash != r.hash
    ensures Removed(OutcomeEvents(r, AdmitOutcome(c, r, cfg))) == {Decide(c, r, cfg).replacedHash}
  {
    hide AdmitOutcome, Decide;
    OutcomeDecision(c, r, cfg);
    var ts := AdmitOutcome(c, r, cfg).transitions;
    var decision := [TxReplaced(Decide(c, r, cfg).replacedHash, r.hash), TxDecoded(r)];
    TransitionsRemoveNothing(ts, decision, |ts|);
    assert RemovedUpTo(decision, 0) == {};
    assert RemovedUpTo(decision, 1) == {Decide(c, r, cfg).replacedHash};
  }

  lemma {:induction false} RunExtends(txs: seq<Tx>, r: Tx, i: nat, cfg: Config)
    requires i <= |txs|
    ensures Run(EMPTY, txs + [r], i, cfg) == Run(EMPTY, txs, i, cfg)
  {
    RunPrefix(EMPTY, txs, [r], i, cfg);
  }

  /**
    It happens to every run whose next submission replaces a ready transaction between two
    ready ones. A snapshot taken just before, with the log split there, is rejected.
   */
  lemma ReplacementInsideRunRejects(
      txs: seq<Tx>, cfg: Config, r: Tx, s: Address, below: U64, gone: U64, above: U64, watermark: U64)
    requires var c := RunAll(EMPTY, txs, cfg);
      && s in c.queues && below < gone < above
      && below in c.queues[s] && gone in c.queues[s] && above in c.queues[s]
      && Label(c.queues[s].Keys, above).Ready?
      && Decide(c, r, cfg) == Replaced(c.queues[s][gone])
    ensures var all, c := txs + [r], RunAll(EMPTY, txs, cfg);
      var unseen, seen := Log(EMPTY, all, |txs|, cfg), OutcomeEvents(r, AdmitOutcome(c, r, cfg));
      && |seen| >= 2 && seen[..2] == [TxReplaced(c.queues[s][gone], r.hash), TxDecoded(r)]
      && SplitLog(all, cfg, |txs|, unseen, seen) && c == Run(EMPTY, all, |txs|, cfg)
      && Restore(Sanitized(Persist(c).(eventSeqHi := watermark), Removed(seen))) ==
        Failure(ExecutableFrontierMismatch)
  {
    hide Restore, Sanitized, Persist, Log, Run, Recorded, AdmitOutcome, Label, LoudUpTo;
    var all, c := txs + [r], RunAll(EMPTY, txs, cfg);
    var unseen, seen := Log(EMPTY, all, |txs|, cfg), OutcomeEvents(r, AdmitOutcome(c, r, cfg));
    RunExtends(txs, r, |txs|, cfg);
    OutcomeDecision(c, r, cfg);
    EmptyIsBijective();
    RunKeepsBijection(EMPTY, txs, |txs|, cfg);
    OccupantIsPending(c, s, gone);
    OccupantHash(c, s, gone);
    ReplacementRemoves(c, r, cfg);
    RemovalInsideRunRejects(c, s, below, gone, above, watermark);
    SplitsAtLast(all, cfg, seen);
  }

  /** A log splits before its last submission. */
  lemma SplitsAtLast(all: seq<Tx>, cfg: Config, seen: seq<Payload>)
    requires |all| > 0 && seen == StepEvents(all, cfg, |all| - 1)
    ensures SplitLog(all, cfg, |all| - 1, Log(EMPTY, all, |all| - 1, cfg), seen)
  {
    hide Log, Run, AdmitOutcome, OutcomeEvents, StepEvents;
    LoudOfLog(all, cfg, |all|);
    LoudOfLog(all, cfg, |all| - 1);
    StepShape(all, cfg, |all| - 1);
    AllLoud(seen, |seen|);
    assert seen[..|seen|] == seen;
  }

  // ---------------------------------------------------------------- an instance

  /** Transaction `h` of sender 0 at a nonce, bidding a fee. */
  function Bid(h: U64, nonce: U64, fee: U64): Tx {
    Tx(h, 0, 0, nonce, Some(fee), None)
  }

  const THREE_BIDS := [Bid(1, 7, 100), Bid(2, 8, 100), Bid(3, 9, 100)]
  const TEN_PERCENT := Config(16, 1000)

  lemma FreeSlotTakes(c: ValidCore, tx: Tx)
    requires tx.hash !in c.pending && !Occupied(c, tx.sender, tx.nonce) && |QueueOf(c, tx.sender)| < 16
    ensures Admit(c, tx, TEN_PERCENT) == Put(c, tx)
  {
    var removed := AdmitIsPut(c, tx, TEN_PERCENT);
    assert c.pending - {} == c.pending;
  }

  lemma ThreeBids()
    ensures var c := RunAll(EMPTY, THREE_BIDS, TEN_PERCENT);
      && c.pending == map[1 := Bid(1, 7, 100), 2 := Bid(2, 8, 100), 3 := Bid(3, 9, 100)]
      && c.queues == map[0 := map[7 := 1, 8 := 2, 9 := 3]]
  {
    hide Admit, WellFormed;
    FreeSlotTakes(Run(EMPTY, THREE_BIDS, 0, TEN_PERCENT), Bid(1, 7, 100));
    var one := Run(EMPTY, THREE_BIDS, 1, TEN_PERCENT);
    assert one == Core(map[1 := Bid(1, 7, 100)], map[0 := map[7 := 1]]);
    FreeSlotTakes(one, Bid(2, 8, 100));
    var two := Run(EMPTY, THREE_BIDS, 2, TEN_PERCENT);
    assert two == Core(map[1 := Bid(1, 7, 100), 2 := Bid(2, 8, 100)], map[0 := map[7 := 1, 8 := 2]]);
    FreeSlotTakes(two, Bid(3, 9, 100));
  }

  /** Three ready transactions and a ten per cent higher bid for the middle one: the snapshot in between is rejected. */
  lemma RejectedSnapshot(watermark: U64)
    ensures var c := RunAll(EMPTY, THREE_BIDS, TEN_PERCENT);
      var seen := OutcomeEvents(Bid(4, 8, 110), AdmitOutcome(c, Bid(4, 8, 110), TEN_PERCENT));
      && SplitLog(THREE_BIDS + [Bid(4, 8, 110)], TEN_PERCENT, 3,
                  Log(EMPTY, THREE_BIDS + [Bid(4, 8, 110)], 3, TEN_PERCENT), seen)
      && Restore(Sanitized(Persist(c).(eventSeqHi := watermark), Removed(seen))) ==
        Failure(ExecutableFrontierMismatch)
  {
    hide Run, Log, AdmitOutcome, Restore, Sanitized, Persist, Removed;
    var c := RunAll(EMPTY, THREE_BIDS, TEN_PERCENT);
    ThreeBids();
    MiddleIsReplaced(c);
    ReplacementInsideRunRejects(THREE_BIDS, TEN_PERCENT, Bid(4, 8, 110), 0, 7, 8, 9, watermark);
  }

  lemma MiddleIsReplaced(c: ValidCore)
    requires c.pending == map[1 := Bid(1, 7, 100), 2 := Bid(2, 8, 100), 3 := Bid(3, 9, 100)]
    requires c.queues == map[0 := map[7 := 1, 8 := 2, 9 := 3]]
    ensures c.queues[0].Keys == {7, 8, 9} && Label(c.queues[0].Keys, 9).Ready?
    ensures Decide(c, Bid(4, 8, 110), TEN_PERCENT) == Replaced(2)
  {
    assert c.queues[0].Keys == {7, 8, 9};
    FirstGapIsUnique({7, 8, 9}, 10);
    assert Threshold(100, 1000) == 110;
  }
}
