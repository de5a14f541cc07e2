/**
  Candidate registration, simulation results and the builder handoff. Entries carry a
  generation; a result is accepted only while it quotes the current one.
 */
module Handoff {
  import opened Prelude

  type CandidateId = nat

  datatype Candidate = Candidate(id: CandidateId, txHash: TxHash, members: seq<TxHash>, score: U32)

  datatype Entry = Entry(candidate: Candidate, block: U64, generation: U64)

  datatype Task = Task(id: CandidateId, txHash: TxHash, members: seq<TxHash>, block: U64, generation: U64)

  datatype SimResult = SimResult(
    id: CandidateId, txHash: TxHash, members: seq<TxHash>, block: U64, generation: U64, approved: bool)

  datatype BuilderHandoff = BuilderHandoff(candidate: Candidate, block: U64)

  datatype Book = Book(entries: map<CandidateId, Entry>, head: U64)

  const EMPTY_BOOK := Book(map[], 0)

  function NormalizedMembers(txHash: TxHash, members: seq<TxHash>): seq<TxHash> {
    if members == [] then [txHash] else members
  }

  function NextGeneration(g: U64): U64 {
    var bumped := SaturatingAdd(g, 1);
    if bumped < 1 then 1 else bumped
  }

  /** The hashes whose invalidation makes a candidate's outstanding task stale. */
  predicate Mentions(candidate: Candidate, hash: TxHash) {
    candidate.txHash == hash || hash in NormalizedMembers(candidate.txHash, candidate.members)
  }

  // ---------------------------------------------------------------- commands

  function NewGeneration(b: Book, id: CandidateId): U64 {
    if id in b.entries then NextGeneration(b.entries[id].generation) else 1
  }

  function TaskFor(b: Book, candidate: Candidate): Task {
    Task(candidate.id, candidate.txHash, NormalizedMembers(candidate.txHash, candidate.members),
         b.head, NewGeneration(b, candidate.id))
  }

  function RegisterOne(b: Book, candidate: Candidate): Book {
    b.(entries := b.entries[candidate.id := Entry(candidate, b.head, NewGeneration(b, candidate.id))])
  }

  /** The book after registering the first `i` candidates of one command. */
  function RegisterUpTo(b: Book, cs: seq<Candidate>, i: nat): Book
    requires i <= |cs|
  {
    if i == 0 then b else RegisterOne(RegisterUpTo(b, cs, i - 1), cs[i - 1])
  }

  function Register(b: Book, cs: seq<Candidate>): Book {
    RegisterUpTo(b, cs, |cs|)
  }

  /** The task issued for candidate `p` of a registration command. */
  function TaskOf(b: Book, cs: seq<Candidate>, p: nat): Task
    requires p < |cs|
  {
    TaskFor(RegisterUpTo(b, cs, p), cs[p])
  }

  predicate Accepts(b: Book, r: SimResult) {
    && r.id in b.entries
    && var e := b.entries[r.id];
       && e.candidate.txHash == r.txHash
       && NormalizedMembers(e.candidate.txHash, e.candidate.members) == NormalizedMembers(r.txHash, r.members)
       && e.block == r.block
       && e.generation == r.generation
       && r.block == b.head
  }

  function BumpEntry(e: Entry): Entry {
    e.(generation := NextGeneration(e.generation))
  }

  function Apply(b: Book, r: SimResult): Book {
    if Accepts(b, r) then b.(entries := b.entries[r.id := BumpEntry(b.entries[r.id])]) else b
  }

  function Invalidate(b: Book, hash: TxHash): Book {
    b.(entries := map id | id in b.entries ::
      if Mentions(b.entries[id].candidate, hash) then BumpEntry(b.entries[id]) else b.entries[id])
  }

  datatype Command =
    | RegisterCandidates(candidates: seq<Candidate>)
    | ApplyResult(result: SimResult)
    | InvalidateHash(hash: TxHash)
    | AdvanceHead(block: U64)

  function Step(b: Book, cmd: Command): Book {
    match cmd
    case RegisterCandidates(cs) => Register(b, cs)
    case ApplyResult(r) => Apply(b, r)
    case InvalidateHash(h) => Invalidate(b, h)
    case AdvanceHead(n) => b.(head := n)
  }

  /** The book after the first `k` commands. */
  function Exec(b: Book, cmds: seq<Command>, k: nat): Book
    requires k <= |cmds|
  {
    if k == 0 then b else Step(Exec(b, cmds, k - 1), cmds[k - 1])
  }

  // ---------------------------------------------------------------- generations only grow

  ghost predicate Grown(b: Book, b': Book) {
    forall id :: id in b.entries ==> id in b'.entries && b.entries[id].generation <= b'.entries[id].generation
  }

  lemma {:induction false} RegisterGrows(b: Book, cs: seq<Candidate>, i: nat)
    requires i <= |cs|
    ensures Grown(b, RegisterUpTo(b, cs, i))
    ensures RegisterUpTo(b, cs, i).head == b.head
  {
    if i > 0 {
      RegisterGrows(b, cs, i - 1);
    }
  }

  lemma StepGrows(b: Book, cmd: Command)
    ensures Grown(b, Step(b, cmd))
  {
    if cmd.RegisterCandidates? {
      RegisterGrows(b, cmd.candidates, |cmd.candidates|);
    }
  }

  lemma {:induction false} ExecGrows(b: Book, cmds: seq<Command>, i: nat, j: nat)
    requires i <= j <= |cmds|
    ensures Grown(Exec(b, cmds, i), Exec(b, cmds, j))
    decreases j
  {
    if i < j {
      ExecGrows(b, cmds, i, j - 1);
      StepGrows(Exec(b, cmds, j - 1), cmds[j - 1]);
    }
  }

  /**
    Over any interleaving of commands, two accepted results for one candidate quote
    different generations, the later one a larger generation: a pair of candidate id and
    generation is accepted at most once.
   */
  lemma AcceptedAtMostOnce(b: Book, cmds: seq<Command>, i: nat, j: nat)
    requires i < j < |cmds|
    requires cmds[i].ApplyResult? && Accepts(Exec(b, cmds, i), cmds[i].result)
    requires cmds[j].ApplyResult? && Accepts(Exec(b, cmds, j), cmds[j].result)
    requires cmds[i].result.id == cmds[j].result.id
    requires cmds[i].result.generation < U64_MAX
    ensures cmds[i].result.generation < cmds[j].result.generation
  {
    ExecGrows(b, cmds, i + 1, j);
  }

  /** The generation bound is exact: at the saturated generation an accepted result is accepted again. */
  lemma AcceptedTwiceIffSaturated(b: Book, r: SimResult)
    requires Accepts(b, r)
    ensures Accepts(Apply(b, r), r) <==> r.generation == U64_MAX
  {
  }

  // ---------------------------------------------------------------- which task is accepted

  /** A command, run in state `b`, that makes the task of candidate `c` stale for good. */
  predicate Retires(b: Book, cmd: Command, c: Candidate) {
    match cmd
    case RegisterCandidates(cs) => exists q :: 0 <= q < |cs| && cs[q].id == c.id
    case ApplyResult(r) => r.id == c.id && Accepts(b, r)
    case InvalidateHash(h) => Mentions(c, h)
    case AdvanceHead(_) => false
  }

  /** No command after position `i` and before `k` retires candidate `c`. */
  predicate Undisturbed(b: Book, cmds: seq<Command>, c: Candidate, i: nat, k: nat)
    requires i < k <= |cmds|
  {
    forall j :: i < j < k ==> !Retires(Exec(b, cmds, j), cmds[j], c)
  }

  /** Candidate `p` is not registered again among the first `n` of the same command. */
  predicate LastOfItsId(cs: seq<Candidate>, p: nat, n: nat)
    requires p < n <= |cs|
  {
    forall q :: p < q < n ==> cs[q].id != cs[p].id
  }

  /** Either the task is still the live one, or its generation is past. */
  ghost predicate LiveOrPast(b: Book, c: Candidate, t: Task, live: bool) {
    && c.id in b.entries
    && if live then b.entries[c.id] == Entry(c, t.block, t.generation)
       else b.entries[c.id].generation > t.generation
  }

  predicate NamesId(cs: seq<Candidate>, i: nat, id: CandidateId)
    requires i <= |cs|
  {
    exists q :: 0 <= q < i && cs[q].id == id
  }

  lemma {:induction false} RegisterReplaces(b: Book, cs: seq<Candidate>, i: nat, id: CandidateId, g: U64)
    requires i <= |cs|
    requires id in b.entries && b.entries[id].generation >= g && g < U64_MAX
    ensures id in RegisterUpTo(b, cs, i).entries
    ensures if NamesId(cs, i, id) then RegisterUpTo(b, cs, i).entries[id].generation > g
            else RegisterUpTo(b, cs, i).entries[id] == b.entries[id]
  {
    if i > 0 {
      RegisterReplaces(b, cs, i - 1, id, g);
      assert cs[i - 1].id == id ==> NamesId(cs, i, id);
      assert NamesId(cs, i, id) <==> NamesId(cs, i - 1, id) || cs[i - 1].id == id;
    }
  }

  /** Right after its registration a task is live, unless the same command registers its id again. */
  lemma {:induction false} FreshTaskIsLive(b: Book, cs: seq<Candidate>, p: nat, n: nat)
    requires p < n <= |cs|
    requires TaskOf(b, cs, p).generation < U64_MAX
    ensures LiveOrPast(RegisterUpTo(b, cs, n), cs[p], TaskOf(b, cs, p), LastOfItsId(cs, p, n))
  {
    if p < n - 1 {
      FreshTaskIsLive(b, cs, p, n - 1);
      assert LastOfItsId(cs, p, n) <==> LastOfItsId(cs, p, n - 1) && cs[n - 1].id != cs[p].id;
    }
  }

  lemma StepLiveOrPast(b: Book, cmd: Command, c: Candidate, t: Task, live: bool)
    requires LiveOrPast(b, c, t, live) && t.generation < U64_MAX
    ensures LiveOrPast(Step(b, cmd), c, t, live && !Retires(b, cmd, c))
  {
    match cmd
    case RegisterCandidates(cs) =>
      RegisterGrows(b, cs, |cs|);
      RegisterReplaces(b, cs, |cs|, c.id, t.generation);
    case _ =>
  }

  lemma {:induction false} TaskStatus(b: Book, cmds: seq<Command>, i: nat, p: nat, k: nat)
    requires i < k <= |cmds|
    requires cmds[i].RegisterCandidates? && p < |cmds[i].candidates|
    requires TaskOf(Exec(b, cmds, i), cmds[i].candidates, p).generation < U64_MAX
    ensures var cs := cmds[i].candidates;
      LiveOrPast(Exec(b, cmds, k), cs[p], TaskOf(Exec(b, cmds, i), cs, p),
                 LastOfItsId(cs, p, |cs|) && Undisturbed(b, cmds, cs[p], i, k))
    decreases k
  {
    var cs := cmds[i].candidates;
    var t := TaskOf(Exec(b, cmds, i), cs, p);
    if k == i + 1 {
      FreshTaskIsLive(Exec(b, cmds, i), cs, p, |cs|);
    } else {
      TaskStatus(b, cmds, i, p, k - 1);
      var live := LastOfItsId(cs, p, |cs|) && Undisturbed(b, cmds, cs[p], i, k - 1);
      StepLiveOrPast(Exec(b, cmds, k - 1), cmds[k - 1], cs[p], t, live);
      assert Undisturbed(b, cmds, cs[p], i, k) <==>
        Undisturbed(b, cmds, cs[p], i, k - 1) && !Retires(Exec(b, cmds, k - 1), cmds[k - 1], cs[p]);
    }
  }

  /** The result a simulator returns for a task. */
  function Echo(t: Task, approved: bool): SimResult {
    SimResult(t.id, t.txHash, t.members, t.block, t.generation, approved)
  }

  /**
    Exactly when the result of a task is accepted, over every interleaving: its
    registration is still the latest one for the candidate, no member hash was
    invalidated, no result for the candidate was accepted in between, and the head is
    back at the block the task was issued for.
   */
  lemma TaskAcceptedIff(b: Book, cmds: seq<Command>, i: nat, p: nat, k: nat, approved: bool)
    requires i < k <= |cmds|
    requires cmds[i].RegisterCandidates? && p < |cmds[i].candidates|
    requires TaskOf(Exec(b, cmds, i), cmds[i].candidates, p).generation < U64_MAX
    ensures var cs := cmds[i].candidates;
      Accepts(Exec(b, cmds, k), Echo(TaskOf(Exec(b, cmds, i), cs, p), approved)) <==>
        && LastOfItsId(cs, p, |cs|)
        && Undisturbed(b, cmds, cs[p], i, k)
        && Exec(b, cmds, k).head == Exec(b, cmds, i).head
  {
    TaskStatus(b, cmds, i, p, k);
    RegisterGrows(Exec(b, cmds, i), cmds[i].candidates, p);
  }

  // ---------------------------------------------------------------- tasks and results, field by field

  /** What a task carries: its candidate's hash and non-empty member list, the head, and its generation. */
  lemma TaskCarries(b: Book, cs: seq<Candidate>, p: nat)
    requires p < |cs|
    ensures var c, t, before := cs[p], TaskOf(b, cs, p), RegisterUpTo(b, cs, p);
      && t.id == c.id && t.txHash == c.txHash && t.block == b.head
      && t.members != [] && t.members == (if c.members == [] then [c.txHash] else c.members)
      && (c.id !in before.entries ==> t.generation == 1)
      && (c.id in before.entries && before.entries[c.id].generation < U64_MAX ==>
            t.generation == before.entries[c.id].generation + 1)
  {
    RegisterGrows(b, cs, p);
  }

  /**
    A result is accepted exactly when it quotes a live candidate: its hash, its members,
    the block it was registered at and its generation, while the head is still at that
    block. An absent member list stands for the hash alone, on either side.
   */
  lemma AcceptedIff(b: Book, r: SimResult)
    ensures Accepts(b, r) <==>
      && r.id in b.entries
      && var e := b.entries[r.id];
         && r.txHash == e.candidate.txHash && r.generation == e.generation && r.block == e.block == b.head
         && (if r.members == [] then [r.txHash] else r.members) ==
            (if e.candidate.members == [] then [e.candidate.txHash] else e.candidate.members)
  {
  }

  /** An accepted result retires its own generation and nothing else; a stale one changes nothing. */
  lemma AppliedEntries(b: Book, r: SimResult, id: CandidateId)
    ensures var b' := Apply(b, r);
      && b'.head == b.head && (id in b'.entries <==> id in b.entries)
      && (id in b.entries ==>
            && b'.entries[id].candidate == b.entries[id].candidate && b'.entries[id].block == b.entries[id].block
            && b'.entries[id].generation ==
               if id == r.id && Accepts(b, r) && b.entries[id].generation < U64_MAX then b.entries[id].generation + 1
               else b.entries[id].generation)
  {
  }

  /** Invalidating a hash retires the generation of exactly the candidates that carry it, as hash or as member. */
  lemma InvalidatedEntries(b: Book, h: TxHash, id: CandidateId)
    ensures var b' := Invalidate(b, h);
      && b'.head == b.head && (id in b'.entries <==> id in b.entries)
      && (id in b.entries ==>
            var e, e' := b.entries[id], b'.entries[id];
            && e'.candidate == e.candidate && e'.block == e.block
            && e'.generation ==
               if (h == e.candidate.txHash || h in e.candidate.members) && e.generation < U64_MAX then e.generation + 1
               else e.generation)
  {
  }

  /** No command ever brings back a task one of whose hashes was invalidated. */
  lemma InvalidatedTaskNeverAccepted(
      b: Book, cmds: seq<Command>, i: nat, p: nat, j: nat, k: nat, approved: bool)
    requires i < j < k <= |cmds|
    requires cmds[i].RegisterCandidates? && p < |cmds[i].candidates|
    requires TaskOf(Exec(b, cmds, i), cmds[i].candidates, p).generation < U64_MAX
    requires var t := TaskOf(Exec(b, cmds, i), cmds[i].candidates, p);
      cmds[j].InvalidateHash? && (cmds[j].hash == t.txHash || cmds[j].hash in t.members)
    ensures !Accepts(Exec(b, cmds, k), Echo(TaskOf(Exec(b, cmds, i), cmds[i].candidates, p), approved))
  {
    TaskAcceptedIff(b, cmds, i, p, k, approved);
    assert Retires(Exec(b, cmds, j), cmds[j], cmds[i].candidates[p]);
  }

  /** Invalidating any other hash leaves the task's acceptance as it was. */
  lemma OtherHashIsHarmless(b: Book, cmds: seq<Command>, i: nat, p: nat, k: nat, h: TxHash, approved: bool)
    requires i < k <= |cmds|
    requires cmds[i].RegisterCandidates? && p < |cmds[i].candidates|
    requires TaskOf(Exec(b, cmds, i), cmds[i].candidates, p).generation < U64_MAX
    requires var t := TaskOf(Exec(b, cmds, i), cmds[i].candidates, p); h != t.txHash && h !in t.members
    ensures var result := Echo(TaskOf(Exec(b, cmds, i), cmds[i].candidates, p), approved);
      Accepts(Step(Exec(b, cmds, k), InvalidateHash(h)), result) <==> Accepts(Exec(b, cmds, k), result)
  {
    TaskStatus(b, cmds, i, p, k);
  }
}
