/**
 The audit log of one tenant: the hash chain, what `verify` reports about stored rows, what a
 checkpoint pins down, and every interleaving of the transactions that append. The event hash is
 any function of everything it covers; results that rest on it give the two stored rows that collide.
 */
module AuditChain {
  import opened Wrappers

  const GENESIS_HASH: string := "0000000000000000000000000000000000000000000000000000000000000000"

  datatype Content = Content(
    occurredAt: string, actorType: string, actorId: string, correlationId: string, eventType: string, payload: string)

  /** One row of the table. */
  datatype Event = Event(number: int, content: Content, prevHash: string, hash: string)

  /** Everything an event hash covers. */
  datatype Body = Body(tenant: string, number: int, content: Content, prevHash: string)

  type Digest = Body -> string

  function BodyOf(tenant: string, e: Event): Body {
    Body(tenant, e.number, e.content, e.prevHash)
  }

  /** The two k-th rows are a collision: what they hash differs and the hash does not. */
  predicate Collide(h: Digest, tenant: string, a: seq<Event>, b: seq<Event>, k: nat) {
    && k < |a| && k < |b|
    && BodyOf(tenant, a[k]) != BodyOf(tenant, b[k])
    && h(BodyOf(tenant, a[k])) == h(BodyOf(tenant, b[k]))
  }

  // ── What verify reports ───────────────────────────────────────────────

  datatype Problem =
    | Gap(expected: int, found: int)
    | DoesNotFollow(number: int)
    | ContentMismatch(number: int)
    | BadSignature(number: int)
    | CutShort(number: int)
    | Rewritten(number: int)

  function RowProblems(h: Digest, tenant: string, expected: int, prevHash: string, e: Event): seq<Problem> {
    (if e.number != expected then [Gap(expected, e.number)] else [])
    + (if e.prevHash != prevHash then [DoesNotFollow(e.number)] else [])
    + (if h(BodyOf(tenant, e)) != e.hash then [ContentMismatch(e.number)] else [])
  }

  function Expected(rows: seq<Event>): int {
    if rows == [] then 1 else rows[|rows| - 1].number + 1
  }

  function Tip(rows: seq<Event>): string {
    if rows == [] then GENESIS_HASH else rows[|rows| - 1].hash
  }

  function ChainProblems(h: Digest, tenant: string, rows: seq<Event>): seq<Problem> {
    if rows == [] then []
    else
      var before := rows[..|rows| - 1];
      ChainProblems(h, tenant, before)
      + RowProblems(h, tenant, Expected(before), Tip(before), rows[|rows| - 1])
  }

  /** Numbered 1 to n, each linked to the one before, the first to the genesis hash, each hashing to its own hash. */
  predicate IsChain(h: Digest, tenant: string, rows: seq<Event>) {
    forall k | 0 <= k < |rows| :: Fits(h, tenant, rows, k)
  }

  predicate Fits(h: Digest, tenant: string, rows: seq<Event>, k: nat)
    requires k < |rows|
  {
    && rows[k].number == k + 1
    && rows[k].prevHash == Tip(rows[..k])
    && rows[k].hash == h(BodyOf(tenant, rows[k]))
  }

  lemma ChainFacts(h: Digest, tenant: string, rows: seq<Event>)
    requires IsChain(h, tenant, rows)
    ensures forall k | 0 <= k < |rows| :: rows[k].number == k + 1
    ensures Expected(rows) == |rows| + 1
  {
    forall k | 0 <= k < |rows|
      ensures rows[k].number == k + 1
    {
      assert Fits(h, tenant, rows, k);
    }
  }

  /** The newest events can be removed without a trace; only a checkpoint shows it. */
  lemma PrefixesAreChains(h: Digest, tenant: string, rows: seq<Event>, n: nat)
    requires IsChain(h, tenant, rows) && n <= |rows|
    ensures IsChain(h, tenant, rows[..n])
  {
    var kept := rows[..n];
    forall k | 0 <= k < n
      ensures Fits(h, tenant, kept, k)
    {
      assert Fits(h, tenant, rows, k) && kept[..k] == rows[..k];
    }
  }

  lemma ChainGrows(h: Digest, tenant: string, rows: seq<Event>, e: Event)
    ensures IsChain(h, tenant, rows + [e]) <==>
              IsChain(h, tenant, rows) && RowProblems(h, tenant, |rows| + 1, Tip(rows), e) == []
  {
    var all := rows + [e];
    assert all[..|rows|] == rows && all[|rows|] == e;
    if IsChain(h, tenant, all) {
      PrefixesAreChains(h, tenant, all, |rows|);
      assert Fits(h, tenant, all, |rows|);
    }
    if IsChain(h, tenant, rows) && RowProblems(h, tenant, |rows| + 1, Tip(rows), e) == [] {
      forall k | 0 <= k < |all|
        ensures Fits(h, tenant, all, k)
      {
        assert k < |rows| ==> Fits(h, tenant, rows, k) && all[..k] == rows[..k];
      }
    }
  }

  /** The rows verify without a problem exactly when they are a chain. */
  lemma {:induction false} NoProblemExactlyForAChain(h: Digest, tenant: string, rows: seq<Event>)
    ensures ChainProblems(h, tenant, rows) == [] <==> IsChain(h, tenant, rows)
  {
    if rows != [] {
      var before := rows[..|rows| - 1];
      assert rows == before + [rows[|rows| - 1]];
      NoProblemExactlyForAChain(h, tenant, before);
      ChainGrows(h, tenant, before, rows[|rows| - 1]);
      if IsChain(h, tenant, before) {
        ChainFacts(h, tenant, before);
      }
    }
  }

  // ── Checkpoints ───────────────────────────────────────────────────────

  datatype Checkpoint = Checkpoint(tenant: string, number: int, hash: string, signature: string)

  /** The signature under one key of a tenant, a number and a hash. */
  type Signer = (string, int, string) -> string

  /** The hash each number is stored with; of two rows with one number, the later. */
  function Hashes(rows: seq<Event>): map<int, string> {
    if rows == [] then map[]
    else Hashes(rows[..|rows| - 1])[rows[|rows| - 1].number := rows[|rows| - 1].hash]
  }

  function CheckpointProblem(hashes: map<int, string>, tenant: string, signer: Option<Signer>, cp: Checkpoint)
    : seq<Problem>
  {
    if cp.tenant != tenant then []
    else if signer.Some? && signer.value(tenant, cp.number, cp.hash) != cp.signature then [BadSignature(cp.number)]
    else if cp.number == 0 then []
    else if cp.number !in hashes then [CutShort(cp.number)]
    else if hashes[cp.number] != cp.hash then [Rewritten(cp.number)]
    else []
  }

  function CheckpointProblems(hashes: map<int, string>, tenant: string, signer: Option<Signer>, cps: seq<Checkpoint>)
    : seq<Problem>
  {
    if cps == [] then []
    else
      CheckpointProblems(hashes, tenant, signer, cps[..|cps| - 1])
      + CheckpointProblem(hashes, tenant, signer, cps[|cps| - 1])
  }

  /** Everything `verify` reports about stored rows and the checkpoints given. */
  function Problems(h: Digest, tenant: string, rows: seq<Event>, cps: seq<Checkpoint>, signer: Option<Signer>)
    : seq<Problem>
  {
    ChainProblems(h, tenant, rows) + CheckpointProblems(Hashes(rows), tenant, signer, cps)
  }

  /** The signed head of a chain; `Err` when the chain does not verify. */
  function Issue(h: Digest, tenant: string, rows: seq<Event>, sign: Signer): Result<Checkpoint> {
    if Problems(h, tenant, rows, [], None) != [] then Err
    else
      var number := if rows == [] then 0 else rows[|rows| - 1].number;
      Ok(Checkpoint(tenant, number, Tip(rows), sign(tenant, number, Tip(rows))))
  }

  lemma {:induction false} HashesOfAChain(h: Digest, tenant: string, rows: seq<Event>)
    requires IsChain(h, tenant, rows)
    ensures forall n :: n in Hashes(rows) <==> 1 <= n <= |rows|
    ensures forall n | 1 <= n <= |rows| :: Hashes(rows)[n] == rows[n - 1].hash
  {
    if rows != [] {
      var before := rows[..|rows| - 1];
      assert rows == before + [rows[|rows| - 1]];
      ChainGrows(h, tenant, before, rows[|rows| - 1]);
      HashesOfAChain(h, tenant, before);
      ChainFacts(h, tenant, rows);
    }
  }

  /** What a checkpoint of this tenant asks of a chain. */
  predicate Honoured(rows: seq<Event>, tenant: string, signer: Option<Signer>, cp: Checkpoint) {
    cp.tenant == tenant ==>
      && (signer.Some? ==> signer.value(tenant, cp.number, cp.hash) == cp.signature)
      && (cp.number != 0 ==> 1 <= cp.number <= |rows| && rows[cp.number - 1].hash == cp.hash)
  }

  lemma OneCheckpointHonoured(h: Digest, tenant: string, rows: seq<Event>, cp: Checkpoint, signer: Option<Signer>)
    requires IsChain(h, tenant, rows)
    ensures CheckpointProblem(Hashes(rows), tenant, signer, cp) == [] <==> Honoured(rows, tenant, signer, cp)
  {
    hide IsChain;
    HashesOfAChain(h, tenant, rows);
  }

  lemma {:induction false} CheckpointsHonoured(
      h: Digest, tenant: string, rows: seq<Event>, cps: seq<Checkpoint>, signer: Option<Signer>)
    requires IsChain(h, tenant, rows)
    ensures CheckpointProblems(Hashes(rows), tenant, signer, cps) == [] <==>
              forall cp | cp in cps :: Honoured(rows, tenant, signer, cp)
  {
    hide IsChain, Hashes, Honoured, CheckpointProblem;
    if cps != [] {
      var before, last := cps[..|cps| - 1], cps[|cps| - 1];
      assert cps == before + [last];
      CheckpointsHonoured(h, tenant, rows, before, signer);
      OneCheckpointHonoured(h, tenant, rows, last, signer);
    }
  }

  /** Verification passes exactly for a chain that honours every checkpoint of the tenant. */
  lemma VerifiesExactlyWhen(h: Digest, tenant: string, rows: seq<Event>, cps: seq<Checkpoint>, signer: Option<Signer>)
    ensures Problems(h, tenant, rows, cps, signer) == [] <==>
              IsChain(h, tenant, rows) && forall cp | cp in cps :: Honoured(rows, tenant, signer, cp)
  {
    NoProblemExactlyForAChain(h, tenant, rows);
    if IsChain(h, tenant, rows) {
      CheckpointsHonoured(h, tenant, rows, cps, signer);
    }
  }

  // ── What a checkpoint pins down ───────────────────────────────────────

  /** Two chains with the same hash at event n are the same up to it, field by field, or two of their rows collide. */
  lemma {:induction false} SameHashSameHistory(h: Digest, tenant: string, a: seq<Event>, b: seq<Event>, n: nat)
    returns (k: nat)
    requires IsChain(h, tenant, a) && IsChain(h, tenant, b) && n <= |a| && n <= |b|
    requires n > 0 ==> a[n - 1].hash == b[n - 1].hash
    ensures a[..n] == b[..n] || (k < n && Collide(h, tenant, a, b, k))
    decreases n
  {
    k := 0;
    if n > 0 {
      assert Fits(h, tenant, a, n - 1) && Fits(h, tenant, b, n - 1);
      if BodyOf(tenant, a[n - 1]) == BodyOf(tenant, b[n - 1]) {
        k := SameHashSameHistory(h, tenant, a, b, n - 1);
        assert a[..n] == a[..n - 1] + [a[n - 1]] && b[..n] == b[..n - 1] + [b[n - 1]];
      } else {
        k := n - 1;
      }
    }
  }

  /**
   When rows verify against a checkpoint made of `was`, they begin with exactly the events of
   `was`, whatever was edited, removed, reordered, renumbered or re-hashed since; or the k-th row
   of each is a collision of the hash.
   */
  lemma CheckpointPinsHistory(
      h: Digest, tenant: string, was: seq<Event>, sign: Signer, rows: seq<Event>,
      cps: seq<Checkpoint>, signer: Option<Signer>, cp: Checkpoint) returns (k: nat)
    requires Issue(h, tenant, was, sign) == Ok(cp) && cp in cps
    requires Problems(h, tenant, rows, cps, signer) == []
    ensures was <= rows || Collide(h, tenant, was, rows, k)
  {
    VerifiesExactlyWhen(h, tenant, was, [], None);
    ChainFacts(h, tenant, was);
    VerifiesExactlyWhen(h, tenant, rows, cps, signer);
    assert Honoured(rows, tenant, signer, cp);
    k := SameHashSameHistory(h, tenant, was, rows, |was|);
    assert was[..|was|] == was;
  }

  /** And a log that only grew since its checkpoint was made verifies against it. */
  lemma GrownLogsPass(h: Digest, tenant: string, was: seq<Event>, sign: Signer, rows: seq<Event>)
    requires IsChain(h, tenant, was) && IsChain(h, tenant, rows) && was <= rows
    ensures Issue(h, tenant, was, sign).Ok?
    ensures Problems(h, tenant, rows, [Issue(h, tenant, was, sign).value], Some(sign)) == []
  {
    hide IsChain, Problems;
    VerifiesExactlyWhen(h, tenant, was, [], None);
    ChainFacts(h, tenant, was);
    VerifiesExactlyWhen(h, tenant, rows, [Issue(h, tenant, was, sign).value], Some(sign));
  }

  /** Without a checkpoint, a changed event is reported unless its hash and every later one is redone. */
  lemma EditsAreReported(h: Digest, tenant: string, was: seq<Event>, rows: seq<Event>, i: nat, j: nat) returns (k: nat)
    requires IsChain(h, tenant, was) && i <= j < |was| && j < |rows|
    requires rows[i] != was[i] && rows[j].hash == was[j].hash
    ensures ChainProblems(h, tenant, rows) != [] || (k <= j && Collide(h, tenant, was, rows, k))
  {
    k := 0;
    NoProblemExactlyForAChain(h, tenant, rows);
    hide ChainProblems, IsChain;
    if IsChain(h, tenant, rows) {
      k := SameHashSameHistory(h, tenant, was, rows, j + 1);
      assert rows[..j + 1][i] == rows[i] && was[..j + 1][i] == was[i];
    }
  }

  // ── Appending ─────────────────────────────────────────────────────────

  /** The row with the greatest number, as the query for the head finds it. */
  function Head(rows: seq<Event>): Option<Event> {
    if rows == [] then None
    else
      var before, last := Head(rows[..|rows| - 1]), rows[|rows| - 1];
      if before.Some? && before.value.number > last.number then before else Some(last)
  }

  lemma {:induction false} HeadOfAChain(h: Digest, tenant: string, rows: seq<Event>)
    requires IsChain(h, tenant, rows)
    ensures Head(rows) == if rows == [] then None else Some(rows[|rows| - 1])
  {
    if rows != [] {
      var before := rows[..|rows| - 1];
      assert rows == before + [rows[|rows| - 1]];
      ChainGrows(h, tenant, before, rows[|rows| - 1]);
      HeadOfAChain(h, tenant, before);
      ChainFacts(h, tenant, rows);
    }
  }

  /** The row that follows a head. */
  function Following(h: Digest, tenant: string, head: Option<Event>, c: Content): Event {
    var number := if head.Some? then head.value.number + 1 else 1;
    var prevHash := if head.Some? then head.value.hash else GENESIS_HASH;
    Event(number, c, prevHash, h(Body(tenant, number, c, prevHash)))
  }

  lemma AppendingKeepsAChain(h: Digest, tenant: string, rows: seq<Event>, c: Content)
    requires IsChain(h, tenant, rows)
    ensures IsChain(h, tenant, rows + [Following(h, tenant, Head(rows), c)])
    ensures Following(h, tenant, Head(rows), c).number == |rows| + 1
  {
    hide IsChain;
    HeadOfAChain(h, tenant, rows);
    ChainFacts(h, tenant, rows);
    ChainGrows(h, tenant, rows, Following(h, tenant, Head(rows), c));
  }

  /** Two appends that both read the same head cannot both stand: this is what the lock is for. */
  lemma TwoFromOneHeadBreakIt(h: Digest, tenant: string, rows: seq<Event>, c: Content, d: Content)
    requires IsChain(h, tenant, rows)
    ensures var both := [Following(h, tenant, Head(rows), c), Following(h, tenant, Head(rows), d)];
            ChainProblems(h, tenant, rows + both) != []
  {
    var first, second := Following(h, tenant, Head(rows), c), Following(h, tenant, Head(rows), d);
    var all := rows + [first, second];
    NoProblemExactlyForAChain(h, tenant, all);
    assert all[|rows|] == first && all[|rows| + 1] == second;
  }

  // ── Transactions ──────────────────────────────────────────────────────

  /** An open transaction: rows it inserted, and the head it last read, if it has not inserted since. */
  datatype Tx = Tx(rows: seq<Event>, head: Option<Option<Event>>)

  /** What is committed, who holds the tenant's lock, and the transactions in progress. */
  datatype Log = Log(committed: seq<Event>, holder: Option<nat>, open: map<nat, Tx>)

  /** `append` is Lock, ReadHead and Insert; a transaction may append any number of times. */
  datatype Step =
    | Begin(tx: nat)
    | Lock(tx: nat)
    | ReadHead(tx: nat)
    | Insert(tx: nat, content: Content)
    | Commit(tx: nat)
    | Rollback(tx: nat)

  function Released(l: Log, tx: nat): Option<nat> {
    if l.holder == Some(tx) then None else l.holder
  }

  /** A step that cannot be made yet, such as waiting for the lock, changes nothing. */
  function Apply(h: Digest, tenant: string, l: Log, s: Step): Log {
    if s.Begin? then if s.tx in l.open then l else l.(open := l.open[s.tx := Tx([], None)])
    else if s.tx !in l.open then l
    else
      var tx := l.open[s.tx];
      match s
      case Lock(t) => if l.holder.None? then l.(holder := Some(t)) else l
      case ReadHead(t) =>
        if l.holder == Some(t) then l.(open := l.open[t := tx.(head := Some(Head(l.committed + tx.rows)))]) else l
      case Insert(t, c) =>
        if tx.head.Some?
        then l.(open := l.open[t := Tx(tx.rows + [Following(h, tenant, tx.head.value, c)], None)])
        else l
      case Commit(t) => Log(l.committed + tx.rows, Released(l, t), l.open - {t})
      case _ => Log(l.committed, Released(l, s.tx), l.open - {s.tx})
  }

  function Run(h: Digest, tenant: string, l: Log, steps: seq<Step>): Log
    decreases |steps|
  {
    if steps == [] then l else Run(h, tenant, Apply(h, tenant, l, steps[0]), steps[1..])
  }

  /** Undisturbed, an append is committed after the head, or with a rollback leaves nothing behind. */
  lemma AnAppendIsCommitted(h: Digest, tenant: string, l: Log, t: nat, c: Content)
    requires t !in l.open && l.holder.None?
    ensures var steps := [Begin(t), Lock(t), ReadHead(t), Insert(t, c)];
            && Run(h, tenant, l, steps + [Commit(t)])
               == l.(committed := l.committed + [Following(h, tenant, Head(l.committed), c)])
            && Run(h, tenant, l, steps + [Rollback(t)]) == l
  {
    var steps := [Begin(t), Lock(t), ReadHead(t), Insert(t, c)];
    var e := Following(h, tenant, Head(l.committed), c);
    var inserted := Log(l.committed, Some(t), l.open[t := Tx([e], None)]);
    assert l.committed + [] == l.committed && [] + [e] == [e];
    forall last | last in {Commit(t), Rollback(t)}
      ensures Run(h, tenant, l, steps + [last]) == Apply(h, tenant, inserted, last)
    {
      FiveSteps(h, tenant, l, Begin(t), Lock(t), ReadHead(t), Insert(t, c), last);
      assert steps + [last] == [Begin(t), Lock(t), ReadHead(t), Insert(t, c), last];
    }
    assert l.open[t := Tx([e], None)] - {t} == l.open;
  }

  lemma FiveSteps(h: Digest, tenant: string, l: Log, a: Step, b: Step, c: Step, d: Step, e: Step)
    ensures Run(h, tenant, l, [a, b, c, d, e]) ==
              Apply(h, tenant, Apply(h, tenant, Apply(h, tenant, Apply(h, tenant, Apply(h, tenant, l, a), b), c), d), e)
  {
    hide Apply;
    var first := Apply(h, tenant, l, a);
    var second := Apply(h, tenant, first, b);
    var third := Apply(h, tenant, second, c);
    assert [a, b, c, d, e][1..] == [b, c, d, e];
    assert [b, c, d, e][1..] == [c, d, e] && Run(h, tenant, first, [b, c, d, e]) == Run(h, tenant, second, [c, d, e]);
    assert [c, d, e][1..] == [d, e] && Run(h, tenant, second, [c, d, e]) == Run(h, tenant, third, [d, e]);
    assert [d, e][1..] == [e] && Run(h, tenant, third, [d, e]) == Run(h, tenant, Apply(h, tenant, third, d), [e]);
    OneStep(h, tenant, Apply(h, tenant, third, d), e);
  }

  lemma OneStep(h: Digest, tenant: string, l: Log, s: Step)
    ensures Run(h, tenant, l, [s]) == Apply(h, tenant, l, s)
  {
    hide Apply;
    assert [s][1..] == [];
  }

  /** While one transaction holds the lock no other gets it, and without it nothing is read or inserted. */
  lemma OthersWait(h: Digest, tenant: string, l: Log, t: nat, c: Content)
    requires LogInv(h, tenant, l) && t in l.open && l.holder.Some? && l.holder != Some(t)
    ensures Apply(h, tenant, l, Lock(t)) == l && Apply(h, tenant, l, ReadHead(t)) == l
    ensures Apply(h, tenant, l, Insert(t, c)) == l && Apply(h, tenant, l, Begin(t)) == l
    ensures Apply(h, tenant, l, Commit(t)) == l.(open := l.open - {t})
  {
    hide IsChain, Head, Following;
    assert TxInv(h, tenant, l, t);
  }

  /** Only the holder of the lock has rows, and with them the committed rows are still a chain. */
  predicate TxInv(h: Digest, tenant: string, l: Log, t: nat)
    requires t in l.open
  {
    var tx := l.open[t];
    && (l.holder != Some(t) ==> tx.rows == [] && tx.head.None?)
    && IsChain(h, tenant, l.committed + tx.rows)
    && (tx.head.Some? ==> tx.head.value == Head(l.committed + tx.rows))
  }

  predicate LogInv(h: Digest, tenant: string, l: Log) {
    && IsChain(h, tenant, l.committed)
    && (l.holder.Some? ==> l.holder.value in l.open)
    && forall t | t in l.open :: TxInv(h, tenant, l, t)
  }

  lemma StepKeepsLog(h: Digest, tenant: string, l: Log, s: Step)
    requires LogInv(h, tenant, l)
    ensures LogInv(h, tenant, Apply(h, tenant, l, s))
    ensures l.committed <= Apply(h, tenant, l, s).committed
  {
    hide IsChain, Head, Following;
    var l' := Apply(h, tenant, l, s);
    assert l.committed + [] == l.committed;
    assert l'.committed + [] == l'.committed;
    if s.tx in l.open {
      var tx := l.open[s.tx];
      assert TxInv(h, tenant, l, s.tx);
      if s.Insert? && tx.head.Some? {
        AppendingKeepsAChain(h, tenant, l.committed + tx.rows, s.content);
        var e := Following(h, tenant, tx.head.value, s.content);
        assert (l.committed + tx.rows) + [e] == l.committed + (tx.rows + [e]);
      }
    }
    forall t | t in l'.open
      ensures TxInv(h, tenant, l', t)
    {
      if t in l.open {
        assert TxInv(h, tenant, l, t);
      }
    }
  }

  /** In every interleaving the committed rows verify without a problem, and none is ever changed or removed. */
  lemma {:induction false} EveryRunKeepsTheChain(h: Digest, tenant: string, l: Log, steps: seq<Step>)
    requires LogInv(h, tenant, l)
    ensures LogInv(h, tenant, Run(h, tenant, l, steps))
    ensures l.committed <= Run(h, tenant, l, steps).committed
    decreases |steps|
  {
    hide LogInv, Apply;
    if steps != [] {
      StepKeepsLog(h, tenant, l, steps[0]);
      EveryRunKeepsTheChain(h, tenant, Apply(h, tenant, l, steps[0]), steps[1..]);
    }
  }

  /** From an empty log on: a checkpoint made at any point of a run verifies at every later point. */
  lemma CheckpointsHoldThroughRuns(h: Digest, tenant: string, sign: Signer, before: seq<Step>, after: seq<Step>)
    ensures var l := Run(h, tenant, Log([], None, map[]), before);
            var later := Run(h, tenant, l, after);
            && ChainProblems(h, tenant, l.committed) == [] && ChainProblems(h, tenant, later.committed) == []
            && Issue(h, tenant, l.committed, sign).Ok?
            && Problems(h, tenant, later.committed, [Issue(h, tenant, l.committed, sign).value], Some(sign)) == []
  {
    hide Apply;
    var l := Run(h, tenant, Log([], None, map[]), before);
    var later := Run(h, tenant, l, after);
    EveryRunKeepsTheChain(h, tenant, Log([], None, map[]), before);
    EveryRunKeepsTheChain(h, tenant, l, after);
    NoProblemExactlyForAChain(h, tenant, l.committed);
    NoProblemExactlyForAChain(h, tenant, later.committed);
    GrownLogsPass(h, tenant, l.committed, sign, later.committed);
  }
}
