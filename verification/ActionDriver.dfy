/**
 One driver per action. While a worker carries an action, everyone else may do anything but drive
 that action: approvals, expiry, refused approvals, other actions, switches, the policy, the clock.
 */
module ActionDriver {
  import opened Wrappers
  import opened Policy
  import opened ActionTable
  import opened ActionRuns

  predicate Mine(db: Db, id: Id, run: nat, stepId: string) {
    id in db.rows && db.rows[id].what.run == run && db.rows[id].what.stepId == stepId
  }

  /**
   A step that someone other than the driver of (run, stepId) may make. A runner may send the
   driver's own write, and may do so after the driver has given up waiting for its answer.
   */
  predicate Foreign(db: Db, s: Step, run: nat, stepId: string) {
    match s
    case Record(_, d) => !(d.run == run && d.stepId == stepId)
    case Decided(_, _, _, _) => true
    case Make(id, m) => m.External() || !Mine(db, id, run, stepId)
    case Send(_, _, _, _, _) => true
    case _ => About(s).None? || !Mine(db, About(s).value, run, stepId)
  }

  predicate ForeignRun(w: World, steps: seq<Step>, run: nat, stepId: string)
    decreases |steps|
  {
    steps != [] ==> Foreign(w.db, steps[0], run, stepId) && ForeignRun(Apply(w, steps[0]), steps[1..], run, stepId)
  }

  /** What others can do to the row: decide, expire or refuse it while it is pending. */
  predicate RowRely(r: Row, r': Row) {
    || r' == r
    || (&& r.status == Pending
        && (r'.status == Approved || r'.status == Rejected || r'.status == Expired || r'.status == Invalid)
        && r'.what == r.what && r'.change == r.change
        && r'.requestedAt == r.requestedAt && r'.expiresAt == r.expiresAt)
  }

  predicate Rely(w: World, w': World, run: nat, stepId: string) {
    && w.db.now <= w'.db.now
    && w'.db.incidentOf == w.db.incidentOf
    && (forall id | id in w.db.rows :: id in w'.db.rows && w'.db.rows[id].what == w.db.rows[id].what)
    && (forall id | id in w.db.rows && Mine(w.db, id, run, stepId) :: RowRely(w.db.rows[id], w'.db.rows[id]))
    && (forall id | id in w'.db.rows && Mine(w'.db, id, run, stepId) :: id in w.db.rows)
    && w.grants <= w'.grants
    && (forall id | id in w.db.rows && Mine(w.db, id, run, stepId) ::
          w'.tickets[id] == w.tickets[id] && w'.undo[id] == w.undo[id])
  }

  lemma RelyIsReflexive(w: World, run: nat, stepId: string)
    ensures Rely(w, w, run, stepId)
  {
  }

  lemma RelyIsTransitive(u: World, v: World, w: World, run: nat, stepId: string)
    requires Rely(u, v, run, stepId) && Rely(v, w, run, stepId)
    ensures Rely(u, w, run, stepId)
  {
    forall id | id in u.db.rows && Mine(u.db, id, run, stepId)
      ensures RowRely(u.db.rows[id], w.db.rows[id])
    {
      assert Mine(v.db, id, run, stepId);
    }
  }

  lemma ForeignStepOnRow(db: Db, s: Step, id: Id, run: nat, stepId: string)
    requires Foreign(db, s, run, stepId) && Mine(db, id, run, stepId)
    ensures id in After(db, s).rows && RowRely(db.rows[id], After(db, s).rows[id])
  {
    hide After, MovedRow, DecidedRow;
    StepOnRow(db, s, id);
    if About(s) == Some(id) && s.Make? {
      ExternalMoveOnRow(db.rows[id], s.move, db.now);
    } else if About(s) == Some(id) && s.Decided? {
      DecisionOnRow(db.rows[id], s.actor, s.approve, ReadPolicy(db.policy).rules.executeWithin, db.now);
    }
  }

  lemma ExternalMoveOnRow(r: Row, m: Move, now: Time)
    requires m.External()
    ensures r.status in m.From() ==> RowRely(r, MovedRow(r, m.To(), m.Columns(), now))
  {
  }

  lemma DecisionOnRow(r: Row, actor: string, approve: bool, within: nat, now: Time)
    ensures r.status == Pending ==> RowRely(r, DecidedRow(r, actor, approve, within, now))
    ensures r.status == Pending ==> RowRely(r, r.(status := Expired, completedAt := Some(now)))
  {
  }

  lemma OthersTicket(tickets: multiset<Id>, spent: Id, id: Id)
    ensures spent != id ==> (tickets - multiset{spent})[id] == tickets[id]
  {
  }

  lemma ForeignStepOnTickets(w: World, s: Step, id: Id, run: nat, stepId: string)
    requires Foreign(w.db, s, run, stepId) && Mine(w.db, id, run, stepId)
    ensures Apply(w, s).tickets[id] == w.tickets[id] && Apply(w, s).undo[id] == w.undo[id]
  {
    hide After, AuthoriseExecution, TryMove, Redeemable, Minted;
    match s
    case Make(i, m) => assert i == id ==> !m.StartRollback?;
    case Authorise(i, _) => assert i != id;
    case Mint(i) => OthersTicket(w.tickets, i, id);
    case MintUndo(i, _) => OthersTicket(w.undo, i, id);
    case _ =>
  }

  lemma GrantsOnlyGrow(w: World, s: Step)
    ensures w.grants <= Apply(w, s).grants
  {
    hide After, AuthoriseExecution, TryMove, Redeemable;
  }

  lemma ForeignStepsRely(w: World, s: Step, run: nat, stepId: string)
    requires Inv(w) && Foreign(w.db, s, run, stepId)
    ensures Rely(w, Apply(w, s), run, stepId)
  {
    hide Inv, Apply, After, Foreign;
    var w' := Apply(w, s);
    EveryStepKeepsInv(w, s);
    ApplyTable(w, s);
    StepSetsPolicy(w.db, s);
    GrantsOnlyGrow(w, s);
    forall id | id in w.db.rows && Mine(w.db, id, run, stepId)
      ensures RowRely(w.db.rows[id], w'.db.rows[id])
      ensures w'.tickets[id] == w.tickets[id] && w'.undo[id] == w.undo[id]
    {
      ForeignStepOnRow(w.db, s, id, run, stepId);
      ForeignStepOnTickets(w, s, id, run, stepId);
    }
    forall id | id in w'.db.rows && Mine(w'.db, id, run, stepId)
      ensures id in w.db.rows
    {
      if id !in w.db.rows {
        ForeignRecordIsNotMine(w.db, s, id, run, stepId);
      }
    }
  }

  lemma ForeignRecordIsNotMine(db: Db, s: Step, id: Id, run: nat, stepId: string)
    requires Foreign(db, s, run, stepId) && id !in db.rows && id in After(db, s).rows
    ensures !Mine(After(db, s), id, run, stepId)
  {
    hide After;
    StepMakesRow(db, s, id);
  }

  lemma {:induction false} ForeignRunsRely(w: World, steps: seq<Step>, run: nat, stepId: string)
    requires Inv(w) && ForeignRun(w, steps, run, stepId)
    ensures Rely(w, Run(w, steps), run, stepId)
    decreases |steps|
  {
    hide Inv, Apply, Rely, Foreign;
    if steps == [] {
      RelyIsReflexive(w, run, stepId);
    } else {
      EveryStepKeepsInv(w, steps[0]);
      ForeignStepsRely(w, steps[0], run, stepId);
      ForeignRunsRely(Apply(w, steps[0]), steps[1..], run, stepId);
      RelyIsTransitive(w, Apply(w, steps[0]), Run(w, steps), run, stepId);
    }
  }

  // ── Runs in sequence ──────────────────────────────────────────────────

  lemma {:induction false} RunsCompose(w: World, a: seq<Step>, b: seq<Step>)
    ensures Run(w, a + b) == Run(Run(w, a), b)
    decreases |a|
  {
    hide Apply;
    if a == [] {
      assert a + b == b;
    } else {
      assert (a + b)[1..] == a[1..] + b;
      RunsCompose(Apply(w, a[0]), a[1..], b);
    }
  }
}
