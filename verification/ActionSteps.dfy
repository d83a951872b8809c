/** Each transaction of the store and each thing a worker does is one step of the whole system. */
module ActionSteps {
  import opened Wrappers
  import opened Policy
  import opened ActionTable
  import opened ActionRuns
  import opened ActionSafety
  import opened ActionDriver

  /** Moves made while the row may still be pending, where an approver may come first. */
  predicate Early(m: Move) {
    m.Invalidate? || m.ChangeDenied? || m.Expire?
  }

  /** The action and its change record are those they were. */
  predicate SameAction(r: Row, r': Row) {
    r'.what == r.what && r'.change == r.change
  }

  lemma NothingHasHappened(w: World)
    requires w == World(w.db, multiset{}, multiset{}, [], {}, []) && w.db.rows == map[]
    ensures Initial(w) && Run(w, []) == w && Inv(w)
  {
    ReachableWorldsAreSound(w, []);
  }

  lemma MovesKeepTheAction(r: Row, m: Move, now: Time)
    ensures SameAction(r, MovedRow(r, m.To(), m.Columns(), now))
    ensures MovedRow(r, m.To(), m.Columns(), now).status == m.To()
    ensures MovedRow(r, m.To(), m.Columns(), now).startedAt == r.startedAt
    ensures MovedRow(r, m.To(), m.Columns(), now).result ==
              if m.StartRollback? then r.result else Some(Outcome(m.Lost? || m.Interrupted?))
  {
  }

  lemma MoveIsAStep(w: World, w': World, id: Id, m: Move)
    requires var t := TryMove(w.db, id, m);
             && w' == w.(db := AfterMove(w.db, t), undo := w'.undo)
             && w'.undo == if m.StartRollback? && t.Moved? then w.undo + multiset{id} else w.undo
    ensures w' == Apply(w, Make(id, m))
  {
    hide Transition;
  }

  lemma NotesAreWritten(db: Db, id: Id, row: Row)
    requires TableInv(db) && id in db.rows
    requires row == db.rows[id].(change := row.change) || row == db.rows[id].(requestedAt := row.requestedAt)
    ensures Put(db, id, row) == Ok(db.(rows := db.rows[id := row]))
  {
    hide Legal;
    assert RowInv(db.rows[id], db.now);
    ReplacingKeepsLegal(db, id, row);
  }

  /** With one driver for the step, its decision is always recorded. */
  lemma DecisionIsRecorded(db: Db, id: Id, d: Draft)
    requires TableInv(db) && id !in db.rows && d.run in db.incidentOf && Recordable(db, d)
    requires forall i | i in db.rows :: !Mine(db, i, d.run, d.stepId)
    ensures var row := DecisionRow(d, db.incidentOf[d.run], db.now);
            && ActionTable.RecordDecision(db, id, d) == Ok(db.(rows := db.rows[id := row]))
            && row.what.run == d.run && row.what.stepId == d.stepId && row.what.actionHash == d.Hash()
            && (row.status == Pending || row.status == Allowed || Final(row.status))
            && row.status != Verified
  {
    hide Legal, Policy.Evaluate;
    var row := DecisionRow(d, db.incidentOf[d.run], db.now);
    RecordedRowIsSound(d, db.incidentOf[d.run], db.now);
    forall j | j in db.rows && j != id
      ensures Compatible(row, db.rows[j])
    {
      assert !Mine(db, j, d.run, d.stepId);
    }
    PutSucceedsExactlyWhen(db, id, row);
  }

  lemma RecordIsAStep(w: World, w': World, id: Id, d: Draft)
    requires Recordable(w.db, d)
    requires w' == w.(db := Committed(w.db, ActionTable.RecordDecision(w.db, id, d)))
    ensures w' == Apply(w, Record(id, d))
  {
    hide ActionTable.RecordDecision;
  }

  /** What a successful authorisation leaves in the row. */
  lemma AuthorisedRow(db: Db, id: Id, local: bool)
    ensures match AuthoriseExecution(db, id, local)
            case Started(after) =>
              && id in db.rows
              && after == db.(rows := db.rows[id := db.rows[id].(status := Executing, startedAt := Some(db.now))])
            case _ => true
  {
    hide Legal;
  }

  lemma AuthorisationIsAStep(w: World, w': World, id: Id, local: bool)
    requires var a := AuthoriseExecution(w.db, id, local);
             && w' == w.(db := AfterAuthorisation(w.db, a), tickets := w'.tickets)
             && w'.tickets == if a.Started? then w.tickets + multiset{id} else w.tickets
    ensures w' == Apply(w, Authorise(id, local))
  {
    hide AuthoriseExecution;
  }

  lemma RedeemedIsThisCall(w: World, id: Id, g: nat, call: CallDigest, local: bool)
    requires Redeemable(w, id, g, call, local)
    ensures g < |w.grants| && w.grants[g].digest == call
  {
  }

  lemma NoteIsAStep(w: World, w': World, s: Step)
    requires s.Opened? || s.Asked?
    requires w' == w.(db := Committed(w.db, if s.Opened? then ActionTable.NoteChange(w.db, s.id, s.number)
                                            else ActionTable.NoteRequested(w.db, s.id)))
    ensures w' == Apply(w, s)
  {
    hide ActionTable.NoteChange, ActionTable.NoteRequested;
  }

  lemma MintIsAStep(w: World, id: Id)
    requires id in w.tickets && id in w.db.rows
    ensures Apply(w, Mint(id)) ==
              w.(tickets := w.tickets - multiset{id},
                 grants := w.grants + [Grant(id, false, w.db.rows[id].what.callDigest, w.db.now + GRANT_SECONDS)])
  {
  }

  lemma MintUndoIsAStep(w: World, id: Id, call: CallDigest)
    requires id in w.undo
    ensures Apply(w, MintUndo(id, call)) ==
              w.(undo := w.undo - multiset{id},
                 grants := w.grants + [Grant(id, true, call, w.db.now + GRANT_SECONDS)])
  {
  }

  lemma SendIsAStep(w: World, w': World, id: Id, g: nat, capability: string, params: Params, local: bool)
    requires Redeemable(w, id, g, CallDigest(capability, params), local)
    requires w' == w.(writes := w.writes + [Write(g, capability, params, w.db.now)])
    ensures w' == Apply(w, Send(id, g, capability, params, local))
  {
    hide Redeemable;
  }

  lemma DecisionIsAStep(w: World, w': World, s: Step)
    requires s.Decided?
    requires w' == w.(db := AfterDecision(w.db, Decide(w.db, s.id, s.actor, s.approve, s.seen)))
    ensures w' == Apply(w, s)
  {
    hide Decide;
  }

  lemma ClearIsAStep(w: World, g: nat, local: bool)
    ensures Apply(w, Clear(g, local)) ==
              w.(cleared := if g < |w.grants| && SwitchesOn(w.db, local) == {} then w.cleared + {g} else w.cleared)
  {
    hide SwitchesOn;
  }

  // ── Runs of anyone ────────────────────────────────────────────────────

  lemma AdvancesReflexive(db: Db)
    ensures TableAdvances(db, db)
  {
  }

  /** What is no longer pending stays so, and what an action is does not change. */
  lemma OthersRemain(db: Db, db': Db)
    requires TableAdvances(db, db')
    ensures forall id | id in db.rows ::
              && id in db'.rows && db'.rows[id].what == db.rows[id].what
              && (db.rows[id].status != Pending ==> db'.rows[id].status != Pending)
  {
    forall id | id in db.rows
      ensures id in db'.rows && db'.rows[id].what == db.rows[id].what
      ensures db.rows[id].status != Pending ==> db'.rows[id].status != Pending
    {
      RowsRemain(db, db', id);
    }
  }

  lemma RowsRemain(db: Db, db': Db, id: Id)
    requires TableAdvances(db, db') && id in db.rows
    ensures id in db'.rows && Advances(db.rows[id], db'.rows[id]) && db'.rows[id].what == db.rows[id].what
    ensures db.rows[id].status != Pending ==> db'.rows[id].status != Pending
  {
  }

  lemma AdvancesCompose(a: Db, b: Db, c: Db)
    requires TableAdvances(a, b) && TableAdvances(b, c)
    ensures TableAdvances(a, c)
  {
    forall id | id in a.rows
      ensures id in c.rows && Advances(a.rows[id], c.rows[id])
    {
      assert id in b.rows && Advances(a.rows[id], b.rows[id]);
    }
  }

  lemma {:induction false} RunAdvances(w: World, steps: seq<Step>)
    requires Inv(w)
    ensures TableAdvances(w.db, Run(w, steps).db)
    decreases |steps|
  {
    hide Inv, Apply;
    if steps != [] {
      hide TableAdvances;
      EveryStepKeepsInv(w, steps[0]);
      RunAdvances(Apply(w, steps[0]), steps[1..]);
      AdvancesCompose(w.db, Apply(w, steps[0]).db, Run(w, steps).db);
    }
  }
}
