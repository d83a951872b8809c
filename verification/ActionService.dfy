/**
 The action pipeline as actions/service.py runs it: a worker that carries one ACTION step (decide,
 change record, approval, pre-checks, execute, verify, roll back), and the sweeper. Between any two
 of its transactions everyone else may act. What it asks of the outside is answered by a script.
 */
module ActionService {
  import opened Wrappers
  import Json
  import opened Policy
  import opened ActionTable
  import opened ActionRuns
  import opened ActionSafety
  import opened ActionDriver
  import opened ActionStore
  import opened ActionHistory
  import opened ActionSteps
  import opened ActionCall
  import opened ActionSweep
  import opened ExpressionEval

  class Service {
    const store: Store
    /** The answers of connectors, the ITSM system and the local switch file, in the order they are asked. */
    const script: Script
    var tickets: multiset<Id>
    var undo: multiset<Id>
    var grants: seq<Grant>
    var cleared: set<nat>
    var writes: seq<Write>
    var asked: nat
    /** When ServiceNow was last asked for approvals, on the monotonic clock. */
    var polledAt: nat
    ghost var past: History
    ghost var tally: Tally

    constructor (store: Store, script: Script)
      requires store.db.rows == map[]
      ensures this.store == store && this.script == script
      ensures Valid() && past == History(W(), [], [], [])
    {
      hide *;
      var empty := World(store.db, multiset{}, multiset{}, [], {}, []);
      NothingHasHappened(empty);
      this.store, this.script := store, script;
      tickets, undo, grants, cleared, writes := multiset{}, multiset{}, [], {}, [];
      past, tally := History(empty, [], [], []), Tally(0, 0, 0, 0, 0, 0, 0, 0);
      asked, polledAt := 0, 0;
      new;
      Begins();
    }

    lemma Begins()
      requires past == History(World(store.db, tickets, undo, grants, cleared, writes), [], [], [])
      requires Initial(past.start) && Run(past.start, []) == past.start && Inv(past.start)
      requires tally == Tally(0, 0, 0, 0, 0, 0, 0, 0) && asked == 0
      ensures Valid() && W() == past.start
    {
      hide Inv, Initial, Run;
    }

    function W(): World
      reads this, store
    {
      World(store.db, tickets, undo, grants, cleared, writes)
    }

    /**
     The world is one that the steps of the history lead to from an empty table, and the log is of
     worlds they led through, with the answers of the script.
     */
    ghost predicate Valid()
      reads this, store
    {
      && Initial(past.start) && W() == Run(past.start, past.trace) && Inv(W())
      && Truthful(past, script) && asked == |past.log| && Told(tally, past.log)
    }

    /** The row is this driver's and this is what it says now. */
    ghost predicate Has(c: Call, id: Id, row: Row)
      reads this, store
    {
      Valid() && Mine(store.db, id, c.run, c.stepId) && store.db.rows[id] == row
    }

    lemma RowsAreSound(id: Id)
      requires Valid() && id in store.db.rows
      ensures RowInv(store.db.rows[id], store.db.now)
    {
    }

    lemma Open()
      requires Valid()
      ensures Initial(past.start) && W() == Run(past.start, past.trace) && Inv(W()) && TableInv(store.db)
      ensures Truthful(past, script) && asked == |past.log| && Told(tally, past.log)
    {
    }

    lemma Close()
      requires Initial(past.start) && W() == Run(past.start, past.trace) && Inv(W())
      requires Truthful(past, script) && asked == |past.log| && Told(tally, past.log)
      ensures Valid()
    {
    }

    /** One step of this worker is one step of the system. */
    ghost method Stepped(w: World, s: Step)
      requires Initial(past.start) && w == Run(past.start, past.trace) && Inv(w) && W() == Apply(w, s)
      requires Truthful(past, script) && asked == |past.log| && Told(tally, past.log)
      modifies this`past
      ensures Valid() && past == Stepping(old(past), s) && Silent(old(past), past)
      ensures OwnSteps(old(past), past) == [|old(past).trace|]
    {
      hide Inv, Apply, Truthful, Later, Told;
      RunsCompose(past.start, past.trace, [s]);
      assert [s][1..] == [];
      EveryStepKeepsInv(w, s);
      SteppingIsLater(past, s, script);
      past := Stepping(past, s);
    }

    /** Ask the outside, or read the table or the clock; what is read of the table is in the world noted. */
    method Ask(what: Question) returns (answer: Answer)
      requires Valid() && !what.Sent?
      modifies this`past, this`asked
      ensures Valid() && answer == script(old(asked))
      ensures past == Asking(old(past), what, W(), answer) && Later(old(past), past)
      ensures New(old(past), past) == [Entry(what, W(), |old(past).trace|, answer)]
      ensures OwnSteps(old(past), past) == []
    {
      hide Valid, Truthful, Later, Told, Inv;
      Open();
      answer := script(asked);
      AskingIsLater(past, what, answer, script, tally);
      past := Asking(past, what, W(), answer);
      asked := asked + 1;
      Close();
    }

    /** Any number of steps of others. */
    method Interfere(c: Call)
      requires Valid()
      modifies this, store
      ensures Valid() && Rely(old(W()), W(), c.run, c.stepId)
      ensures tally == old(tally) && Quiet(old(past), past)
    {
      hide Valid, Inv, Rely, Apply, Truthful, Told, Later;
      Open();
      var steps: seq<Step> := *;
      if ForeignRun(W(), steps, c.run, c.stepId) {
        ForeignRunsRely(W(), steps, c.run, c.stepId);
        EveryRunKeepsInv(W(), steps);
        RunsCompose(past.start, past.trace, steps);
        TraceGoesOn(past, steps, script);
        var next := Run(W(), steps);
        Become(next);
        past := past.(trace := past.trace + steps);
        Close();
      } else {
        RelyIsReflexive(W(), c.run, c.stepId);
        LaterGoesOn();
      }
    }

    method Become(w: World)
      modifies this`tickets, this`undo, this`grants, this`cleared, this`writes, store
      ensures W() == w
    {
      store.db := w.db;
      tickets, undo, grants, cleared, writes := w.tickets, w.undo, w.grants, w.cleared, w.writes;
    }

    /** Others act; the row stays what it was, unless it was pending and someone decided it. */
    method Pause(c: Call, id: Id)
      requires Valid() && Mine(store.db, id, c.run, c.stepId)
      modifies this, store
      ensures Valid() && Mine(store.db, id, c.run, c.stepId)
      ensures RowRely(old(store.db.rows[id]), store.db.rows[id])
      ensures old(store.db.now) <= store.db.now && old(grants) <= grants
      ensures tickets[id] == old(tickets[id]) && undo[id] == old(undo[id])
      ensures tally == old(tally) && Quiet(old(past), past)
    {
      hide Valid, Quiet;
      ghost var before := W();
      Interfere(c);
      assert Mine(before.db, id, c.run, c.stepId);
    }

    /** Others act; a row that nobody may decide stays as it is. */
    method Hold(c: Call, id: Id)
      requires Valid() && Mine(store.db, id, c.run, c.stepId) && store.db.rows[id].status != Pending
      modifies this, store
      ensures Has(c, id, old(store.db.rows[id]))
      ensures old(store.db.now) <= store.db.now && old(grants) <= grants
      ensures tickets[id] == old(tickets[id]) && undo[id] == old(undo[id])
      ensures tally == old(tally) && Quiet(old(past), past)
    {
      hide Valid, Quiet;
      Pause(c, id);
    }

    /** Others act, and then one thing is asked. */
    method Consult(c: Call, id: Id, what: Question) returns (answer: Answer)
      requires Valid() && Mine(store.db, id, c.run, c.stepId) && !what.Sent?
      modifies this, store
      ensures Valid() && Mine(store.db, id, c.run, c.stepId) && Drove(c, old(past), past)
      ensures RowRely(old(store.db.rows[id]), store.db.rows[id])
      ensures old(store.db.rows[id]).status != Pending ==> Has(c, id, old(store.db.rows[id]))
      ensures tally == old(tally)
      ensures |New(old(past), past)| == 1
      ensures var e := New(old(past), past)[0]; e.asked == what && e.answer == answer && e.world == W()
    {
      hide Valid, Drove, Later, Silent, Quiet, New, OwnSteps;
      ghost var first := past;
      Pause(c, id);
      ghost var calm := past;
      answer := Ask(what);
      QuietThenAsked(c, first, calm, past);
    }

    /** One compare-and-set. The result is the row as the transaction leaves or finds it. */
    method CompareAndSet(c: Call, id: Id, m: Move, ghost first: History) returns (moved: bool)
      requires Valid() && Mine(store.db, id, c.run, c.stepId)
      requires Drove(c, first, past) && MayMove(c, id, store.db.rows[id], m, New(first, past), |past.trace|)
      modifies this, store
      ensures Valid() && Mine(store.db, id, c.run, c.stepId)
      ensures moved <==> old(store.db.rows[id]).status in m.From()
      ensures store.db.rows[id] ==
                if moved then MovedRow(old(store.db.rows[id]), m.To(), m.Columns(), store.db.now)
                else old(store.db.rows[id])
      ensures store.db.now == old(store.db.now) && grants == old(grants) && tickets == old(tickets)
      ensures undo == old(undo) + Ticket(m.StartRollback? && moved, id)
      ensures tally == old(tally).(commits := old(tally).commits + if moved then 1 else 0,
                                   missed := old(tally).missed + if moved || Early(m) then 0 else 1)
      ensures Drove(c, first, past) && New(first, past) == New(first, old(past))
      ensures past == Stepping(old(past), Make(id, m)) && Silent(old(past), past)
    {
      hide Valid, Inv, TableInv, MovedRow, Apply, After, Truthful, Later, Drove, New, Grounded, MayMove, Early;
      Open();
      ghost var w, was := W(), past;
      MovesNeverViolate(store.db, id, m);
      MoveIsGrounded(c, id, m, w, New(first, past), |past.trace|);
      StepIsDriven(c, first, past, Make(id, m), script);
      var t := store.Transition(id, m.From(), m.To(), m.Columns());
      moved := t.Moved?;
      if moved && m.StartRollback? {
        undo := undo + multiset{id};
      }
      tally := tally.(commits := tally.commits + if moved then 1 else 0,
                      missed := tally.missed + if moved || Early(m) then 0 else 1);
      MovesKeepTheAction(old(store.db.rows[id]), m, store.db.now);
      MoveIsAStep(w, W(), id, m);
      Stepped(w, Make(id, m));
    }

    /** What was asked since `first` calls for the move. */
    lemma Answered(c: Call, id: Id, row: Row, m: Move, first: History, e: Entry)
      requires Valid() && Drove(c, first, past) && e in New(first, past) && Shows(c, id, row, m, e)
      ensures MayMove(c, id, row, m, New(first, past), |past.trace|)
    {
      hide Shows, Inv, Told, New;
      DroveIsLater(c, first, past);
      AskedBefore(first, past, script, e);
    }

    /** The grounds of a move stand while others act. */
    lemma StillAnswered(c: Call, id: Id, row: Row, row': Row, m: Move, first: History, was: History)
      requires MayMove(c, id, row, m, New(first, was), |was.trace|)
      requires Drove(c, first, was) && Quiet(was, past) && RowRely(row, row') && (Early(m) || row.status != Pending)
      ensures Drove(c, first, past) && New(first, past) == New(first, was)
      ensures MayMove(c, id, row', m, New(first, past), |past.trace|)
    {
      hide MayMove, Drove, New, Silent;
      DroveThenQuiet(c, first, was, past);
      QuietIsSilent(was, past);
      SilentIsLater(was, past);
      LaterKeepsLog(was, past);
      MayMoveStays(c, id, row, row', m, New(first, was), |was.trace|, |past.trace|);
    }

    /** Move the row to a final status. If another attempt moved it first, that attempt's status stands. */
    method Finish(c: Call, id: Id, m: Move, ghost first: History) returns (row: Row)
      requires Valid() && Mine(store.db, id, c.run, c.stepId) && Final(m.To())
      requires Early(m) || store.db.rows[id].status != Pending
      requires Drove(c, first, past) && MayMove(c, id, store.db.rows[id], m, New(first, past), |past.trace|)
      modifies this, store
      ensures Has(c, id, row) && SameAction(old(store.db.rows[id]), row)
      ensures Drove(c, first, past) && New(first, past) == New(first, old(past)) && Silent(old(past), past)
      ensures FinishedAs(old(store.db.rows[id]), row, m, store.db.now, old(tally), tally)
    {
      hide Valid, MovedRow, Later, Silent, Quiet, New, Drove, MayMove, RowRely, FinishedAs, SameAction, Early;
      ghost var was, begun, counted := store.db.rows[id], past, tally;
      Pause(c, id);
      ghost var before, calm := store.db.rows[id], past;
      StillAnswered(c, id, was, before, m, first, begun);
      QuietIsSilent(begun, calm);
      var moved := CompareAndSet(c, id, m, first);
      ghost var made, reached := past, store.db.rows[id];
      SilentThenSilent(begun, calm, made);
      if !moved {
        Pause(c, id);
        DroveThenQuiet(c, first, made, past);
        QuietIsSilent(made, past);
        SilentThenSilent(begun, made, past);
      } else {
        NobodyActs(reached);
      }
      row := store.db.rows[id];
      MovedOrMissed(was, before, reached, row, m, moved, store.db.now, counted, tally);
    }

    /** End an action that nobody else may decide: its row is moved as wished, and the result follows it. */
    method Settle(c: Call, id: Id, m: Move, ghost first: History) returns (r: StepResult)
      requires Valid() && Mine(store.db, id, c.run, c.stepId) && Final(m.To())
      requires store.db.rows[id].status in m.From() && store.db.rows[id].status != Pending
      requires Drove(c, first, past) && MayMove(c, id, store.db.rows[id], m, New(first, past), |past.trace|)
      modifies this, store
      ensures Valid() && Mine(store.db, id, c.run, c.stepId)
      ensures Drove(c, first, past) && New(first, past) == New(first, old(past)) && Silent(old(past), past)
      ensures SameAction(old(store.db.rows[id]), store.db.rows[id]) && store.db.rows[id].status == m.To()
      ensures store.db.rows[id].result == Some(Outcome(m.Lost? || m.Interrupted?))
      ensures r == Conclude(id, store.db.rows[id]) && r.Finished?
      ensures tally == old(tally).(commits := old(tally).commits + 1)
    {
      hide Valid, MovedRow, Silent, SameAction, Early, FinalResult, Drove, New, MayMove;
      ghost var before := store.db.rows[id];
      var row := Finish(c, id, m, first);
      MovesKeepTheAction(before, m, store.db.now);
      ResultsFollowTheRecord(row);
      r := Conclude(id, row);
    }

    method NoteOpened(c: Call, id: Id, number: string, ghost first: History, ghost e: Entry)
      requires Valid() && Mine(store.db, id, c.run, c.stepId)
      requires Drove(c, first, past) && e in New(first, past)
      requires e.asked == ChangeRecord && e.answer.number == Some(number)
      modifies this, store
      ensures Has(c, id, old(store.db.rows[id]).(change := number))
      ensures Drove(c, first, past) && New(first, past) == New(first, old(past))
      ensures tally == old(tally).(commits := old(tally).commits + 1)
    {
      hide Valid, Inv, TableInv, Put, Apply, After, Truthful, Later, Silent, Quiet, New, Drove, Grounded;
      Open();
      ghost var w := W();
      DroveIsLater(c, first, past);
      AskedBefore(first, past, script, e);
      OpeningIsGrounded(c, id, number, w, New(first, past), |past.trace|, e);
      StepIsDriven(c, first, past, Opened(id, number), script);
      NotesAreWritten(store.db, id, store.db.rows[id].(change := number));
      store.NoteChange(id, number);
      tally := tally.(commits := tally.commits + 1);
      NoteIsAStep(w, W(), Opened(id, number));
      Stepped(w, Opened(id, number));
    }

    method NoteAsked(c: Call, id: Id)
      requires Valid() && Mine(store.db, id, c.run, c.stepId)
      modifies this, store
      ensures Has(c, id, old(store.db.rows[id]).(requestedAt := Some(store.db.now)))
      ensures Drove(c, old(past), past) && Silent(old(past), past)
      ensures tally == old(tally).(commits := old(tally).commits + 1)
    {
      hide Valid, Inv, TableInv, Put, Apply, After, Truthful, Later, Silent, Quiet, New, Drove, Grounded;
      Open();
      ghost var w := W();
      NothingDriven(c, past);
      NoteIsGrounded(c, Asked(id), w, [], |past.trace|);
      StepIsDriven(c, past, past, Asked(id), script);
      NotesAreWritten(store.db, id, store.db.rows[id].(requestedAt := Some(store.db.now)));
      store.NoteRequested(id);
      tally := tally.(commits := tally.commits + 1);
      NoteIsAStep(w, W(), Asked(id));
      Stepped(w, Asked(id));
    }

    /** The change record the write is made under. Without one the decision is a denial. */
    method EnsureChange(c: Call, id: Id, row: Row) returns (after: Row)
      requires Has(c, id, row) && Waits(row)
      modifies this, store
      ensures Has(c, id, after) && Drove(c, old(past), past)
      ensures OpenedAs(row, New(old(past), past), after)
      ensures NotBegun(after)
      ensures tally == old(tally).(commits := tally.commits)
    {
      hide Valid, MovedRow, Drove, Silent, Quiet, New, RowRely;
      ghost var first := past;
      NothingDriven(c, first);
      if row.change != "" {
        return row;
      }
      var answer := Consult(c, id, ChangeRecord);
      ghost var e := New(first, past)[0];
      WaitingRowsStay(row, store.db.rows[id]);
      match answer.number {
        case None => after := Deny(c, id, store.db.rows[id], first, e);
        case Some(found) => after := NoteNumber(c, id, store.db.rows[id], found, first, e);
      }
    }

    /** No change record could be opened: the decision becomes a denial. */
    method Deny(c: Call, id: Id, row: Row, ghost first: History, ghost e: Entry) returns (after: Row)
      requires Has(c, id, row) && NotBegun(row)
      requires Drove(c, first, past) && e in New(first, past) && e.asked == ChangeRecord && e.answer.number.None?
      modifies this, store
      ensures Has(c, id, after) && Drove(c, first, past) && New(first, past) == New(first, old(past))
      ensures after.what == row.what && Final(after.status) && !Begun(after.status) && after.status != Verified
      ensures tally == old(tally).(commits := tally.commits)
    {
      hide Valid, MovedRow, Drove, Silent, New, MayMove;
      Answered(c, id, row, ChangeDenied, first, e);
      after := Finish(c, id, ChangeDenied, first);
      MovesKeepTheAction(row, ChangeDenied, store.db.now);
    }

    /** The number of the change record goes on the row, whatever its status is by now. */
    method NoteNumber(c: Call, id: Id, row: Row, number: ChangeNumber, ghost first: History, ghost e: Entry)
      returns (after: Row)
      requires Has(c, id, row) && NotBegun(row)
      requires Drove(c, first, past) && e in New(first, past)
      requires e.asked == ChangeRecord && e.answer.number == Some(number)
      modifies this, store
      ensures Has(c, id, after) && Drove(c, first, past) && New(first, past) == New(first, old(past))
      ensures after.what == row.what && after.change == number
      ensures NotBegun(after)
      ensures tally == old(tally).(commits := tally.commits)
    {
      hide Valid, Drove, Quiet, New, RowRely;
      ghost var noted := past;
      Pause(c, id);
      DroveThenQuiet(c, first, noted, past);
      WaitingRowsStay(row, store.db.rows[id]);
      NoteOpened(c, id, number, first, e);
      after := store.db.rows[id];
    }

    /** Ask for approval, in ServiceNow too when that channel is on, and record that it was asked. */
    method RequestApproval(c: Call, id: Id, was: Row) returns (row: Row)
      requires Has(c, id, was) && was.status == Pending
      modifies this, store
      ensures Has(c, id, row) && SameAction(was, row) && Drove(c, old(past), past)
      ensures |New(old(past), past)| == if was.viaServiceNow then 1 else 0
      ensures was.viaServiceNow ==> New(old(past), past)[0].asked == ApprovalRequest(was.change)
      ensures row.requestedAt == Some(store.db.now)
      ensures Final(row.status) || row.status == Pending || row.status == Approved
      ensures !Begun(row.status) && row.status != Verified
      ensures row.expiresAt == was.expiresAt
      ensures tally == old(tally).(commits := tally.commits)
    {
      hide Valid, Drove, Silent, Quiet, New;
      ghost var first := past;
      NothingDriven(c, first);
      if was.viaServiceNow {
        var _ := Consult(c, id, ApprovalRequest(was.change));
      }
      ghost var requested := past;
      Pause(c, id);
      ghost var calm := past;
      DroveThenQuiet(c, first, requested, calm);
      NoteAsked(c, id);
      DroveThenSilent(c, first, calm, past);
      row := store.db.rows[id];
    }

    /** Read the switches and move the row to executing, in one transaction. */
    method StartExecution(c: Call, id: Id) returns (why: Authorisation)
      requires Valid() && Mine(store.db, id, c.run, c.stepId) && store.db.rows[id].status in WAITING
      modifies this, store
      ensures Valid() && Mine(store.db, id, c.run, c.stepId) && Drove(c, old(past), past)
      ensures Authorising(id, New(old(past), past), why)
      ensures why.Started? ==>
                && store.db.rows[id].status == Executing
                && SameAction(old(store.db.rows[id]), store.db.rows[id])
                && id in tickets
                && tally == old(tally).(commits := old(tally).commits + 1)
      ensures !why.Started? ==> store.db.rows[id] == old(store.db.rows[id]) && tally == old(tally)
    {
      hide Valid, AuthoriseExecution, Drove, Silent, Quiet, New;
      ghost var first := past;
      var answer := Consult(c, id, Start);
      why := Authorise(c, id, answer.yes, first, New(first, past)[0]);
    }

    /** The authorisation itself. */
    method Authorise(c: Call, id: Id, local: bool, ghost first: History, ghost e: Entry) returns (why: Authorisation)
      requires Valid() && Mine(store.db, id, c.run, c.stepId)
      requires Drove(c, first, past) && e in New(first, past)
      requires e.asked == Start && e.world == W() && e.answer.yes == local
      modifies this, store
      ensures Valid() && Mine(store.db, id, c.run, c.stepId)
      ensures Drove(c, first, past) && New(first, past) == New(first, old(past))
      ensures why == AuthoriseExecution(old(store.db), id, local)
      ensures why.Started? ==>
                && store.db.rows[id] == old(store.db.rows[id]).(status := Executing, startedAt := Some(store.db.now))
                && id in tickets
                && tally == old(tally).(commits := old(tally).commits + 1)
      ensures !why.Started? ==> store.db.rows[id] == old(store.db.rows[id]) && tally == old(tally)
    {
      hide Valid, Inv, TableInv, AuthoriseExecution, Apply, After, Truthful, Later, Silent, Quiet, New, Drove;
      hide Grounded;
      Open();
      ghost var w := W();
      DroveIsLater(c, first, past);
      AskedBefore(first, past, script, e);
      AuthorisationIsGrounded(c, id, local, w, New(first, past), |past.trace|, e);
      StepIsDriven(c, first, past, ActionRuns.Authorise(id, local), script);
      AuthorisedRow(store.db, id, local);
      why := store.AuthoriseExecution(id, local);
      if why.Started? {
        tickets := tickets + multiset{id};
        tally := tally.(commits := tally.commits + 1);
      }
      AuthorisationIsAStep(w, W(), id, local);
      Stepped(w, ActionRuns.Authorise(id, local));
    }

    /** Record that the write may be made, and only then mint the grant for it. */
    method AuthoriseWrite(c: Call, id: Id) returns (why: Authorisation, g: nat)
      requires Valid() && Mine(store.db, id, c.run, c.stepId) && store.db.rows[id].status in WAITING
      modifies this, store
      ensures Valid() && Mine(store.db, id, c.run, c.stepId) && Drove(c, old(past), past)
      ensures Authorising(id, New(old(past), past), why)
      ensures why.Started? ==>
                && store.db.rows[id].status == Executing
                && SameAction(old(store.db.rows[id]), store.db.rows[id])
                && g < |grants| && grants[g].action == id && !grants[g].rollback
                && grants[g].digest == store.db.rows[id].what.callDigest
                && tally == old(tally).(commits := old(tally).commits + 1, mints := old(tally).mints + 1)
      ensures !why.Started? ==> store.db.rows[id] == old(store.db.rows[id]) && tally == old(tally)
    {
      hide Valid, Drove, Silent, Quiet, New, AuthoriseExecution;
      ghost var first := past;
      g := 0;
      why := StartExecution(c, id);
      if why.Started? {
        ghost var begun := past;
        Hold(c, id);
        ghost var calm := past;
        DroveThenQuiet(c, first, begun, calm);
        g := |grants|;
        Mint(c, id);
        DroveThenSilent(c, first, calm, past);
      }
    }

    method Mint(c: Call, id: Id)
      requires Valid() && Mine(store.db, id, c.run, c.stepId) && id in tickets
      modifies this
      ensures Valid() && Drove(c, old(past), past) && Silent(old(past), past)
      ensures |grants| == old(|grants|) + 1
      ensures var g := grants[old(|grants|)];
              g.action == id && !g.rollback && g.digest == store.db.rows[id].what.callDigest
      ensures tally == old(tally).(mints := old(tally).mints + 1)
    {
      hide Valid, Inv, TableInv, Apply, Truthful, Later, Silent, Quiet, New, Drove, Grounded;
      Open();
      ghost var w := W();
      NothingDriven(c, past);
      NoteIsGrounded(c, ActionRuns.Mint(id), w, [], |past.trace|);
      StepIsDriven(c, past, past, ActionRuns.Mint(id), script);
      MintIsAStep(w, id);
      tickets := tickets - multiset{id};
      grants := grants + [Grant(id, false, store.db.rows[id].what.callDigest, store.db.now + GRANT_SECONDS)];
      tally := tally.(mints := tally.mints + 1);
      Stepped(w, ActionRuns.Mint(id));
    }

    /** A grant for the declared rollback of a write that was made under a decision, unless a switch is on. */
    method AuthoriseRollback(c: Call, id: Id, call: CallDigest) returns (granted: bool, g: nat)
      requires Valid() && Mine(store.db, id, c.run, c.stepId) && Undoes(c, call)
      requires store.db.rows[id].status in StartRollback.From()
      modifies this, store
      ensures Valid() && Mine(store.db, id, c.run, c.stepId) && Drove(c, old(past), past)
      ensures SameAction(old(store.db.rows[id]), store.db.rows[id])
      ensures |New(old(past), past)| == 1 && New(old(past), past)[0].asked == Switches
      ensures granted <==> !On(New(old(past), past)[0])
      ensures store.db.rows[id].status == if granted then RollingBack else old(store.db.rows[id]).status
      ensures granted ==>
                && g < |grants| && grants[g].action == id && grants[g].rollback && grants[g].digest == call
                && tally == old(tally).(commits := old(tally).commits + 1, undos := old(tally).undos + 1)
      ensures !granted ==> tally == old(tally)
    {
      hide Valid, MovedRow, Drove, Silent, Quiet, New, SwitchesOn, Undoes, MayMove;
      ghost var first := past;
      var answer := Consult(c, id, Switches);
      g := 0;
      SwitchesOnExactlyWhen(store.db, answer.yes);
      granted := SwitchesOn(store.db, answer.yes) == {};
      if granted {
        Answered(c, id, store.db.rows[id], StartRollback, first, New(first, past)[0]);
        g := StartUndoing(c, id, call, first);
      }
    }

    /** Record that the rollback is being made, and only then mint the grant for it. */
    method StartUndoing(c: Call, id: Id, call: CallDigest, ghost first: History) returns (g: nat)
      requires Valid() && Mine(store.db, id, c.run, c.stepId) && Undoes(c, call)
      requires store.db.rows[id].status in StartRollback.From()
      requires Drove(c, first, past) && MayMove(c, id, store.db.rows[id], StartRollback, New(first, past), |past.trace|)
      modifies this, store
      ensures Valid() && Mine(store.db, id, c.run, c.stepId)
      ensures Drove(c, first, past) && New(first, past) == New(first, old(past))
      ensures SameAction(old(store.db.rows[id]), store.db.rows[id])
      ensures store.db.rows[id].status == RollingBack
      ensures g < |grants| && grants[g].action == id && grants[g].rollback && grants[g].digest == call
      ensures tally == old(tally).(commits := old(tally).commits + 1, undos := old(tally).undos + 1)
    {
      hide Valid, MovedRow, Drove, Silent, Quiet, New, SameAction, Undoes, MayMove;
      ghost var row, begun := store.db.rows[id], past;
      Hold(c, id);
      StillAnswered(c, id, row, row, StartRollback, first, begun);
      MovesKeepTheAction(store.db.rows[id], StartRollback, store.db.now);
      var moved := CompareAndSet(c, id, StartRollback, first);
      ghost var made := past;
      Hold(c, id);
      ghost var calm := past;
      DroveThenQuiet(c, first, made, calm);
      g := |grants|;
      MintUndo(c, id, call);
      DroveThenSilent(c, first, calm, past);
    }

    method MintUndo(c: Call, id: Id, call: CallDigest)
      requires Valid() && Mine(store.db, id, c.run, c.stepId) && id in undo && Undoes(c, call)
      modifies this
      ensures Valid() && Drove(c, old(past), past) && Silent(old(past), past)
      ensures |grants| == old(|grants|) + 1
      ensures var g := grants[old(|grants|)]; g.action == id && g.rollback && g.digest == call
      ensures tally == old(tally).(undos := old(tally).undos + 1)
    {
      hide Valid, Inv, TableInv, Apply, Truthful, Later, Silent, Quiet, New, Drove, Grounded, Undoes;
      Open();
      ghost var w := W();
      NothingDriven(c, past);
      NoteIsGrounded(c, ActionRuns.MintUndo(id, call), w, [], |past.trace|);
      StepIsDriven(c, past, past, ActionRuns.MintUndo(id, call), script);
      MintUndoIsAStep(w, id, call);
      undo := undo - multiset{id};
      grants := grants + [Grant(id, true, call, store.db.now + GRANT_SECONDS)];
      tally := tally.(undos := tally.undos + 1);
      Stepped(w, ActionRuns.MintUndo(id, call));
    }

    /** The switches are read where the call is let through to whoever redeems its grant. */
    method LetThrough(c: Call, id: Id, g: nat)
      requires Valid() && Mine(store.db, id, c.run, c.stepId)
      modifies this
      ensures Valid() && Drove(c, old(past), past) && Silent(old(past), past) && tally == old(tally)
      ensures grants == old(grants) && writes == old(writes)
    {
      hide Valid, Inv, TableInv, Apply, Truthful, Later, Silent, Quiet, New, Drove;
      Open();
      ghost var w := W();
      var local: bool := *;
      NothingDriven(c, past);
      StepIsDriven(c, past, past, Clear(g, local), script);
      ClearIsAStep(w, g, local);
      if g < |grants| && SwitchesOn(store.db, local) == {} {
        cleared := cleared + {g};
      }
      Stepped(w, Clear(g, local));
    }

    /** The connector redeems the grant before it writes. */
    method Redeem(c: Call, id: Id, g: nat, capability: string, params: Params) returns (accepted: bool)
      requires Valid() && Mine(store.db, id, c.run, c.stepId) && g < |grants|
      requires (capability == c.capability.id && params == c.params) || Undoes(c, CallDigest(capability, params))
      modifies this
      ensures Valid() && Drove(c, old(past), past) && Silent(old(past), past) && grants == old(grants)
      ensures tally == old(tally).(sends := old(tally).sends + if accepted && !grants[g].rollback then 1 else 0)
      ensures accepted ==> grants[g].digest == CallDigest(capability, params)
    {
      hide Valid, Inv, TableInv, Apply, Truthful, Later, Silent, Quiet, New, Redeemable, Drove, Grounded, Undoes;
      NothingDriven(c, past);
      var reached: bool := *;
      var file: bool := *;
      accepted := reached && Redeemable(W(), id, g, CallDigest(capability, params), file);
      if accepted {
        Open();
        ghost var w := W();
        NoteIsGrounded(c, Send(id, g, capability, params, file), w, [], |past.trace|);
        StepIsDriven(c, past, past, Send(id, g, capability, params, file), script);
        RedeemedIsThisCall(w, id, g, CallDigest(capability, params), file);
        writes := writes + [Write(g, capability, params, store.db.now)];
        tally := tally.(sends := tally.sends + if grants[g].rollback then 0 else 1);
        SendIsAStep(w, W(), id, g, capability, params, file);
        Stepped(w, Send(id, g, capability, params, file));
      }
    }

    /** What is heard of a write: a write that was not accepted is never heard of as made. */
    method HearOf(c: Call, g: nat, capability: string, params: Params, rollback: bool, accepted: bool)
      returns (r: Written)
      requires Valid()
      modifies this`past, this`asked, this`tally
      ensures Valid() && Drove(c, old(past), past)
      ensures |New(old(past), past)| == 1
      ensures var e := New(old(past), past)[0];
              WasSent(e, g, capability, params, rollback) && e.asked.accepted == accepted && r == Heard(e)
      ensures tally == if rollback then old(tally) else Hearing(old(tally), r)
    {
      hide Valid, Truthful, Later, Silent, Quiet, New, Told, Inv, Drove, OwnSteps;
      Open();
      var answer := script(asked);
      AskingIsLater(past, Question.Sent(g, capability, params, rollback, accepted), answer, script, tally);
      past := Asking(past, Question.Sent(g, capability, params, rollback, accepted), W(), answer);
      AskingIsDriven(c, old(past), past);
      asked := asked + 1;
      r := if answer.written == Done && !accepted then NotMade else answer.written;
      tally := if rollback then tally else Hearing(tally, r);
      Close();
    }

    /** Call the connector: it is let through, it redeems the grant and writes, and the answer may be lost. */
    method Invoke(c: Call, id: Id, g: nat, rollback: bool, capability: string, params: Params) returns (r: Written)
      requires Valid() && Mine(store.db, id, c.run, c.stepId)
      requires g < |grants| && grants[g].rollback == rollback
      requires (capability == c.capability.id && params == c.params) || Undoes(c, CallDigest(capability, params))
      requires store.db.rows[id].status != Pending
      modifies this, store
      ensures Has(c, id, old(store.db.rows[id])) && Drove(c, old(past), past)
      ensures |New(old(past), past)| == 1
      ensures var e := New(old(past), past)[0];
              && WasSent(e, g, capability, params, rollback) && r == Heard(e)
              && (!rollback ==> (e.asked.accepted <==> tally.sends > old(tally).sends))
      ensures tally == (if rollback then old(tally) else Hearing(old(tally), r)).(sends := tally.sends)
      ensures old(tally).sends <= tally.sends <= old(tally).sends + if rollback then 0 else 1
      ensures tally.sends > old(tally).sends ==> old(grants[g]).digest == CallDigest(capability, params)
    {
      hide Valid, Drove, Silent, Quiet, New, Undoes, WasSent, Heard;
      ghost var first := past;
      NothingDriven(c, first);
      Hold(c, id);
      ghost var one := past;
      DroveThenQuiet(c, first, first, one);
      LetThrough(c, id, g);
      ghost var two := past;
      DroveThenSilent(c, first, one, two);
      Hold(c, id);
      ghost var three := past;
      DroveThenQuiet(c, first, two, three);
      var accepted := Redeem(c, id, g, capability, params);
      ghost var four := past;
      DroveThenSilent(c, first, three, four);
      r := HearOf(c, g, capability, params, rollback, accepted);
      SilentDrive(c, first, four, past);
    }

    /** Undo the write where the manifest says how, then hand the incident to a person. */
    method RollBack(c: Call, id: Id, row: Row) returns (r: StepResult)
      requires Has(c, id, row) && (row.status == Executing || row.status == Executed)
      modifies this, store
      ensures Valid() && Mine(store.db, id, c.run, c.stepId) && Drove(c, old(past), past)
      ensures SameAction(row, store.db.rows[id])
      ensures r == Conclude(id, store.db.rows[id]) && r.Finished?
      ensures Undoing(c, New(old(past), past), store.db.rows[id].status)
      ensures tally == old(tally).(commits := tally.commits, undos := tally.undos)
      ensures old(tally).undos <= tally.undos <= old(tally).undos + 1
      ensures c.capability.rollback.None? ==> tally.undos == old(tally).undos
    {
      hide Valid, MovedRow, FinalResult, Drove, Silent, Quiet, New, SwitchesOn, Undoing, MayMove;
      ghost var first := past;
      NothingDriven(c, first);
      var m := NoRollback;
      if c.capability.rollback.Some? {
        m := Undo(c, id, c.capability.rollback.value);
      } else {
        NothingToUndo(c);
        NoneDeclared(c, id, row, New(first, past), |past.trace|);
      }
      r := Settle(c, id, m, first);
    }

    /** Make the declared rollback, if it may be made. */
    method Undo(c: Call, id: Id, undo: Reading) returns (m: Move)
      requires Valid() && Mine(store.db, id, c.run, c.stepId) && c.capability.rollback == Some(undo)
      requires store.db.rows[id].status in StartRollback.From()
      modifies this, store
      ensures Valid() && Mine(store.db, id, c.run, c.stepId) && Drove(c, old(past), past)
      ensures SameAction(old(store.db.rows[id]), store.db.rows[id])
      ensures store.db.rows[id].status in {Executing, Executed, RollingBack}
      ensures m == MarkRolledBack || m == MarkRollbackFailed
      ensures Undoing(c, New(old(past), past), m.To())
      ensures MayMove(c, id, store.db.rows[id], m, New(old(past), past), |past.trace|)
      ensures tally == old(tally).(commits := tally.commits, undos := tally.undos)
      ensures old(tally).undos <= tally.undos <= old(tally).undos + 1
    {
      hide Valid, MovedRow, Drove, Silent, Quiet, New, SwitchesOn, SameAction, Undoing, On, Heard, WasSent;
      hide ReadParameters, MayMove, Shows;
      ghost var first := past;
      var params := ReadParameters(c.params, undo);
      var granted, g := AuthoriseRollback(c, id, CallDigest(undo.capability, params));
      if !granted {
        RollbackIsHeld(c, New(first, past));
        FailedRollbackShows(c, id, store.db.rows[id], New(first, past)[0]);
        Answered(c, id, store.db.rows[id], MarkRollbackFailed, first, New(first, past)[0]);
        return MarkRollbackFailed;
      }
      ghost var mid := past;
      var undone := Invoke(c, id, g, true, undo.capability, params);
      DroveOnce(c, first, mid, past);
      RollbackIsSent(c, New(first, past), undo, g);
      m := if undone == Done then MarkRolledBack else MarkRollbackFailed;
      SentRollbackShows(c, id, store.db.rows[id], New(first, past)[1], g, undo.capability, params);
      Answered(c, id, store.db.rows[id], m, first, New(first, past)[1]);
    }

    /** Others act, and one read is made of the target. */
    method Read(c: Call, id: Id, r: Reading) returns (answer: Answer)
      requires Valid() && Mine(store.db, id, c.run, c.stepId) && store.db.rows[id].status != Pending
      modifies this, store
      ensures Has(c, id, old(store.db.rows[id])) && tally == old(tally) && Drove(c, old(past), past)
      ensures |New(old(past), past)| == 1
      ensures var e := New(old(past), past)[0]; e.asked == c.Reads(r) && e.answer == answer
    {
      hide Valid, Drove, Silent, Quiet, New;
      answer := Consult(c, id, c.Reads(r));
    }

    /** Read the target until it shows the result, shows that it failed, or the tries run out. */
    method LookAtTarget(c: Call, id: Id, row: Row) returns (shown: bool)
      requires Has(c, id, row) && row.status != Pending
      modifies this, store
      ensures Has(c, id, row) && tally == old(tally) && Drove(c, old(past), past)
      ensures Looked(c, New(old(past), past), shown)
    {
      hide Valid, Drove, Silent, Quiet, New, ExpressionEval.Holds;
      ghost var first := past;
      NothingDriven(c, first);
      var attempt := 0;
      while attempt <= c.retries
        invariant Has(c, id, row) && tally == old(tally) && Drove(c, first, past)
        invariant |New(first, past)| == attempt <= c.retries + 1
        invariant forall i | 0 <= i < attempt :: LooksOn(c, New(first, past)[i])
        decreases c.retries + 1 - attempt
      {
        attempt := attempt + 1;
        ghost var mid := past;
        var answer := Read(c, id, c.capability.verify);
        DroveOnce(c, first, mid, past);
        if answer.value.Some? {
          if Holds(c.assertion, answer.value.value, c.params) {
            return true;
          }
          if c.capability.failed != "" && Holds(c.capability.failed, answer.value.value, c.params) {
            return false;
          }
        }
      }
      shown := false;
    }

    /**
     Look at the target, and roll back what is not seen to be done. After a crash or a lost answer
     nothing is rolled back: what was not seen may not have been done.
     */
    method VerifyAndFinish(c: Call, id: Id, row: Row, interrupted: bool) returns (r: StepResult, ghost n: nat)
      requires Has(c, id, row) && (row.status == Executing || row.status == Executed)
      requires interrupted ==> row.status == Executing
      modifies this, store
      ensures Valid() && Mine(store.db, id, c.run, c.stepId) && Drove(c, old(past), past)
      ensures SameAction(row, store.db.rows[id])
      ensures r == Conclude(id, store.db.rows[id]) && r.Finished?
      ensures VerifiedAs(c, New(old(past), past), n, interrupted, store.db.rows[id].status)
      ensures store.db.rows[id].status == Verified || store.db.rows[id].status in NotVerified(c) || interrupted
      ensures tally == old(tally).(commits := tally.commits, undos := tally.undos)
      ensures old(tally).undos <= tally.undos <= old(tally).undos + 1
      ensures interrupted ==> tally.undos == old(tally).undos && SeenOrUnknown(store.db.rows[id])
    {
      hide Valid, MovedRow, FinalResult, Drove, Silent, Quiet, New, Looked, MayMove, Shows;
      ghost var first := past;
      var shown := LookAtTarget(c, id, row);
      ghost var mid := past;
      n := |New(first, mid)|;
      if shown || interrupted {
        LastLookShows(c, id, row, New(first, mid), shown);
        Answered(c, id, row, if shown then MarkVerified else ActionRuns.Lost, first, New(first, mid)[n - 1]);
        r := Settle(c, id, if shown then MarkVerified else ActionRuns.Lost, first);
        assert New(first, past)[..n] == New(first, mid);
      } else {
        r := RollBack(c, id, row);
        DroveOnce(c, first, mid, past);
        assert New(first, past)[..n] == New(first, mid) && New(first, past)[n..] == New(mid, past);
        UndoingEnds(c, New(mid, past), store.db.rows[id].status);
      }
    }

    /** Send the write under its grant, then verify it, or roll back, or look when the answer was lost. */
    method SendAndVerify(c: Call, id: Id, g: nat) returns (r: StepResult, ghost n: nat)
      requires Valid() && Mine(store.db, id, c.run, c.stepId) && store.db.rows[id].status == Executing
      requires g < |grants| && grants[g].action == id && !grants[g].rollback
      requires grants[g].digest == store.db.rows[id].what.callDigest
      modifies this, store
      ensures Valid() && Mine(store.db, id, c.run, c.stepId) && Drove(c, old(past), past)
      ensures SameAction(old(store.db.rows[id]), store.db.rows[id])
      ensures r == Conclude(id, store.db.rows[id]) && r.Finished?
      ensures SentAs(c, id, past, New(old(past), past), n, store.db.rows[id].status)
      ensures Followed(c, store.db.rows[id], old(tally), tally)
      ensures Begun(store.db.rows[id].status)
      ensures tally.missed == old(tally).missed && tally.mints == old(tally).mints
      ensures old(tally).undos <= tally.undos <= old(tally).undos + 1
      ensures old(tally).sends <= tally.sends <= old(tally).sends + 1
      ensures OneHeard(old(tally), tally)
      ensures tally.sends > old(tally).sends ==>
                CallDigest(c.capability.id, c.params) == old(store.db.rows[id]).what.callDigest
    {
      hide Valid, MovedRow, FinalResult, Drove, Silent, Quiet, New, VerifiedAs, Undoing, RecordedFirst;
      ghost var row, first := store.db.rows[id], past;
      n := 0;
      var written := Invoke(c, id, g, false, c.capability.id, c.params);
      ghost var mid := past;
      ghost var heard := tally;
      match written {
        case OutcomeUnknown =>
          r, n := VerifyAndFinish(c, id, store.db.rows[id], true);
          DroveOnce(c, first, mid, past);
        case NotMade =>
          r := RollBack(c, id, store.db.rows[id]);
          UndoingEnds(c, New(mid, past), store.db.rows[id].status);
          DroveOnce(c, first, mid, past);
        case Done =>
          r, n := MadeAndVerify(c, id, store.db.rows[id], first);
      }
      assert New(first, past)[1..] == if written.Done? then New(first, past)[1..] else New(mid, past);
    }

    /** The write was made: record that, and look. */
    method MadeAndVerify(c: Call, id: Id, row: Row, ghost first: History) returns (r: StepResult, ghost n: nat)
      requires Has(c, id, row) && row.status == Executing && Drove(c, first, past) && |New(first, past)| == 1
      requires var e := New(first, past)[0]; e.asked.Sent? && !e.asked.rollback && Heard(e) == Done
      modifies this, store
      ensures Valid() && Mine(store.db, id, c.run, c.stepId) && Drove(c, first, past)
      ensures SameAction(row, store.db.rows[id])
      ensures r == Conclude(id, store.db.rows[id]) && r.Finished?
      ensures |New(first, past)| > 1 && New(first, past)[0] == New(first, old(past))[0]
      ensures RecordedFirst(past, id, New(first, past)[0], New(first, past)[1])
      ensures VerifiedAs(c, New(first, past)[1..], n, false, store.db.rows[id].status)
      ensures store.db.rows[id].status == Verified || store.db.rows[id].status in NotVerified(c)
      ensures tally == old(tally).(commits := tally.commits, undos := tally.undos)
      ensures old(tally).undos <= tally.undos <= old(tally).undos + 1
    {
      hide Valid, MovedRow, FinalResult, Drove, Later, Silent, Quiet, New, VerifiedAs, MayMove, Shows, RecordedFirst;
      ghost var heard, sent := past, New(first, past)[0];
      SentShows(c, id, row, sent);
      Answered(c, id, row, MarkExecuted, first, sent);
      Hold(c, id);
      StillAnswered(c, id, row, row, MarkExecuted, first, heard);
      ghost var calm := past;
      AskedAlready(c, first, sent);
      var moved := CompareAndSet(c, id, MarkExecuted, first);
      MovesKeepTheAction(row, MarkExecuted, store.db.now);
      ghost var mid := past;
      RecordsHere(id, calm);
      r, n := VerifyAndFinish(c, id, store.db.rows[id], false);
      VerifyingLooks(c, New(mid, past), n, false, store.db.rows[id].status);
      DroveOnce(c, first, mid, past);
      assert New(first, past)[1..] == New(mid, past);
      RecordedBefore(c, id, first, mid, past, |calm.trace|, sent);
    }

    /** The row was moved to executed by the last step of the history. */
    lemma RecordsHere(id: Id, was: History)
      requires past == Stepping(was, Make(id, MarkExecuted))
      requires var rows := Run(was.start, was.trace).db.rows; id in rows && rows[id].status == Executing
      ensures Records(past, id, |was.trace|) && |was.trace| in past.own
    {
      assert past.trace[..|was.trace|] == was.trace;
      assert past.own[|was.own|] == |was.trace|;
    }

    /** What was asked was asked in a world of the trace, and the world now is the one it leads to. */
    lemma AskedAlready(c: Call, first: History, e: Entry)
      requires Valid() && Drove(c, first, past) && e in New(first, past)
      ensures e.at <= |past.trace| && W() == Run(past.start, past.trace)
    {
      hide Inv, Told;
      DroveIsLater(c, first, past);
      AskedBefore(first, past, script, e);
    }

    /** Each check is a read and an assertion on its result; the first that does not hold ends them. */
    method RunPreChecks(c: Call, id: Id, row: Row) returns (passed: bool)
      requires Has(c, id, row) && row.status in WAITING
      modifies this, store
      ensures Has(c, id, row) && tally == old(tally) && Drove(c, old(past), past)
      ensures Checked(c, New(old(past), past), passed)
    {
      hide Valid, Drove, Silent, Quiet, New, ExpressionEval.Holds;
      ghost var first := past;
      NothingDriven(c, first);
      for k := 0 to |c.capability.preChecks|
        invariant Has(c, id, row) && tally == old(tally) && Drove(c, first, past)
        invariant |New(first, past)| == k
        invariant forall i | 0 <= i < k :: CheckHeld(c, i, New(first, past)[i])
      {
        ghost var mid := past;
        var answer := Read(c, id, c.capability.preChecks[k].read);
        DroveOnce(c, first, mid, past);
        if answer.value.None? || !Holds(c.capability.preChecks[k].assertion, answer.value.value, c.params) {
          return false;
        }
      }
      passed := true;
    }

    /** The switches, the deadline, the pre-checks and the dry run; `move` ends the action when one of them says no. */
    method Prepare(c: Call, id: Id, row: Row) returns (move: Option<Move>)
      requires Has(c, id, row) && row.status in WAITING
      modifies this, store
      ensures Has(c, id, row) && tally == old(tally) && Drove(c, old(past), past)
      ensures Prepared(c, row, New(old(past), past), move)
      ensures move.Some? ==> move.value == Abort || move.value == TooLate || move.value == GiveUp
    {
      hide Valid, Drove, Silent, Quiet, New, SwitchesOn, CheckedAndRehearsed;
      ghost var first := past;
      var answer := Consult(c, id, Switches);
      SwitchesOnExactlyWhen(store.db, answer.yes);
      if SwitchesOn(store.db, answer.yes) != {} {
        return Some(Abort);
      }
      ghost var off := past;
      answer := Consult(c, id, Clock);
      DroveOnce(c, first, off, past);
      if PastDeadline(row, store.db.now) {
        return Some(TooLate);
      }
      ghost var mid := past;
      move := CheckAndRehearse(c, id, row);
      DroveOnce(c, first, mid, past);
      assert New(first, past)[2..] == New(mid, past);
    }

    method CheckAndRehearse(c: Call, id: Id, row: Row) returns (move: Option<Move>)
      requires Has(c, id, row) && row.status in WAITING
      modifies this, store
      ensures Has(c, id, row) && tally == old(tally) && Drove(c, old(past), past)
      ensures CheckedAndRehearsed(c, New(old(past), past), move)
      ensures move.None? || move == Some(GiveUp)
    {
      hide Valid, Drove, Silent, Quiet, New, Checked;
      ghost var first := past;
      var passed := RunPreChecks(c, id, row);
      if !passed {
        return Some(GiveUp);
      }
      if !c.capability.dryRun {
        return None;
      }
      ghost var mid := past;
      var answer := Consult(c, id, DryRun);
      DroveOnce(c, first, mid, past);
      ghost var all := New(first, past);
      assert all[..|all| - 1] == New(first, mid);
      move := if answer.yes then None else Some(GiveUp);
    }

    /** From an approved or allowed row to a final one: at most one write, and only if every pre-check held. */
    method Act(c: Call, id: Id, row: Row) returns (r: StepResult, ghost n: nat, ghost m: nat, ghost move: Option<Move>)
      requires Has(c, id, row) && row.status in WAITING
      modifies this, store
      ensures Valid() && Mine(store.db, id, c.run, c.stepId) && Drove(c, old(past), past)
      ensures SameAction(row, store.db.rows[id])
      ensures r == Conclude(id, store.db.rows[id]) && r.Finished?
      ensures ActedAs(c, id, row, past, New(old(past), past), n, m, move, store.db.rows[id].status)
      ensures Restrained(old(tally), tally) && Followed(c, store.db.rows[id], old(tally), tally)
      ensures tally.mints > old(tally).mints <==> Begun(store.db.rows[id].status)
      ensures tally.undos <= old(tally).undos + tally.mints - old(tally).mints
      ensures tally.sends > old(tally).sends ==> CallDigest(c.capability.id, c.params) == row.what.callDigest
    {
      hide Valid, MovedRow, FinalResult, Drove, Silent, Quiet, New, Prepared, WrittenAs, MayMove, Shows;
      ghost var first := past;
      m := 0;
      var says := Prepare(c, id, row);
      move := says;
      ghost var ready := past;
      n := |New(first, ready)|;
      if says.Some? {
        ghost var e := PreparedShows(c, id, row, New(first, ready), says.value);
        Answered(c, id, row, says.value, first, e);
        r := Settle(c, id, says.value, first);
        assert New(first, past)[..n] == New(first, ready);
      } else {
        r, m := WriteAndVerify(c, id, row);
        DroveOnce(c, first, ready, past);
        ghost var all := New(first, past);
        assert all[..n] == New(first, ready) && all[n..] == New(ready, past);
      }
    }

    /** Authorise the write, and make it or say why it was not started. */
    method WriteAndVerify(c: Call, id: Id, row: Row) returns (r: StepResult, ghost m: nat)
      requires Has(c, id, row) && row.status in WAITING
      modifies this, store
      ensures Valid() && Mine(store.db, id, c.run, c.stepId) && Drove(c, old(past), past)
      ensures SameAction(row, store.db.rows[id])
      ensures r == Conclude(id, store.db.rows[id]) && r.Finished?
      ensures WrittenAs(c, id, past, New(old(past), past), m, store.db.rows[id].status)
      ensures Restrained(old(tally), tally) && Followed(c, store.db.rows[id], old(tally), tally)
      ensures tally.mints > old(tally).mints <==> Begun(store.db.rows[id].status)
      ensures tally.undos <= old(tally).undos + tally.mints - old(tally).mints
      ensures tally.sends > old(tally).sends ==> CallDigest(c.capability.id, c.params) == row.what.callDigest
    {
      hide Valid, MovedRow, FinalResult, Drove, Silent, Quiet, New, SentAs, AuthoriseExecution, MayMove, Shows;
      ghost var first := past;
      m := 0;
      var why, g := AuthoriseWrite(c, id);
      ghost var mid := past;
      if why.Started? {
        r, m := SendAndVerify(c, id, g);
        DroveOnce(c, first, mid, past);
        assert New(first, past)[1..] == New(mid, past);
      } else {
        RefusalShows(c, id, row, New(first, mid), why);
        Answered(c, id, row, MoveFor(why), first, New(first, mid)[0]);
        r := Settle(c, id, MoveFor(why), first);
      }
    }

    /** Open the change, ask for approval, and see whether the request has expired. */
    method AwaitApproval(c: Call, id: Id, was: Row) returns (row: Row, waitingAt: Option<Time>, ghost w: Wait)
      requires Has(c, id, was) && Waits(was)
      modifies this, store
      ensures Valid() && Mine(store.db, id, c.run, c.stepId) && Drove(c, old(past), past)
      ensures WaitedAs(was, New(old(past), past), w) && w.row == row && w.at == waitingAt
      ensures row.what == was.what && store.db.rows[id].what == was.what
      ensures tally == old(tally).(commits := tally.commits)
      ensures waitingAt.None? ==>
                && store.db.rows[id] == row
                && NotBegun(row) && row.status != Pending
                && (row.change != "" || Final(row.status))
      ensures waitingAt.Some? ==> StillPending(row, waitingAt.value, New(old(past), past), store.db, id)
    {
      hide Valid, MovedRow, Drove, Silent, Quiet, New, StillPending, AskedAs;
      ghost var first := past;
      waitingAt := None;
      row := EnsureChange(c, id, was);
      w := Wait(row, row, row, None);
      ghost var ensured := past;
      ghost var o := |New(first, ensured)|;
      if row.status == Pending {
        row, waitingAt, w := SeeWhetherExpired(c, id, row);
        DroveOnce(c, first, ensured, past);
        if waitingAt.Some? {
          StaysPending(row, waitingAt.value, New(first, ensured), New(ensured, past), store.db, id);
        }
        assert New(first, past)[..o] == New(first, ensured) && New(first, past)[o..] == New(ensured, past);
      }
      assert New(first, past)[..o] == New(first, ensured);
    }

    /** Others act, and the clock is read. */
    method TellTime(c: Call, id: Id) returns (now: Time)
      requires Valid() && Mine(store.db, id, c.run, c.stepId)
      modifies this, store
      ensures Valid() && Mine(store.db, id, c.run, c.stepId) && Drove(c, old(past), past)
      ensures RowRely(old(store.db.rows[id]), store.db.rows[id]) && tally == old(tally)
      ensures now == store.db.now && ReadClockAt(New(old(past), past), now)
      ensures |New(old(past), past)| == 1
      ensures var e := New(old(past), past)[0]; e.asked == Clock && e.world.db.now == now
    {
      hide Valid, Drove, Silent, Quiet, New, ReadClockAt;
      ghost var first := past;
      var answer := Consult(c, id, Clock);
      now := store.db.now;
      ClockWasRead(New(first, past), now);
    }

    method SeeWhetherExpired(c: Call, id: Id, was: Row) returns (row: Row, waitingAt: Option<Time>, ghost w: Wait)
      requires Has(c, id, was) && was.status == Pending && was.change != ""
      modifies this, store
      ensures Valid() && Mine(store.db, id, c.run, c.stepId) && Drove(c, old(past), past)
      ensures AskedAs(was, New(old(past), past), w) && w.ready == was && w.row == row && w.at == waitingAt
      ensures SameAction(was, row) && SameAction(was, store.db.rows[id])
      ensures tally == old(tally).(commits := tally.commits)
      ensures waitingAt.None? ==>
                && store.db.rows[id] == row
                && NotBegun(row) && row.status != Pending
      ensures waitingAt.Some? ==> StillPending(row, waitingAt.value, New(old(past), past), store.db, id)
    {
      hide Valid, Drove, Quiet, New, ReadClockAt, SeenAs, StillPending;
      ghost var first := past;
      RowsAreSound(id);
      var asked := AskFor(c, id, was);
      ghost var requested := past;
      row, waitingAt := SeeTheTime(c, id, asked);
      DroveOnce(c, first, requested, past);
      w := Wait(was, asked, row, waitingAt);
      AskedThenSeen(was, New(first, requested), New(requested, past), w);
      if waitingAt.Some? {
        StaysPending(row, waitingAt.value, New(first, requested), New(requested, past), store.db, id);
      }
    }

    /** Ask for approval unless that was done already. */
    method AskFor(c: Call, id: Id, was: Row) returns (row: Row)
      requires Has(c, id, was) && was.status == Pending
      modifies this, store
      ensures Has(c, id, row) && SameAction(was, row) && Drove(c, old(past), past)
      ensures RequestedAs(was, New(old(past), past), row)
      ensures NotBegun(row)
      ensures tally == old(tally).(commits := tally.commits)
    {
      hide Valid, Drove, New;
      NothingDriven(c, past);
      row := was;
      if row.requestedAt.None? {
        row := RequestApproval(c, id, row);
      }
    }

    /** A request that is past its time by the clock expires, unless someone decided it first. */
    method SeeTheTime(c: Call, id: Id, asked: Row) returns (row: Row, waitingAt: Option<Time>)
      requires Has(c, id, asked) && asked.expiresAt.Some? && asked.requestedAt.Some? && asked.change != ""
      requires NotBegun(asked)
      modifies this, store
      ensures Valid() && Mine(store.db, id, c.run, c.stepId) && Drove(c, old(past), past)
      ensures SeenAs(asked, New(old(past), past), row, waitingAt)
      ensures SameAction(asked, row) && SameAction(asked, store.db.rows[id])
      ensures tally == old(tally).(commits := tally.commits)
      ensures waitingAt.None? ==>
                && store.db.rows[id] == row
                && NotBegun(row) && row.status != Pending
      ensures waitingAt.Some? ==> StillPending(row, waitingAt.value, New(old(past), past), store.db, id)
    {
      hide Valid, MovedRow, Drove, Silent, Quiet, New, ReadClockAt, MayMove, Shows;
      ghost var first := past;
      row, waitingAt := asked, None;
      var now := TellTime(c, id);
      ghost var e := New(first, past)[0];
      if now >= row.expiresAt.value {
        ExpiryShows(c, id, store.db.rows[id], e);
        Answered(c, id, store.db.rows[id], Expire, first, e);
        row := ExpireOwn(c, id, store.db.rows[id], first);
      } else if row.status == Pending {
        waitingAt := Some(now);
      }
    }

    /** The driver's own expiry, where the clock calls for it. */
    method ExpireOwn(c: Call, id: Id, was: Row, ghost first: History) returns (row: Row)
      requires Has(c, id, was) && NotBegun(was)
      requires Drove(c, first, past) && MayMove(c, id, was, Expire, New(first, past), |past.trace|)
      modifies this, store
      ensures Has(c, id, row) && Drove(c, first, past) && New(first, past) == New(first, old(past))
      ensures SameAction(was, row)
      ensures NotBegun(row) && row.status != Pending
      ensures tally == old(tally).(commits := tally.commits)
    {
      hide Valid, MovedRow, Drove, Silent, New, MayMove;
      row := Finish(c, id, Expire, first);
      MovesKeepTheAction(was, Expire, store.db.now);
    }

    /** Take up a write that was sent: look whether it was made. */
    method TakeUp(c: Call, id: Id, was: Row) returns (r: StepResult, ghost n: nat)
      requires Has(c, id, was) && (was.status == Executing || was.status == Executed)
      modifies this, store
      ensures Valid() && Mine(store.db, id, c.run, c.stepId) && Drove(c, old(past), past)
      ensures SameAction(was, store.db.rows[id])
      ensures r.Finished? && r == Conclude(id, store.db.rows[id])
      ensures VerifiedAs(c, New(old(past), past), n, was.status == Executing, store.db.rows[id].status)
      ensures Restrained(old(tally), tally) && Followed(c, store.db.rows[id], old(tally), tally)
      ensures tally.mints == old(tally).mints && tally.sends == old(tally).sends
      ensures store.db.rows[id].status == Verified ==> SawResult(c, New(old(past), past))
      ensures Resumed(was, store.db.rows[id], old(tally), tally)
    {
      hide Valid, FinalResult, Drove, Silent, Quiet, New, VerifiedAs, SawResult, Conclude;
      ghost var first := past;
      var interrupted := was.status == Executing;
      r, n := VerifyAndFinish(c, id, was, interrupted);
      if store.db.rows[id].status == Verified {
        VerifiedMeansSaw(c, New(first, past), n, interrupted, Verified);
      }
    }

    /** An action that has finished stays as it is; a rollback that was interrupted ends failed, outcome unknown. */
    method PutDown(c: Call, id: Id, was: Row) returns (r: StepResult)
      requires Has(c, id, was) && (was.status == RollingBack || Final(was.status))
      modifies this, store
      ensures Valid() && Mine(store.db, id, c.run, c.stepId) && Drove(c, old(past), past)
      ensures SameAction(was, store.db.rows[id])
      ensures r.Finished? && r == Conclude(id, store.db.rows[id])
      ensures New(old(past), past) == []
      ensures store.db.rows[id].status == if was.status == RollingBack then Failed else was.status
      ensures tally == old(tally).(commits := tally.commits)
      ensures was.status != Verified ==> store.db.rows[id].status != Verified
      ensures Resumed(was, store.db.rows[id], old(tally), tally)
    {
      hide Valid, MovedRow, FinalResult, Drove, Silent, Quiet, New, MayMove;
      ghost var first := past;
      NothingDriven(c, first);
      if was.status == RollingBack {
        InterruptedStands(c, id, was, New(first, past), |past.trace|);
        r := Settle(c, id, Interrupted, first);
      } else {
        ResultsFollowTheRecord(was);
        r := Conclude(id, was);
      }
    }

    /** Carry on an action that waits for nobody. */
    method CarryOn(c: Call, id: Id, was: Row) returns (r: StepResult, ghost x: Course)
      requires Has(c, id, was) && was.status != Pending
      modifies this, store
      ensures Valid() && Mine(store.db, id, c.run, c.stepId) && Drove(c, old(past), past)
      ensures SameAction(was, store.db.rows[id])
      ensures r.Finished? && r == Conclude(id, store.db.rows[id])
      ensures CarriedAs(c, id, was, past, New(old(past), past), x, store.db.rows[id].status)
      ensures x.Acts? ==> x.k == 0
      ensures Restrained(old(tally), tally) && Followed(c, store.db.rows[id], old(tally), tally)
      ensures tally.mints > old(tally).mints ==> was.status in WAITING && ChecksHeld(c, New(old(past), past))
      ensures tally.sends > old(tally).sends ==> CallDigest(c.capability.id, c.params) == was.what.callDigest
      ensures was.status != Verified && store.db.rows[id].status == Verified ==> SawResult(c, New(old(past), past))
      ensures Resumed(was, store.db.rows[id], old(tally), tally)
    {
      hide Valid, Conclude, Drove, Silent, Quiet, New, ActedAs, VerifiedAs, ChecksHeld, SawResult;
      hide Restrained, Followed, Resumed;
      ghost var first, counted := past, tally;
      if was.status == Approved || was.status == Allowed {
        ghost var n, m, move;
        r, n, m, move := Act(c, id, was);
        ghost var es := New(first, past);
        ActedMeansCheckedAndSaw(c, id, was, past, es, n, m, move, store.db.rows[id].status);
        WaitingActionsMayBegin(was, store.db.rows[id], counted, tally);
        x := Acts(Wait(was, was, was, None), 0, n, m, move);
        assert es[0..] == es;
      } else if was.status == Executed || was.status == Executing {
        ghost var n;
        r, n := TakeUp(c, id, was);
        x := Resumes(n);
      } else {
        r := PutDown(c, id, was);
        CommitsAreHarmless(c, store.db.rows[id], counted, tally);
        x := Rests;
      }
    }

    /** Carry the action on from whatever status its row has. */
    method Continue(c: Call, id: Id, was: Row) returns (r: StepResult, ghost x: Course)
      requires Has(c, id, was)
      modifies this, store
      ensures Valid() && Mine(store.db, id, c.run, c.stepId) && Drove(c, old(past), past)
      ensures store.db.rows[id].what == was.what
      ensures r.Finished? <==> !x.Suspended?
      ensures r.Finished? ==> r == Conclude(id, store.db.rows[id])
      ensures !r.Finished? ==> StillWaiting(r, id, store.db) && ReadClockAt(New(old(past), past), r.at)
      ensures ContinuedAs(c, id, was, past, New(old(past), past), x, store.db.rows[id].status)
      ensures Restrained(old(tally), tally) && Followed(c, store.db.rows[id], old(tally), tally)
      ensures tally.mints > old(tally).mints ==>
                ChecksHeld(c, New(old(past), past)) && store.db.rows[id].change != ""
      ensures tally.sends > old(tally).sends ==> CallDigest(c.capability.id, c.params) == was.what.callDigest
      ensures was.status != Verified && store.db.rows[id].status == Verified ==> SawResult(c, New(old(past), past))
      ensures Resumed(was, store.db.rows[id], old(tally), tally)
    {
      hide Valid, Conclude, RowRely, Drove, Silent, Quiet, New, ReadClockAt, ChecksHeld, SawResult;
      hide Restrained, Followed, Resumed, WaitedAs, CarriedAs, ContinuedAs;
      ghost var first, counted := past, tally;
      if Waits(was) {
        var row, waitingAt, w := AwaitApproval(c, id, was);
        ghost var mid, awaited := past, tally;
        if waitingAt.Some? {
          r := Waiting(id, row, waitingAt.value);
          CommitsAreHarmless(c, store.db.rows[id], counted, tally);
          x := Suspended(w);
          StillWaits(c, id, was, past, New(first, past), w, store.db.rows[id].status);
        } else {
          r, x := CarryOn(c, id, row);
          DroveOnce(c, first, mid, past);
          MoreEntries(c, New(mid, past), New(first, past));
          AfterCommitsTheSame(c, store.db.rows[id], counted, awaited, tally);
          x := WaitedThenCarried(c, id, was, past, New(first, mid), New(mid, past), w, x, store.db.rows[id].status);
        }
        WaitingActionsMayBegin(was, store.db.rows[id], counted, tally);
      } else {
        r, x := CarryOn(c, id, was);
        CarriedFromThere(c, id, was, past, New(first, past), x, store.db.rows[id].status);
      }
    }

    /** Others act while this step has no row. */
    method Idle(c: Call)
      requires Valid() && c.run in store.db.incidentOf
      requires forall i | i in store.db.rows :: !Mine(store.db, i, c.run, c.stepId)
      modifies this, store
      ensures Valid() && store.db.incidentOf == old(store.db.incidentOf)
      ensures forall i | i in store.db.rows :: !Mine(store.db, i, c.run, c.stepId)
      ensures old(store.db.now) <= store.db.now && tally == old(tally) && Quiet(old(past), past)
    {
      hide Valid, Quiet;
      Interfere(c);
    }

    /** One read of the table, the clock or the switch file before the decision. */
    method ReadFor(c: Call, what: Question) returns (answer: Answer)
      requires Valid() && c.run in store.db.incidentOf && !what.Sent?
      requires forall i | i in store.db.rows :: !Mine(store.db, i, c.run, c.stepId)
      modifies this, store
      ensures Valid() && store.db.incidentOf == old(store.db.incidentOf)
      ensures forall i | i in store.db.rows :: !Mine(store.db, i, c.run, c.stepId)
      ensures old(store.db.now) <= store.db.now && tally == old(tally) && Drove(c, old(past), past)
      ensures |New(old(past), past)| == 1
      ensures var e := New(old(past), past)[0]; e.asked == what && e.answer == answer && e.world == W()
    {
      hide Valid, Drove, Later, Silent, Quiet, New, OwnSteps;
      ghost var first := past;
      Idle(c);
      ghost var calm := past;
      answer := Ask(what);
      QuietThenAsked(c, first, calm, past);
    }

    /** Read the policy, the recent executions, the clock and the switches. */
    method GatherDraft(c: Call, s: Surroundings) returns (d: Draft)
      requires Valid() && c.run in store.db.incidentOf
      requires forall i | i in store.db.rows :: !Mine(store.db, i, c.run, c.stepId)
      modifies this, store
      ensures Valid() && store.db.incidentOf == old(store.db.incidentOf)
      ensures forall i | i in store.db.rows :: !Mine(store.db, i, c.run, c.stepId)
      ensures tally == old(tally) && Drove(c, old(past), past)
      ensures ReadForDecision(New(old(past), past)) && d == DraftFrom(c, s, New(old(past), past))
      ensures d.request.now <= store.db.now
    {
      hide Valid, Drove, Silent, Quiet, New, SwitchesOn, RecentExecutions;
      ghost var first := past;
      var answer := ReadFor(c, PolicyRow);
      var policy := ReadPolicy(store.db.policy);
      ghost var one := past;
      answer := ReadFor(c, Executions);
      var recent := RecentExecutions(store.db, policy.rules.rateMinutes);
      ghost var two := past;
      DroveOnce(c, first, one, two);
      answer := ReadFor(c, Clock);
      var now := store.db.now;
      ghost var three := past;
      DroveOnce(c, first, two, three);
      answer := ReadFor(c, Switches);
      DroveOnce(c, first, three, past);
      d := Draft(
        c.tenant, c.run, c.stepId, c.sysId, s.author, c.params,
        Request(c.sop, c.sopHash, c.capability.id, c.capability.isWrite, Some(c.capability.tier),
                c.capability.targets, now),
        Situation(SwitchesOn(store.db, answer.yes), policy.autonomy, policy.rules, s.maxTier, s.maxAutonomy, recent,
                  s.refusals),
        s.covers);
    }

    /** Read what the decision is made on, decide, and write the decision down. */
    method DecideAction(c: Call, s: Surroundings) returns (id: Id, row: Row)
      requires Valid() && c.run in store.db.incidentOf
      requires c.capability.isWrite && c.capability.tier != T0
      requires forall i | i in store.db.rows :: !Mine(store.db, i, c.run, c.stepId)
      modifies this, store
      ensures Has(c, id, row) && row.what.actionHash == c.Wanted() && Drove(c, old(past), past)
      ensures ReadForDecision(New(old(past), past)) && c.run in store.db.incidentOf
      ensures row == DecisionRow(DraftFrom(c, s, New(old(past), past)), store.db.incidentOf[c.run], store.db.now)
      ensures DecidedNow(c, s, New(old(past), past), row)
      ensures row.status == Pending || row.status == Allowed ==> !On(New(old(past), past)[3])
      ensures row.status == Pending || row.status == Allowed || Final(row.status)
      ensures row.status != Verified
      ensures tally == old(tally).(commits := old(tally).commits + 1)
    {
      hide Valid, Drove, Silent, Quiet, New, DecisionRow, DraftFrom, On, ReadForDecision, DecidedNow;
      ghost var first := past;
      var d := GatherDraft(c, s);
      ghost var gathered := past;
      Idle(c);
      ghost var calm := past;
      DroveThenQuiet(c, first, gathered, calm);
      DraftIsOfTheCall(c, s, New(first, calm));
      id, row := WriteDown(c, d);
      DroveThenSilent(c, first, calm, past);
      DecisionsHeedWhatWasRead(c, s, New(first, past), store.db.incidentOf[c.run], store.db.now);
    }

    /** The decision is always recorded: no other attempt at this step is under way. */
    method WriteDown(c: Call, d: Draft) returns (id: Id, row: Row)
      requires Valid() && d.run in store.db.incidentOf && Recordable(store.db, d)
      requires d.run == c.run && d.stepId == c.stepId && d.Hash() == c.Wanted()
      requires forall i | i in store.db.rows :: !Mine(store.db, i, c.run, c.stepId)
      modifies this, store
      ensures Has(c, id, row) && Drove(c, old(past), past) && Silent(old(past), past) && row.what.actionHash == d.Hash()
      ensures store.db.incidentOf == old(store.db.incidentOf)
      ensures row == DecisionRow(d, store.db.incidentOf[d.run], store.db.now)
      ensures row.status == Pending || row.status == Allowed || Final(row.status)
      ensures row.status != Verified
      ensures tally == old(tally).(commits := old(tally).commits + 1)
    {
      hide Valid, Inv, TableInv, DecisionRow, Put, Apply, After, Truthful, Later, Silent, New, Drove;
      hide ActionTable.RecordDecision, Grounded;
      Open();
      ghost var w := W();
      NothingDriven(c, past);
      id := FreshId(store.db.rows.Keys);
      DecisionIsRecorded(store.db, id, d);
      RecordIsGrounded(c, id, d, w, [], |past.trace|);
      StepIsDriven(c, past, past, ActionRuns.Record(id, d), script);
      var at := store.RecordDecision(id, d);
      tally := tally.(commits := tally.commits + 1);
      RecordIsAStep(w, W(), id, d);
      Stepped(w, ActionRuns.Record(id, d));
      row := store.db.rows[id];
    }

    method FreshId(used: set<Id>) returns (id: Id)
      ensures id !in used
    {
      var left := used;
      id := 0;
      while left != {}
        invariant left <= used
        invariant forall i | i in used && i !in left :: i < id
        decreases |left|
      {
        var i :| i in left;
        left := left - {i};
        if id <= i {
          id := i + 1;
        }
      }
    }

    /** The row of this step: found, decided on now, or voided because the step renders differently. */
    method FindOrDecide(c: Call, s: Surroundings) returns (id: Id, row: Row, ghost was: Option<Row>)
      requires Valid() && c.run in store.db.incidentOf
      requires c.capability.isWrite && c.capability.tier != T0
      modifies this, store
      ensures Has(c, id, row) && Drove(c, old(past), past)
      ensures tally == old(tally).(commits := tally.commits)
      ensures row.what.actionHash == c.Wanted() || Begun(row.status) || Final(row.status)
      ensures was.None? ==>
                && row.status != Verified
                && (forall i | i in old(store.db).rows :: !Mine(old(store.db), i, c.run, c.stepId))
                && DecidedNow(c, s, New(old(past), past), row)
      ensures was.Some? ==>
                && Mine(old(store.db), id, c.run, c.stepId) && was.value == old(store.db).rows[id]
                && New(old(past), past) == [] && FoundAs(c, was.value, row)
                && (row == was.value ==> tally == old(tally))
    {
      hide Valid, MovedRow, Drove, Silent, Quiet, New, DecisionRow, DraftFrom, On, DecidedNow;
      NothingDriven(c, past);
      was := None;
      var found := store.Find(c.run, c.stepId);
      if found.None? {
        id, row := DecideAction(c, s);
      } else {
        id := found.value;
        row := store.db.rows[id];
        was := Some(row);
        if row.what.actionHash != c.Wanted() && !Final(row.status) {
          row := Invalidated(c, id);
        }
      }
    }

    /** The step no longer renders to what was decided on: an undecided or unstarted row is voided. */
    method Invalidated(c: Call, id: Id) returns (row: Row)
      requires Valid() && Mine(store.db, id, c.run, c.stepId) && store.db.rows[id].what.actionHash != c.Wanted()
      requires !Final(store.db.rows[id].status)
      modifies this, store
      ensures Has(c, id, row) && SameAction(old(store.db.rows[id]), row)
      ensures Drove(c, old(past), past) && New(old(past), past) == []
      ensures tally == old(tally).(commits := tally.commits)
      ensures var was := old(store.db.rows[id]);
              if Waits(was) then Final(row.status) && row.status != Verified
              else row == was && tally == old(tally) && Begun(was.status)
    {
      hide Valid, MovedRow, Drove, Silent, Quiet, New, MayMove;
      NothingDriven(c, past);
      RowsAreSound(id);
      ghost var before := store.db.rows[id];
      MismatchStands(c, id, before, New(past, past), |past.trace|);
      row := Finish(c, id, Invalidate, past);
      MovesKeepTheAction(before, Invalidate, store.db.now);
      RowsAreSound(id);
    }

    /** Carry an ACTION step as far as it may go. `was` is the row found, if one was. */
    method Perform(c: Call, s: Surroundings)
      returns (r: StepResult, ghost was: Option<Row>, ghost row: Row, ghost x: Course)
      requires Valid() && c.run in store.db.incidentOf
      requires c.capability.isWrite ==> c.capability.tier != T0
      modifies this, store
      ensures Valid() && Drove(c, old(past), past)
      ensures !c.capability.isWrite ==> r.NotDeclared? && tally == old(tally) && past == old(past)
      ensures c.capability.isWrite ==>
                && (r.Finished? || r.Waiting?)
                && Mine(store.db, r.id, c.run, c.stepId)
                && (was.Some? ==> Mine(old(store.db), r.id, c.run, c.stepId) && was.value == old(store.db).rows[r.id])
                && (was.None? ==> forall i | i in old(store.db).rows :: !Mine(old(store.db), i, c.run, c.stepId))
                && PerformedAs(c, s, r.id, was, row, past, New(old(past), past), x, store.db.rows[r.id].status)
                && store.db.rows[r.id].what == row.what
                && (r.Finished? <==> !x.Suspended?)
      ensures r.Finished? ==> Final(store.db.rows[r.id].status) && r == Conclude(r.id, store.db.rows[r.id])
      ensures r.Waiting? ==> StillWaiting(r, r.id, store.db) && ReadClockAt(New(old(past), past), r.at)
      ensures Restrained(old(tally), tally)
      ensures c.capability.isWrite ==> Followed(c, store.db.rows[r.id], old(tally), tally)
      ensures tally.mints > old(tally).mints ==>
                && c.capability.isWrite
                && store.db.rows[r.id].what.actionHash == c.Wanted()
                && store.db.rows[r.id].change != ""
                && ChecksHeld(c, New(old(past), past))
      ensures c.capability.isWrite && store.db.rows[r.id].status == Verified ==>
                (was.Some? && was.value.status == Verified) || SawResult(c, New(old(past), past))
      ensures c.capability.isWrite && was.Some? ==>
                Resumed(was.value, store.db.rows[r.id], old(tally), tally)
    {
      hide Valid, FinalResult, RowRely, Drove, Silent, Quiet, New, ReadClockAt, ChecksHeld, SawResult, DecidedNow;
      hide ContinuedAs, Restrained, Followed, Resumed, PerformedAs;
      ghost var first, counted := past, tally;
      NothingDriven(c, first);
      was, x := None, Rests;
      if !c.capability.isWrite {
        NothingCounted(tally);
        row := *;
        return NotDeclared, was, row, x;
      }
      var id, now;
      id, now, was := FindOrDecide(c, s);
      row := now;
      ghost var mid, found := past, tally;
      r, x := Continue(c, id, now);
      DroveOnce(c, first, mid, past);
      MoreEntries(c, New(mid, past), New(first, past));
      ClockStaysRead(New(first, mid), New(mid, past));
      AfterCommitsTheSame(c, store.db.rows[id], counted, found, tally);
      NotMintedTwice(now, store.db.rows[id], found, tally);
      if was.Some? && row != was.value {
        WaitingActionsMayBegin(was.value, store.db.rows[id], counted, tally);
      }
      PerformedFromThere(c, s, id, was, row, past, New(first, mid), New(mid, past), x, store.db.rows[id].status);
      if r.Finished? {
        ResultsFollowTheRecord(store.db.rows[id]);
      }
    }

    // ── The sweeper ───────────────────────────────────────────────────────

    /** Any number of steps of anyone. */
    method Others()
      requires Valid()
      modifies this, store
      ensures Valid() && TableAdvances(old(store.db), store.db) && Quiet(old(past), past)
      ensures polledAt == old(polledAt)
    {
      hide Valid, Inv, TableAdvances, Apply, Truthful, Told, Later;
      Open();
      var steps: seq<Step> := *;
      RunAdvances(W(), steps);
      EveryRunKeepsInv(W(), steps);
      RunsCompose(past.start, past.trace, steps);
      TraceGoesOn(past, steps, script);
      Become(Run(W(), steps));
      past := past.(trace := past.trace + steps);
      Close();
    }

    /** Expire a request the sweeper saw pending. Nothing is written when someone else moved it first. */
    method ExpireRequest(id: Id) returns (moved: bool)
      requires Valid() && id in store.db.rows
      modifies this, store
      ensures Valid() && Silent(old(past), past) && polledAt == old(polledAt)
      ensures TableAdvances(old(store.db), store.db)
      ensures id in store.db.rows && store.db.rows[id].status != Pending
      ensures TookOne(old(past), past, Make(id, Expire)) && moved == LastCounts(past)
    {
      hide Valid, Inv, TableInv, TableAdvances, MovedRow, Apply, Later, Silent, Quiet, TookOne, LastCounts;
      ghost var first, table := past, store.db;
      Others();
      ghost var calm, db := past, store.db;
      RowsRemain(table, db, id);
      moved := ExpireNow(id);
      AdvancesCompose(table, db, store.db);
      QuietHasNoSteps(first, calm);
      SilentIsLater(calm, past);
      OneAfterNone(first, calm, past, Make(id, Expire));
      QuietIsSilent(first, calm);
      SilentThenSilent(first, calm, past);
    }

    method ExpireNow(id: Id) returns (moved: bool)
      requires Valid() && id in store.db.rows
      modifies this, store
      ensures Valid() && Silent(old(past), past) && polledAt == old(polledAt)
      ensures TableAdvances(old(store.db), store.db)
      ensures id in store.db.rows && store.db.rows[id].status != Pending
      ensures TookOne(old(past), past, Make(id, Expire)) && moved == LastCounts(past)
    {
      hide Valid, Inv, TableInv, TableAdvances, MovedRow, Apply, After, Truthful, Later, Silent, TookOne;
      hide LastCounts;
      Open();
      ghost var w, first := W(), past;
      MovesNeverViolate(store.db, id, Expire);
      var t := store.Transition(id, Expire.From(), Expire.To(), Expire.Columns());
      moved := t.Moved?;
      MovesKeepTheAction(w.db.rows[id], Expire, w.db.now);
      MoveIsAStep(w, W(), id, Expire);
      Stepped(w, Make(id, Expire));
      EveryStepKeepsInv(w, Make(id, Expire));
      OneStepWasTaken(first, Make(id, Expire), w);
    }

    /** Void the request, or decide it the way ServiceNow did. */
    method Answer(id: Id, row: Row, now: Found, author: string) returns (counted: bool)
      requires Valid() && id in store.db.rows && store.db.rows[id].what == row.what
      requires now.state != NoAnswer
      modifies this, store
      ensures Valid() && Silent(old(past), past) && polledAt == old(polledAt)
      ensures TableAdvances(old(store.db), store.db)
      ensures TookOne(old(past), past, Applied(id, row, now, author)) && counted == LastCounts(past)
    {
      hide Valid, Inv, TableInv, TableAdvances, MovedRow, DecidedRow, ActionTable.Decide;
      hide ActionTable.Transition, Apply, After;
      hide Truthful, Later, Silent, TookOne, LastCounts;
      Open();
      ghost var w, first := W(), past;
      ghost var step := Applied(id, row, now, author);
      if now.correlation != Some(row.what.actionHash)
         || now.approver == ""
         || (now.state == Agreed && row.what.tier == T2 && (author == "" || now.email == "" || author == now.email))
      {
        MovesNeverViolate(store.db, id, NotAccepted);
        var t := store.Transition(id, NotAccepted.From(), NotAccepted.To(), NotAccepted.Columns());
        counted := true;
        MoveIsAStep(w, W(), id, NotAccepted);
      } else {
        var d := store.Decide(id, "user:servicenow|" + now.approver, now.state == Agreed, now.correlation);
        counted := !d.Violation?;
        DecisionIsAStep(w, W(), step);
      }
      Stepped(w, step);
      EveryStepKeepsInv(w, step);
      OneStepWasTaken(first, step, w);
    }

    /** Apply what ServiceNow says about one request that the sweeper saw pending. */
    method Collect(id: Id, row: Row) returns (counted: bool)
      requires Valid() && id in store.db.rows && store.db.rows[id].what == row.what
      modifies this, store
      ensures Valid() && Later(old(past), past) && polledAt == old(polledAt)
      ensures TableAdvances(old(store.db), store.db)
      ensures Collected(old(past), past, id, row, counted)
    {
      hide Valid, TableAdvances, Later, Silent, Quiet, New, OwnSteps, TookOne, LastCounts, Applied, EmailIsRead;
      ghost var first, table := past, store.db;
      Others();
      ghost var calm := past;
      var answer := Ask(ChangeApproval(id));
      ghost var noted := past;
      QuietHasNoSteps(first, calm);
      LaterOnce(first, calm, noted);
      counted := false;
      if answer.found.Some? && answer.found.value.state != NoAnswer {
        var now := answer.found.value;
        RowsRemain(table, store.db, id);
        ghost var db := store.db;
        if EmailIsRead(row, now) {
          var email := ReadEmail(row);
          ghost var mailed := past;
          RowsRemain(db, store.db, id);
          AdvancesCompose(table, db, store.db);
          LaterOnce(first, noted, mailed);
          ghost var later := store.db;
          counted := Answer(id, row, now, email);
          AdvancesCompose(table, later, store.db);
          SilentIsLater(mailed, past);
          OneAfterNone(first, mailed, past, Applied(id, row, now, email));
        } else {
          counted := Answer(id, row, now, "");
          AdvancesCompose(table, db, store.db);
          SilentIsLater(noted, past);
          OneAfterNone(first, noted, past, Applied(id, row, now, ""));
        }
      }
    }

    /** The email of the SOP's author, when one is on record. */
    method ReadEmail(row: Row) returns (email: string)
      requires Valid()
      modifies this, store
      ensures Valid() && TableAdvances(old(store.db), store.db) && Later(old(past), past) && polledAt == old(polledAt)
      ensures |New(old(past), past)| == 1 && OwnSteps(old(past), past) == []
      ensures var e := New(old(past), past)[0]; e.asked == AuthorEmail(row.what.author) && email == EmailOf(row, e)
    {
      hide Valid, TableAdvances, Later, Silent, Quiet, New, OwnSteps;
      ghost var first := past;
      Others();
      ghost var calm := past;
      var answer := Ask(AuthorEmail(row.what.author));
      QuietHasNoSteps(first, calm);
      LaterOnce(first, calm, past);
      email := if row.what.author == "" then "" else answer.text;
    }

    /** One of the requests the sweeper read as pending. */
    method SweepOne(seen: Db, id: Id, due: bool) returns (counted: bool, polled: bool)
      requires Valid() && TableAdvances(seen, store.db)
      requires id in seen.rows && seen.rows[id].status == Pending
      modifies this, store
      ensures Valid() && Later(old(past), past) && polledAt == old(polledAt)
      ensures TableAdvances(seen, store.db) && TableAdvances(old(store.db), store.db)
      ensures Overdue(seen.rows[id], seen.now) ==> !polled && id in store.db.rows && store.db.rows[id].status != Pending
      ensures AllSweeps(seen, New(old(past), past), past, OwnSteps(old(past), past))
      ensures Tallied(past, OwnSteps(old(past), past)) == if counted then 1 else 0
      ensures polled <==> due && Polls(seen, id)
      ensures AskedOnly(seen, due, New(old(past), past)) && (polled ==> AskedAbout(New(old(past), past), id))
    {
      hide Valid, TableAdvances, Later, Silent, Quiet, New, OwnSteps, TookOne, LastCounts, AllSweeps, Tallied;
      hide Applied, EmailIsRead;
      var row := seen.rows[id];
      ghost var first := past;
      RowsRemain(seen, store.db, id);
      counted, polled := false, false;
      AdvancesReflexive(store.db);
      if Overdue(row, seen.now) {
        counted := ExpireRequest(id);
        SilentIsLater(first, past);
        OneSwept(seen, New(first, past), first, past, Make(id, Expire));
      } else if Collectable(row) && due {
        polled := true;
        counted := Collect(id, row);
        CollectedIsSwept(seen, first, past, id, counted);
      } else {
        NothingYet(first);
        NothingTaken(first);
        NothingSwept(seen, first, past);
      }
      AdvancesCompose(seen, old(store.db), store.db);
    }

    /**
     Expire overdue requests and collect ServiceNow approvals. `clock` is the monotonic clock at the start and
     `later` at the end. Returns how many were acted on.
     */
    method Sweep(pollSeconds: nat, clock: nat, later: nat) returns (moved: nat)
      requires Valid()
      modifies this, store
      ensures Valid() && Later(old(past), past) && TableAdvances(old(store.db), store.db)
      ensures Cleared(old(store.db), store.db, {})
      ensures AllSweeps(old(store.db), New(old(past), past), past, OwnSteps(old(past), past))
      ensures moved == Tallied(past, OwnSteps(old(past), past))
      ensures var due := clock - old(polledAt) >= pollSeconds;
              && AskedOnly(old(store.db), due, New(old(past), past))
              && (due ==> forall id | Polls(old(store.db), id) :: AskedAbout(New(old(past), past), id))
              && polledAt == if due && exists id :: Polls(old(store.db), id) then later else old(polledAt)
    {
      hide Valid, TableAdvances, Overdue, Later, Silent, Quiet, New, OwnSteps, SweepStep, Tallied;
      hide AskedOnly, AskedAbout, Cleared;
      var seen := store.db;
      ghost var first := past;
      var due := clock - polledAt >= pollSeconds;
      var polled := false;
      moved := 0;
      var left := set id | id in seen.rows && seen.rows[id].status == Pending;
      AdvancesReflexive(seen);
      NothingElseIsOverdue(seen, left);
      NothingYet(first);
      NothingTaken(first);
      NothingSwept(seen, first, past);
      NothingAsked(seen, due);
      while left != {}
        invariant Valid() && Later(first, past) && polledAt == old(polledAt)
        invariant TableAdvances(seen, store.db)
        invariant forall id | id in left :: id in seen.rows && seen.rows[id].status == Pending
        invariant Cleared(seen, store.db, left)
        invariant AllSweeps(seen, New(first, past), past, OwnSteps(first, past))
        invariant moved == Tallied(past, OwnSteps(first, past))
        invariant AskedOnly(seen, due, New(first, past))
        invariant due ==> forall id | Polls(seen, id) && id !in left :: AskedAbout(New(first, past), id)
        invariant polled <==> due && exists id :: Polls(seen, id) && id !in left
        decreases |left|
      {
        var id :| id in left;
        ghost var was, mid := store.db, past;
        var counted, asking := SweepOne(seen, id, due);
        SweepProceeds(seen, was, store.db, left, id);
        OneMoreSwept(seen, first, mid, past, moved, if counted then 1 else 0);
        LaterOnce(first, mid, past);
        MoreAsked(seen, due, New(first, mid), New(mid, past));
        left := left - {id};
        polled := polled || asking;
        if counted {
          moved := moved + 1;
        }
      }
      if polled {
        Poll(later);
      }
    }

    method Poll(now: nat)
      requires Valid()
      modifies this`polledAt
      ensures Valid() && polledAt == now
    {
      polledAt := now;
    }
  }
}
