/** The action records as actions/store.py writes them: one method per database transaction. */
module ActionStore {
  import opened Wrappers
  import opened Policy
  import opened ActionTable
  import opened ActionRuns
  import opened ActionDriver

  class Store {
    var db: Db

    constructor (db: Db)
      ensures this.db == db
    {
      this.db := db;
    }

    /** Commit one row; a broken constraint rolls the transaction back. */
    method Commit(id: Id, row: Row) returns (ok: bool)
      modifies this
      ensures ok == Put(old(db), id, row).Ok?
      ensures db == Committed(old(db), Put(old(db), id, row))
    {
      var rows := db.rows[id := row];
      ok := Legal(rows);
      if ok {
        db := db.(rows := rows);
      }
    }

    /** The row of a step, if it has one. */
    method Find(run: nat, stepId: string) returns (id: Option<Id>)
      ensures id.Some? ==>
                id.value in db.rows && db.rows[id.value].what.run == run && db.rows[id.value].what.stepId == stepId
      ensures id.None? ==> forall i | i in db.rows :: db.rows[i].what.run != run || db.rows[i].what.stepId != stepId
    {
      var left := db.rows.Keys;
      while left != {}
        invariant left <= db.rows.Keys
        invariant forall i | i in db.rows && i !in left :: !Mine(db, i, run, stepId)
        decreases |left|
      {
        var i :| i in left;
        if Mine(db, i, run, stepId) {
          return Some(i);
        }
        left := left - {i};
      }
      return None;
    }

    /**
     Write the decision down. When a constraint refuses it, another attempt at this step was first:
     the row that one wrote stands, and is the one returned.
     */
    method RecordDecision(id: Id, d: Draft) returns (at: Option<Id>)
      modifies this
      ensures db == Committed(old(db), ActionTable.RecordDecision(old(db), id, d))
      ensures ActionTable.RecordDecision(old(db), id, d).Ok? ==> at == Some(id)
      ensures ActionTable.RecordDecision(old(db), id, d).Err? ==>
                if at.Some? then Mine(db, at.value, d.run, d.stepId)
                else forall i | i in db.rows :: !Mine(db, i, d.run, d.stepId)
    {
      var ok := false;
      if id !in db.rows && d.run in db.incidentOf {
        ok := Commit(id, DecisionRow(d, db.incidentOf[d.run], db.now));
      }
      if ok {
        return Some(id);
      }
      at := Find(d.run, d.stepId);
    }

    /** Move a row from one of `from` to `to`. Nothing is written when someone else moved it first. */
    method Transition(id: Id, from: set<Status>, to: Status, v: Values) returns (t: Transitioned)
      modifies this
      ensures t == ActionTable.Transition(old(db), id, from, to, v)
      ensures db == AfterMove(old(db), t)
    {
      if id !in db.rows || db.rows[id].status !in from {
        return NotMoved;
      }
      var row := db.rows[id].(status := to);
      if Final(to) {
        row := row.(completedAt := Some(db.now));
      }
      if v.result.Some? {
        row := row.(result := v.result);
      }
      if v.denial.Some? {
        row := row.(verdict := Deny, reason := v.denial.value);
      }
      var ok := Commit(id, row);
      t := if ok then Moved(db) else Refused;
    }

    /** The one step that lets a write go ahead. */
    method AuthoriseExecution(id: Id, local: bool) returns (a: Authorisation)
      modifies this
      ensures a == ActionTable.AuthoriseExecution(old(db), id, local)
      ensures a == SwitchIsOn <==>
                old(db).globalSwitch || local || (old(db).policy.Some? && old(db).policy.value.killSwitch)
      ensures db == AfterAuthorisation(old(db), a)
    {
      RefusedUnderASwitchExactlyWhen(db, id, local);
      if SwitchesOn(db, local) != {} {
        return SwitchIsOn;
      }
      if id !in db.rows {
        return NoLongerAuthorised;
      }
      var row := db.rows[id];
      if (row.status != Approved && row.status != Allowed) || row.validUntil.None? || row.validUntil.value <= db.now {
        return NoLongerAuthorised;
      }
      var ok := Commit(id, row.(status := Executing, startedAt := Some(db.now)));
      a := if ok then Started(db) else AlreadyCarriedOut;
    }

    /** Approve or reject a pending action, exactly as the approver saw it. */
    method Decide(id: Id, actor: string, approve: bool, seen: Option<ActionHash>) returns (d: Decision)
      modifies this
      ensures d == ActionTable.Decide(old(db), id, actor, approve, seen)
      ensures db == AfterDecision(old(db), d)
    {
      if id !in db.rows {
        return NotFound;
      }
      var row := db.rows[id];
      if row.status != Pending {
        return WrongState;
      }
      if seen.None? || seen.value != row.what.actionHash {
        return WrongState;
      }
      if row.expiresAt.None? || db.now >= row.expiresAt.value {
        var ok := Commit(id, row.(status := Expired, completedAt := Some(db.now)));
        return if ok then RequestExpired(db) else Violation;
      }
      if approve && row.what.tier == T2 {
        if row.what.author == "" {
          return NotAllowed;
        }
        if row.what.author == actor {
          return NotAllowed;
        }
      }
      var after := row.(
        status := if approve then Approved else Rejected,
        approver := Some(actor),
        approvedHash := if approve then Some(row.what.actionHash) else None,
        decidedAt := Some(db.now),
        validUntil := Some(db.now + MINUTE * ReadPolicy(db.policy).rules.executeWithin));
      if !approve {
        after := after.(completedAt := Some(db.now));
      }
      var ok := Commit(id, after);
      d := if ok then Recorded(db) else Violation;
    }

    /** Record the change opened for an action, whatever its status is by now. */
    method NoteChange(id: Id, number: string)
      requires id in db.rows
      modifies this
      ensures db == Committed(old(db), ActionTable.NoteChange(old(db), id, number))
    {
      var _ := Commit(id, db.rows[id].(change := number));
    }

    /** Record that approval was asked for, whatever the row's status is by now. */
    method NoteRequested(id: Id)
      requires id in db.rows
      modifies this
      ensures db == Committed(old(db), ActionTable.NoteRequested(old(db), id))
    {
      var _ := Commit(id, db.rows[id].(requestedAt := Some(db.now)));
    }
  }
}
