/**
 The `actions` table of one tenant: its columns, its constraints, and each database transaction
 of actions/store.py as a function from the table before to the table after. Digests are free
 constructors, so two digests are equal only when everything hashed is equal.
 */
module ActionTable {
  import opened Wrappers
  import opened Policy
  import Json

  type Id = nat
  type Params = map<string, Json.Value>

  datatype CallDigest = CallDigest(capability: string, params: Params)

  datatype ActionHash = ActionHash(
    tenant: string, sysId: string, sop: string, sopHash: string, capability: string, params: Params)

  datatype Status =
    | Denied | Shadowed | Recommended | Pending | Approved | Rejected | Expired | Invalid | Allowed
    | Executing | Executed | NotDone | Verified | Failed | RollingBack | RolledBack | RollbackFailed
    | Aborted

  /** The step is finished and its result is stored on the row. */
  predicate Final(s: Status) {
    match s
    case Pending | Approved | Allowed | Executing | Executed | RollingBack => false
    case _ => true
  }

  const WAITING: set<Status> := {Approved, Allowed}

  function VerdictStatus(v: Verdict): Status {
    match v
    case Deny => Denied
    case ShadowOnly => Shadowed
    case RecommendOnly => Recommended
    case RequireApproval => Pending
    case Allow => Allowed
  }

  /** The columns written once, when the decision is recorded. `ruledAt` is the clock read by the decision. */
  datatype Action = Action(
    run: nat, stepId: string, incident: nat, author: string, capability: string, params: Params,
    callDigest: CallDigest, actionHash: ActionHash, tier: Tier, ruledAt: Time, createdAt: Time)

  datatype Outcome = Outcome(unknown: bool)

  /** One row. `what` never changes; the rest are the columns that later transactions write. */
  datatype Row = Row(
    what: Action,
    verdict: Verdict,
    reason: Reason,
    status: Status,
    change: string,
    viaServiceNow: bool,
    requestedAt: Option<Time>,
    expiresAt: Option<Time>,
    approver: Option<string>,
    approvedHash: Option<ActionHash>,
    decidedAt: Option<Time>,
    validUntil: Option<Time>,
    startedAt: Option<Time>,
    completedAt: Option<Time>,
    result: Option<Outcome>)

  type Rows = map<Id, Row>

  /** The shared database: the rows, which incident each run is for, the switches, the policy and the clock. */
  datatype Db = Db(
    rows: Rows, incidentOf: map<nat, nat>, globalSwitch: bool, policy: Option<StoredPolicy>, now: Time)

  // ── Constraints ───────────────────────────────────────────────────────

  predicate ApprovedExactly(r: Row) {
    r.approver.Some? && r.approvedHash == Some(r.what.actionHash)
  }

  /** The CHECK constraints of the table. */
  predicate Checks(r: Row) {
    && r.what.tier != T0
    && (r.verdict == Allow ==> r.what.tier == T1)
    && (r.status == Approved ==> ApprovedExactly(r))
    && (r.what.tier == T2 && r.approver.Some? ==> r.approver.value != r.what.author)
    && (r.startedAt.Some? ==> r.verdict == Allow || (r.verdict == RequireApproval && ApprovedExactly(r)))
  }

  predicate SameStep(r: Row, s: Row) {
    r.what.run == s.what.run && r.what.stepId == s.what.stepId
  }

  /** Two rows that the unique index on started rows does not admit together. */
  predicate SameWrite(r: Row, s: Row) {
    && r.startedAt.Some? && s.startedAt.Some?
    && r.what.incident == s.what.incident
    && r.what.callDigest == s.what.callDigest
  }

  predicate Compatible(r: Row, s: Row) {
    !SameStep(r, s) && !SameWrite(r, s)
  }

  /** Every constraint of the table holds. */
  predicate Legal(rows: Rows) {
    && (forall id {:trigger Checks(rows[id])} | id in rows :: Checks(rows[id]))
    && (forall i, j {:trigger Compatible(rows[i], rows[j])} | i in rows && j in rows && i != j ::
          Compatible(rows[i], rows[j]))
  }

  /** Insert or replace one row; `Err` is the integrity error that rolls the transaction back. */
  function Put(db: Db, id: Id, row: Row): Result<Db> {
    if Legal(db.rows[id := row]) then Ok(db.(rows := db.rows[id := row])) else Err
  }

  lemma PutSucceedsExactlyWhen(db: Db, id: Id, row: Row)
    requires Legal(db.rows)
    ensures Put(db, id, row).Ok? <==>
              Checks(row) && forall j | j in db.rows && j != id :: Compatible(row, db.rows[j])
  {
    var rows := db.rows[id := row];
    if Checks(row) && forall j | j in db.rows && j != id :: Compatible(row, db.rows[j]) {
      forall i, j | i in rows && j in rows && i != j
        ensures Compatible(rows[i], rows[j])
      {
        if j == id {
          assert Compatible(row, db.rows[i]);
        }
      }
    }
    if Legal(rows) {
      assert Checks(rows[id]);
      forall j | j in db.rows && j != id
        ensures Compatible(row, db.rows[j])
      {
        assert Compatible(rows[id], rows[j]);
      }
    }
  }

  // ── Transactions ──────────────────────────────────────────────────────

  function SwitchesOn(db: Db, local: bool): set<string> {
    (if db.globalSwitch then {"global"} else {})
    + (if db.policy.Some? && db.policy.value.killSwitch then {"tenant"} else {})
    + (if local then {"local"} else {})
  }

  /** The switches that are read are the platform's, the tenant's and that of the installation, each when it is on. */
  lemma SwitchesOnExactlyWhen(db: Db, local: bool)
    ensures SwitchesOn(db, local) != {} <==> db.globalSwitch || local || (db.policy.Some? && db.policy.value.killSwitch)
    ensures "global" in SwitchesOn(db, local) <==> db.globalSwitch
    ensures "tenant" in SwitchesOn(db, local) <==> db.policy.Some? && db.policy.value.killSwitch
    ensures "local" in SwitchesOn(db, local) <==> local
  {
    if db.policy.Some? && db.policy.value.killSwitch {
      assert "tenant" in SwitchesOn(db, local);
    }
    if db.globalSwitch {
      assert "global" in SwitchesOn(db, local);
    }
    if local {
      assert "local" in SwitchesOn(db, local);
    }
  }

  /** What the decision stage knows when it writes the decision down. */
  datatype Draft = Draft(
    tenant: string, run: nat, stepId: string, sysId: string, author: string, params: Params,
    request: Request, situation: Situation, covers: Matcher)
  {
    function Capability(): string { request.capability }

    function Hash(): ActionHash {
      ActionHash(tenant, sysId, request.sopId, request.sopHash, request.capability, params)
    }

    function Ruled(): Ruling {
      Evaluate(covers, request, situation)
    }
  }

  function DecisionRow(d: Draft, incident: nat, created: Time): Row {
    var ruling := d.Ruled();
    var status := VerdictStatus(ruling.verdict);
    var tier := if ruling.tier.Some? then ruling.tier.value else T2;
    var rules := d.situation.rules;
    var now := d.request.now;
    Row(
      Action(d.run, d.stepId, incident, d.author, d.Capability(), d.params,
             CallDigest(d.Capability(), d.params), d.Hash(), tier, now, created),
      ruling.verdict, ruling.reason, status, "",
      status == Pending && rules.viaServiceNow,
      None,
      if status == Pending then Some(now + MINUTE * rules.approvalTtl) else None,
      None, None, None,
      if status == Allowed then Some(now + MINUTE * rules.executeWithin) else None,
      None,
      if Final(status) then Some(now) else None,
      None)
  }

  /** The decision and its row; `Err` when the step already has a row, or a constraint refuses this one. */
  function RecordDecision(db: Db, id: Id, d: Draft): Result<Db> {
    if id in db.rows || d.run !in db.incidentOf then Err
    else Put(db, id, DecisionRow(d, db.incidentOf[d.run], db.now))
  }

  /** The columns a transition sets besides the status: a stored result, or the reason of a late denial. */
  datatype Values = Values(result: Option<Outcome>, denial: Option<Reason>)

  function MovedRow(r: Row, to: Status, v: Values, now: Time): Row {
    r.(status := to,
       completedAt := if Final(to) then Some(now) else r.completedAt,
       result := if v.result.Some? then v.result else r.result,
       verdict := if v.denial.Some? then Deny else r.verdict,
       reason := if v.denial.Some? then v.denial.value else r.reason)
  }

  datatype Transitioned = Moved(db: Db) | NotMoved | Refused

  /** Compare-and-set of the status. Nothing is written unless the row is in one of `from`. */
  function Transition(db: Db, id: Id, from: set<Status>, to: Status, v: Values): Transitioned {
    if id !in db.rows || db.rows[id].status !in from then NotMoved
    else
      match Put(db, id, MovedRow(db.rows[id], to, v, db.now))
      case Ok(after) => Moved(after)
      case Err => Refused
  }

  datatype Authorisation = Started(db: Db) | SwitchIsOn | NoLongerAuthorised | AlreadyCarriedOut

  /** The one step that lets a write go ahead. */
  function AuthoriseExecution(db: Db, id: Id, local: bool): Authorisation {
    if SwitchesOn(db, local) != {} then SwitchIsOn
    else if
      || id !in db.rows || (db.rows[id].status != Approved && db.rows[id].status != Allowed)
      || db.rows[id].validUntil.None? || db.rows[id].validUntil.value <= db.now
    then NoLongerAuthorised
    else
      match Put(db, id, db.rows[id].(status := Executing, startedAt := Some(db.now)))
      case Ok(after) => Started(after)
      case Err => AlreadyCarriedOut
  }

  /** An authorisation is refused for a switch exactly when the platform's, the tenant's or the installation's is on. */
  lemma RefusedUnderASwitchExactlyWhen(db: Db, id: Id, local: bool)
    ensures AuthoriseExecution(db, id, local) == SwitchIsOn <==>
              db.globalSwitch || local || (db.policy.Some? && db.policy.value.killSwitch)
  {
    SwitchesOnExactlyWhen(db, local);
    hide SwitchesOn;
  }

  datatype Decision = NotFound | WrongState | NotAllowed | RequestExpired(db: Db) | Recorded(db: Db) | Violation

  function DecidedRow(r: Row, actor: string, approve: bool, within: nat, now: Time): Row {
    r.(status := if approve then Approved else Rejected,
       completedAt := if approve then r.completedAt else Some(now),
       approver := Some(actor),
       approvedHash := if approve then Some(r.what.actionHash) else None,
       decidedAt := Some(now),
       validUntil := Some(now + MINUTE * within))
  }

  /** Approve or reject a pending action, exactly as the approver saw it. */
  function Decide(db: Db, id: Id, actor: string, approve: bool, seen: Option<ActionHash>): Decision {
    if id !in db.rows then NotFound
    else
      var r := db.rows[id];
      if r.status != Pending then WrongState
      else if seen != Some(r.what.actionHash) then WrongState
      else if r.expiresAt.None? || db.now >= r.expiresAt.value then
        match Put(db, id, r.(status := Expired, completedAt := Some(db.now)))
        case Ok(after) => RequestExpired(after)
        case Err => Violation
      else if approve && r.what.tier == T2 && (r.what.author == "" || r.what.author == actor) then NotAllowed
      else
        match Put(db, id, DecidedRow(r, actor, approve, ReadPolicy(db.policy).rules.executeWithin, db.now))
        case Ok(after) => Recorded(after)
        case Err => Violation
  }

  /** Record the change opened for an action, whatever its status is by now. */
  function NoteChange(db: Db, id: Id, number: string): Result<Db> {
    if id !in db.rows then Err else Put(db, id, db.rows[id].(change := number))
  }

  /** Record that approval was asked for, whatever the row's status is by now. */
  function NoteRequested(db: Db, id: Id): Result<Db> {
    if id !in db.rows then Err else Put(db, id, db.rows[id].(requestedAt := Some(db.now)))
  }

  function RecentExecutions(db: Db, minutes: nat): nat {
    |set id | id in db.rows && db.rows[id].startedAt.Some?
           && db.rows[id].startedAt.value >= db.now - MINUTE * minutes|
  }
}
