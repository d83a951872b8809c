/**
 Every run of the action pipeline: any number of workers, approvers, sweepers and switch changes,
 interleaved in any order. One `Step` is one database transaction, one grant minted, or one write
 sent. A worker that stalls or dies is one whose next step comes late or never.
 */
module ActionRuns {
  import opened Wrappers
  import opened Policy
  import opened ActionTable

  const GRANT_SECONDS: nat := 60

  /** A minted token for one call. `rollback` says what it was minted for. */
  datatype Grant = Grant(action: Id, rollback: bool, digest: CallDigest, expires: Time)

  /** A write that a connector accepted under the grant with this index. */
  datatype Write = Write(grant: nat, capability: string, params: Params, sentAt: Time)

  /**
   The shared state, with the history of grants and writes. `tickets` counts, per action, the
   successful authorisations whose grant has not been minted yet; `undo` the same for rollbacks.
   `cleared` are the grants for whose call the switches were read and found off.
   */
  datatype World = World(
    db: Db, tickets: multiset<Id>, undo: multiset<Id>, grants: seq<Grant>, cleared: set<nat>, writes: seq<Write>)

  /** Every compare-and-set the service makes, except the authorisation. */
  datatype Move =
    | Invalidate | ChangeDenied | Expire | NotAccepted
    | Abort | TooLate | GiveUp
    | MarkExecuted | MarkVerified | Lost | NoRollback | StartRollback | MarkRolledBack | MarkRollbackFailed
    | Interrupted
  {
    function From(): set<Status> {
      match this
      case Invalidate => {Pending, Approved, Allowed}
      case ChangeDenied => {Pending, Approved, Allowed}
      case Expire => {Pending}
      case NotAccepted => {Pending}
      case Abort => WAITING
      case TooLate => WAITING
      case GiveUp => WAITING
      case MarkExecuted => {Executing}
      case MarkVerified => {Executed, Executing}
      case Lost => {Executing}
      case NoRollback => {Executing, Executed, RollingBack}
      case StartRollback => {Executing, Executed}
      case MarkRolledBack => {Executing, Executed, RollingBack}
      case MarkRollbackFailed => {Executing, Executed, RollingBack}
      case Interrupted => {RollingBack}
    }

    function To(): Status {
      match this
      case Invalidate => Invalid
      case ChangeDenied => Denied
      case Expire => Expired
      case NotAccepted => Invalid
      case Abort => Aborted
      case TooLate => Invalid
      case GiveUp => NotDone
      case MarkExecuted => Executed
      case MarkVerified => Verified
      case Lost => Failed
      case NoRollback => Failed
      case StartRollback => RollingBack
      case MarkRolledBack => RolledBack
      case MarkRollbackFailed => RollbackFailed
      case Interrupted => Failed
    }

    function Columns(): Values {
      Values(
        if StartRollback? then None else Some(Outcome(Lost? || Interrupted?)),
        if ChangeDenied? then Some(Reason.ChangeUnavailable) else None)
    }

    /** Approvals, expiry and refused approvals come from outside the driver of the action. */
    predicate External() {
      Expire? || NotAccepted?
    }
  }

  datatype Step =
    | Tick(seconds: nat)
    | SetGlobalSwitch(on: bool)
    | SetPolicy(policy: Option<StoredPolicy>)
    | Record(id: Id, draft: Draft)
    | Make(id: Id, move: Move)
    | Authorise(id: Id, local: bool)
    | Mint(id: Id)
    | MintUndo(id: Id, digest: CallDigest)
    | Clear(grant: nat, local: bool)
    | Send(id: Id, grant: nat, capability: string, params: Params, local: bool)
    | Decided(id: Id, actor: string, approve: bool, seen: Option<ActionHash>)
    | Opened(id: Id, number: string)
    | Asked(id: Id)

  /** A declared write is T1 or T2, and its decision was made no later than it is recorded. */
  predicate Recordable(db: Db, d: Draft) {
    && d.request.isDeclaredWrite
    && (d.request.baseTier == Some(T1) || d.request.baseTier == Some(T2))
    && d.request.now <= db.now
  }

  /**
   The connector accepts a grant for exactly this call, once and in time. The switches in the
   database were read earlier, when the call was let through to whoever redeems the grant: the
   process itself, or a runner, which at this point looks only at a file of its own.
   */
  predicate Redeemable(w: World, id: Id, g: nat, call: CallDigest, local: bool) {
    && !local
    && g < |w.grants|
    && g in w.cleared
    && w.grants[g].action == id
    && w.grants[g].digest == call
    && w.db.now < w.grants[g].expires
    && forall k | 0 <= k < |w.writes| :: w.writes[k].grant != g
  }

  /** The table after a transaction that may refuse to write. */
  function Committed(db: Db, r: Result<Db>): Db {
    match r case Ok(after) => after case Err => db
  }

  function AfterMove(db: Db, t: Transitioned): Db {
    match t case Moved(after) => after case _ => db
  }

  function AfterAuthorisation(db: Db, a: Authorisation): Db {
    match a case Started(after) => after case _ => db
  }

  function AfterDecision(db: Db, d: Decision): Db {
    match d
    case RequestExpired(after) => after
    case Recorded(after) => after
    case _ => db
  }

  function TryMove(db: Db, id: Id, m: Move): Transitioned {
    Transition(db, id, m.From(), m.To(), m.Columns())
  }

  /** What a step does to the table. A step that cannot be made changes nothing. */
  function After(db: Db, s: Step): Db {
    match s
    case Tick(n) => db.(now := db.now + n)
    case SetGlobalSwitch(on) => db.(globalSwitch := on)
    case SetPolicy(p) => db.(policy := p)
    case Record(id, d) => if Recordable(db, d) then Committed(db, RecordDecision(db, id, d)) else db
    case Make(id, m) => AfterMove(db, TryMove(db, id, m))
    case Authorise(id, local) => AfterAuthorisation(db, AuthoriseExecution(db, id, local))
    case Decided(id, actor, approve, seen) => AfterDecision(db, Decide(db, id, actor, approve, seen))
    case Opened(id, number) => Committed(db, NoteChange(db, id, number))
    case Asked(id) => Committed(db, NoteRequested(db, id))
    case _ => db
  }

  function Ticket(earned: bool, id: Id): multiset<Id> {
    if earned then multiset{id} else multiset{}
  }

  function Minted(w: World, id: Id, rollback: bool, digest: CallDigest): seq<Grant> {
    w.grants + [Grant(id, rollback, digest, w.db.now + GRANT_SECONDS)]
  }

  /** One step of the whole system. */
  function Apply(w: World, s: Step): World {
    match s
    case Make(id, m) =>
      w.(db := After(w.db, s), undo := w.undo + Ticket(m.StartRollback? && TryMove(w.db, id, m).Moved?, id))
    case Authorise(id, local) =>
      w.(db := After(w.db, s), tickets := w.tickets + Ticket(AuthoriseExecution(w.db, id, local).Started?, id))
    case Mint(id) =>
      if id in w.tickets && id in w.db.rows then
        w.(tickets := w.tickets - multiset{id}, grants := Minted(w, id, false, w.db.rows[id].what.callDigest))
      else w
    case MintUndo(id, digest) =>
      if id in w.undo then w.(undo := w.undo - multiset{id}, grants := Minted(w, id, true, digest)) else w
    case Clear(g, local) =>
      if g < |w.grants| && SwitchesOn(w.db, local) == {} then w.(cleared := w.cleared + {g}) else w
    case Send(id, g, capability, params, local) =>
      if Redeemable(w, id, g, CallDigest(capability, params), local)
      then w.(writes := w.writes + [Write(g, capability, params, w.db.now)])
      else w
    case _ => w.(db := After(w.db, s))
  }

  function Run(w: World, steps: seq<Step>): World
    decreases |steps|
  {
    if steps == [] then w else Run(Apply(w, steps[0]), steps[1..])
  }

  /** An empty table and no grants: where every run starts. */
  predicate Initial(w: World) {
    && w.db.rows == map[] && w.tickets == multiset{} && w.undo == multiset{}
    && w.grants == [] && w.cleared == {} && w.writes == []
  }

  // ── The invariant ─────────────────────────────────────────────────────

  /** Statuses only an authorised execution leads to. */
  predicate Begun(s: Status) {
    match s
    case Executing | Executed | RollingBack | Verified | Failed | RolledBack | RollbackFailed => true
    case _ => false
  }

  /** Statuses a rollback in progress or finished can have. */
  predicate Undone(s: Status) {
    match s
    case RollingBack | Failed | RolledBack | RollbackFailed => true
    case _ => false
  }

  /** Allowed by policy at T1, or approved for exactly this action, by someone other than the author at T2. */
  predicate Authorised(r: Row) {
    || (r.verdict == Allow && r.what.tier == T1)
    || (&& r.verdict == RequireApproval
        && ApprovedExactly(r)
        && (r.what.tier == T2 ==> r.what.author != "" && r.approver.value != r.what.author))
  }

  predicate Undecided(r: Row) {
    r.approver.None? && r.approvedHash.None? && r.decidedAt.None?
  }

  predicate RowInv(r: Row, now: Time) {
    && Checks(r)
    && r.what.callDigest == CallDigest(r.what.capability, r.what.params)
    && r.what.actionHash.capability == r.what.capability && r.what.actionHash.params == r.what.params
    && r.what.ruledAt <= r.what.createdAt <= now
    && (r.startedAt.Some? <==> Begun(r.status))
    && (r.completedAt.Some? <==> Final(r.status))
    && (r.status == Pending ==> r.verdict == RequireApproval && r.expiresAt.Some? && Undecided(r))
    && (r.status == Allowed ==> r.verdict == Allow && r.what.tier == T1 && r.validUntil.Some? && Undecided(r))
    && (r.status == Approved ==> r.verdict == RequireApproval && Authorised(r) && r.validUntil.Some?)
    && (r.startedAt.Some? ==> Authorised(r) && r.validUntil.Some? && r.startedAt.value < r.validUntil.value)
    && (r.startedAt.Some? ==> r.startedAt.value <= now)
    && (!Final(r.status) ==> r.result.None? || !r.result.value.unknown)
  }

  predicate TableInv(db: Db) {
    && Legal(db.rows)
    && forall id | id in db.rows :: RowInv(db.rows[id], db.now)
  }

  /** A grant is for an action whose execution began; a rollback's, for one that is being or was undone. */
  predicate Covered(rows: Rows, now: Time, g: Grant) {
    && g.action in rows
    && rows[g.action].startedAt.Some?
    && g.expires <= now + GRANT_SECONDS
    && (g.rollback ==> Undone(rows[g.action].status))
    && (!g.rollback ==> g.digest == rows[g.action].what.callDigest)
  }

  predicate NoGrant(grants: seq<Grant>, id: Id, rollback: bool) {
    forall g | g in grants :: g.action != id || g.rollback != rollback
  }

  /** An outstanding ticket is the only one for its action, and no grant was minted for it yet. */
  predicate TicketsInv(rows: Rows, tickets: multiset<Id>, grants: seq<Grant>, rollback: bool) {
    forall id | id in tickets ::
      && tickets[id] == 1
      && id in rows && rows[id].startedAt.Some?
      && (rollback ==> Undone(rows[id].status))
      && NoGrant(grants, id, rollback)
  }

  predicate OneGrantPerAction(grants: seq<Grant>) {
    forall g, h | 0 <= g < h < |grants| ::
      grants[g].rollback != grants[h].rollback || grants[g].action != grants[h].action
  }

  /** Every write used a grant for exactly that call, in time, and no two used the same one. */
  predicate WritesInv(grants: seq<Grant>, writes: seq<Write>) {
    && (forall k | 0 <= k < |writes| ::
          && writes[k].grant < |grants|
          && grants[writes[k].grant].digest == CallDigest(writes[k].capability, writes[k].params)
          && writes[k].sentAt < grants[writes[k].grant].expires)
    && (forall j, k | 0 <= j < k < |writes| :: writes[j].grant != writes[k].grant)
  }

  predicate HistoryInv(w: World) {
    && (forall g | g in w.grants :: Covered(w.db.rows, w.db.now, g))
    && TicketsInv(w.db.rows, w.tickets, w.grants, false)
    && TicketsInv(w.db.rows, w.undo, w.grants, true)
    && OneGrantPerAction(w.grants)
    && (forall g | g in w.cleared :: g < |w.grants|)
    && WritesInv(w.grants, w.writes)
  }

  predicate Inv(w: World) {
    TableInv(w.db) && HistoryInv(w)
  }

  // ── One row, one step ─────────────────────────────────────────────────

  function StatusRank(s: Status): nat {
    if Final(s) then 5
    else
      match s
      case Pending => 0
      case Approved => 1
      case Allowed => 1
      case Executing => 2
      case Executed => 3
      case _ => 4
  }

  /**
   What any one step may do to a row. All that the table's trigger forbids is excluded: to change what the
   action is, a decision that was made, or a recorded start, or to change a verdict to anything but a denial.
   */
  predicate Advances(r: Row, r': Row) {
    && r'.what == r.what
    && (r'.status == r.status || StatusRank(r.status) < StatusRank(r'.status))
    && (r'.verdict == r.verdict || r'.verdict == Deny)
    && (r.approver.Some? ==>
          r'.approver == r.approver && r'.approvedHash == r.approvedHash && r'.decidedAt == r.decidedAt)
    && (r.startedAt.Some? ==> r'.startedAt == r.startedAt)
    && (Undone(r.status) ==> Undone(r'.status))
  }

  /** What any one step may do to the table. */
  predicate TableAdvances(db: Db, db': Db) {
    && db.now <= db'.now
    && forall id | id in db.rows :: id in db'.rows && Advances(db.rows[id], db'.rows[id])
  }

  lemma MoveKeepsRow(r: Row, m: Move, now: Time)
    requires RowInv(r, now) && r.status in m.From()
    ensures RowInv(MovedRow(r, m.To(), m.Columns(), now), now)
  {
    assert Begun(m.To()) <==> Begun(r.status);
  }

  lemma MoveAdvancesRow(r: Row, m: Move, now: Time)
    requires r.status in m.From()
    ensures Advances(r, MovedRow(r, m.To(), m.Columns(), now))
  {
  }

  lemma DecisionKeepsRow(r: Row, actor: string, approve: bool, within: nat, now: Time)
    requires RowInv(r, now) && r.status == Pending
    requires approve && r.what.tier == T2 ==> r.what.author != "" && r.what.author != actor
    requires Checks(DecidedRow(r, actor, approve, within, now))
    ensures RowInv(DecidedRow(r, actor, approve, within, now), now)
    ensures Advances(r, DecidedRow(r, actor, approve, within, now))
  {
  }

  lemma ExpiryKeepsRow(r: Row, now: Time)
    requires RowInv(r, now) && r.status == Pending
    ensures RowInv(r.(status := Expired, completedAt := Some(now)), now)
    ensures Advances(r, r.(status := Expired, completedAt := Some(now)))
  {
  }

  lemma StartKeepsRow(r: Row, now: Time)
    requires RowInv(r, now) && r.status in WAITING
    requires r.validUntil.Some? && now < r.validUntil.value
    ensures RowInv(r.(status := Executing, startedAt := Some(now)), now)
    ensures Advances(r, r.(status := Executing, startedAt := Some(now)))
  {
  }

  lemma RecordedRowIsSound(d: Draft, incident: nat, now: Time)
    requires d.request.now <= now
    requires d.request.baseTier == Some(T1) || d.request.baseTier == Some(T2)
    ensures RowInv(DecisionRow(d, incident, now), now)
    ensures DecisionRow(d, incident, now).startedAt.None?
  {
  }

  // ── Every step keeps the invariant ────────────────────────────────────

  lemma PuttingARowKeepsTable(db: Db, id: Id, row: Row)
    requires TableInv(db) && RowInv(row, db.now)
    requires id in db.rows ==> Advances(db.rows[id], row)
    ensures TableInv(Committed(db, Put(db, id, row))) && TableAdvances(db, Committed(db, Put(db, id, row)))
  {
    hide Legal, RowInv, Advances;
    EveryRowAdvances(db);
  }

  lemma EveryRowAdvances(db: Db)
    ensures forall id | id in db.rows :: Advances(db.rows[id], db.rows[id])
  {
  }

  lemma RecordKeepsTable(db: Db, id: Id, d: Draft)
    requires TableInv(db)
    ensures TableInv(After(db, Record(id, d))) && TableAdvances(db, After(db, Record(id, d)))
  {
    hide Legal;
    if Recordable(db, d) && RecordDecision(db, id, d).Ok? {
      RecordedRowIsSound(d, db.incidentOf[d.run], db.now);
      PuttingARowKeepsTable(db, id, DecisionRow(d, db.incidentOf[d.run], db.now));
    }
  }

  lemma MakeKeepsTable(db: Db, id: Id, m: Move)
    requires TableInv(db)
    ensures TableInv(After(db, Make(id, m))) && TableAdvances(db, After(db, Make(id, m)))
  {
    hide Legal;
    if TryMove(db, id, m).Moved? {
      MoveKeepsRow(db.rows[id], m, db.now);
      MoveAdvancesRow(db.rows[id], m, db.now);
      PuttingARowKeepsTable(db, id, MovedRow(db.rows[id], m.To(), m.Columns(), db.now));
    }
  }

  lemma AuthoriseKeepsTable(db: Db, id: Id, local: bool)
    requires TableInv(db)
    ensures TableInv(After(db, Authorise(id, local))) && TableAdvances(db, After(db, Authorise(id, local)))
  {
    hide Legal;
    if AuthoriseExecution(db, id, local).Started? {
      StartKeepsRow(db.rows[id], db.now);
      PuttingARowKeepsTable(db, id, db.rows[id].(status := Executing, startedAt := Some(db.now)));
    }
  }

  lemma OnlyCheckedRowsAreWritten(db: Db, id: Id, row: Row)
    requires Put(db, id, row).Ok?
    ensures Checks(row)
  {
    assert Checks(db.rows[id := row][id]);
  }

  lemma DecideKeepsTable(db: Db, id: Id, actor: string, approve: bool, seen: Option<ActionHash>)
    requires TableInv(db)
    ensures TableInv(After(db, Decided(id, actor, approve, seen)))
    ensures TableAdvances(db, After(db, Decided(id, actor, approve, seen)))
  {
    hide Legal, DecidedRow, RowInv, Advances, TableAdvances, Checks;
    match Decide(db, id, actor, approve, seen)
    case RequestExpired(_) =>
      ExpiryKeepsRow(db.rows[id], db.now);
      PuttingARowKeepsTable(db, id, db.rows[id].(status := Expired, completedAt := Some(db.now)));
    case Recorded(_) =>
      var within := ReadPolicy(db.policy).rules.executeWithin;
      var row := DecidedRow(db.rows[id], actor, approve, within, db.now);
      OnlyCheckedRowsAreWritten(db, id, row);
      DecisionKeepsRow(db.rows[id], actor, approve, within, db.now);
      PuttingARowKeepsTable(db, id, row);
    case _ => OutsideKeepsTable(db, db);
  }

  lemma NoteKeepsTable(db: Db, id: Id, row: Row)
    requires TableInv(db) && id in db.rows
    requires row == db.rows[id].(change := row.change) || row == db.rows[id].(requestedAt := row.requestedAt)
    ensures TableInv(Committed(db, Put(db, id, row))) && TableAdvances(db, Committed(db, Put(db, id, row)))
  {
    hide Legal;
    assert RowInv(db.rows[id], db.now);
    PuttingARowKeepsTable(db, id, row);
  }

  /** The clock goes on, a switch or the policy changes, or nothing happens. */
  lemma OutsideKeepsTable(db: Db, db': Db)
    requires TableInv(db) && db'.rows == db.rows && db.now <= db'.now
    ensures TableInv(db') && TableAdvances(db, db')
  {
  }

  lemma EveryStepKeepsTable(db: Db, s: Step)
    requires TableInv(db)
    ensures TableInv(After(db, s)) && TableAdvances(db, After(db, s))
  {
    hide TableInv, TableAdvances, Put, RecordDecision, Transition, AuthoriseExecution, Decide;
    match s
    case Record(id, d) => RecordKeepsTable(db, id, d);
    case Make(id, m) => MakeKeepsTable(db, id, m);
    case Authorise(id, local) => AuthoriseKeepsTable(db, id, local);
    case Decided(id, actor, approve, seen) => DecideKeepsTable(db, id, actor, approve, seen);
    case Opened(id, number) =>
      if id in db.rows {
        NoteKeepsTable(db, id, db.rows[id].(change := number));
      } else {
        OutsideKeepsTable(db, db);
      }
    case Asked(id) =>
      if id in db.rows {
        NoteKeepsTable(db, id, db.rows[id].(requestedAt := Some(db.now)));
      } else {
        OutsideKeepsTable(db, db);
      }
    case _ => OutsideKeepsTable(db, After(db, s));
  }

  /** History stays sound when only the table moves on. */
  lemma TableMovesUnderHistory(w: World, db: Db)
    requires HistoryInv(w) && TableAdvances(w.db, db)
    ensures HistoryInv(w.(db := db))
  {
    forall g | g in w.grants
      ensures Covered(db.rows, db.now, g)
    {
      assert Covered(w.db.rows, w.db.now, g);
    }
  }

  /** The table moved on and one action earned the ticket for its write. */
  lemma StartKeepsHistory(w: World, db: Db, id: Id)
    requires HistoryInv(w) && TableAdvances(w.db, db)
    requires id in w.db.rows && w.db.rows[id].startedAt.None? && db.rows[id].startedAt.Some?
    ensures HistoryInv(w.(db := db, tickets := w.tickets + multiset{id}))
  {
    TableMovesUnderHistory(w, db);
    assert NoGrant(w.grants, id, false) by {
      forall g | g in w.grants
        ensures g.action != id || g.rollback
      {
        assert Covered(w.db.rows, w.db.now, g);
      }
    }
  }

  /** The table moved on and one action earned the ticket for its rollback. */
  lemma StartRollbackKeepsHistory(w: World, db: Db, id: Id)
    requires HistoryInv(w) && TableAdvances(w.db, db)
    requires id in w.db.rows && w.db.rows[id].startedAt.Some?
    requires !Undone(w.db.rows[id].status) && Undone(db.rows[id].status)
    ensures HistoryInv(w.(db := db, undo := w.undo + multiset{id}))
  {
    TableMovesUnderHistory(w, db);
    assert NoGrant(w.grants, id, true) by {
      forall g | g in w.grants
        ensures g.action != id || !g.rollback
      {
        assert Covered(w.db.rows, w.db.now, g);
      }
    }
  }

  lemma AuthoriseKeepsHistory(w: World, id: Id, local: bool)
    requires TableInv(w.db) && HistoryInv(w)
    ensures HistoryInv(Apply(w, Authorise(id, local)))
  {
    hide HistoryInv, Legal;
    var s := Authorise(id, local);
    AuthoriseKeepsTable(w.db, id, local);
    if AuthoriseExecution(w.db, id, local).Started? {
      assert RowInv(w.db.rows[id], w.db.now);
      StartKeepsHistory(w, After(w.db, s), id);
    } else {
      TableMovesUnderHistory(w, w.db);
      assert Apply(w, s) == w.(db := w.db);
    }
  }

  lemma StartRollbackOnRow(db: Db, id: Id)
    requires TableInv(db) && TryMove(db, id, StartRollback).Moved?
    ensures id in db.rows && db.rows[id].startedAt.Some? && !Undone(db.rows[id].status)
    ensures Undone(After(db, Make(id, StartRollback)).rows[id].status)
  {
    hide Legal;
    assert RowInv(db.rows[id], db.now);
  }

  lemma MakeKeepsHistory(w: World, id: Id, m: Move)
    requires TableInv(w.db) && HistoryInv(w)
    ensures HistoryInv(Apply(w, Make(id, m)))
  {
    hide HistoryInv, TableInv, Transition, TableAdvances;
    var db := After(w.db, Make(id, m));
    MakeKeepsTable(w.db, id, m);
    if m.StartRollback? && TryMove(w.db, id, m).Moved? {
      StartRollbackOnRow(w.db, id);
      StartRollbackKeepsHistory(w, db, id);
    } else {
      TableMovesUnderHistory(w, db);
      assert Apply(w, Make(id, m)) == w.(db := db);
    }
  }

  lemma GrantsStayDistinct(grants: seq<Grant>, g: Grant)
    requires OneGrantPerAction(grants) && NoGrant(grants, g.action, g.rollback)
    ensures OneGrantPerAction(grants + [g])
  {
    assert forall i | 0 <= i < |grants| :: grants[i] in grants;
  }

  lemma SpentTicket(rows: Rows, tickets: multiset<Id>, grants: seq<Grant>, g: Grant)
    requires TicketsInv(rows, tickets, grants, g.rollback) && g.action in tickets
    ensures TicketsInv(rows, tickets - multiset{g.action}, grants + [g], g.rollback)
  {
    var left := tickets - multiset{g.action};
    forall id | id in left
      ensures id in tickets && left[id] == 1 && NoGrant(grants + [g], id, g.rollback)
    {
      assert id != g.action && NoGrant(grants, id, g.rollback);
    }
  }

  lemma OtherTickets(rows: Rows, tickets: multiset<Id>, grants: seq<Grant>, g: Grant)
    requires TicketsInv(rows, tickets, grants, !g.rollback)
    ensures TicketsInv(rows, tickets, grants + [g], !g.rollback)
  {
    forall id | id in tickets
      ensures NoGrant(grants + [g], id, !g.rollback)
    {
      assert NoGrant(grants, id, !g.rollback);
    }
  }

  lemma MintingKeepsHistory(w: World, g: Grant, tickets: multiset<Id>, undo: multiset<Id>)
    requires HistoryInv(w) && Covered(w.db.rows, w.db.now, g)
    requires if g.rollback then g.action in w.undo && undo == w.undo - multiset{g.action} && tickets == w.tickets
             else g.action in w.tickets && tickets == w.tickets - multiset{g.action} && undo == w.undo
    ensures HistoryInv(w.(grants := w.grants + [g], tickets := tickets, undo := undo))
  {
    SpentTicket(w.db.rows, if g.rollback then w.undo else w.tickets, w.grants, g);
    OtherTickets(w.db.rows, if g.rollback then w.tickets else w.undo, w.grants, g);
    GrantsStayDistinct(w.grants, g);
    MoreGrantsKeepWrites(w.grants, g, w.writes);
  }

  lemma MoreGrantsKeepWrites(grants: seq<Grant>, g: Grant, writes: seq<Write>)
    requires WritesInv(grants, writes)
    ensures WritesInv(grants + [g], writes)
  {
  }

  lemma MintKeepsHistory(w: World, id: Id)
    requires HistoryInv(w)
    ensures HistoryInv(Apply(w, Mint(id)))
  {
    if id in w.tickets && id in w.db.rows {
      var g := Grant(id, false, w.db.rows[id].what.callDigest, w.db.now + GRANT_SECONDS);
      assert Covered(w.db.rows, w.db.now, g);
      MintingKeepsHistory(w, g, w.tickets - multiset{id}, w.undo);
      assert Apply(w, Mint(id)) == w.(grants := w.grants + [g], tickets := w.tickets - multiset{id}, undo := w.undo);
    }
  }

  lemma MintUndoKeepsHistory(w: World, id: Id, digest: CallDigest)
    requires HistoryInv(w)
    ensures HistoryInv(Apply(w, MintUndo(id, digest)))
  {
    if id in w.undo {
      var g := Grant(id, true, digest, w.db.now + GRANT_SECONDS);
      assert Covered(w.db.rows, w.db.now, g);
      MintingKeepsHistory(w, g, w.tickets, w.undo - multiset{id});
      assert Apply(w, MintUndo(id, digest))
          == w.(grants := w.grants + [g], tickets := w.tickets, undo := w.undo - multiset{id});
    }
  }

  lemma SendKeepsHistory(w: World, s: Step)
    requires HistoryInv(w) && (s.Clear? || s.Send?)
    ensures HistoryInv(Apply(w, s))
  {
  }

  lemma EveryStepKeepsHistory(w: World, s: Step)
    requires TableInv(w.db) && HistoryInv(w)
    ensures HistoryInv(Apply(w, s))
  {
    hide HistoryInv, TableInv, After;
    match s
    case Make(id, m) => MakeKeepsHistory(w, id, m);
    case Authorise(id, local) => AuthoriseKeepsHistory(w, id, local);
    case Mint(id) => MintKeepsHistory(w, id);
    case MintUndo(id, digest) => MintUndoKeepsHistory(w, id, digest);
    case Clear(_, _) => SendKeepsHistory(w, s);
    case Send(_, _, _, _, _) => SendKeepsHistory(w, s);
    case _ =>
      EveryStepKeepsTable(w.db, s);
      TableMovesUnderHistory(w, After(w.db, s));
  }

  lemma ApplyTable(w: World, s: Step)
    ensures Apply(w, s).db == After(w.db, s)
  {
    hide RecordDecision, Transition, AuthoriseExecution, Decide, NoteChange, NoteRequested, Redeemable;
  }

  lemma EveryStepKeepsInv(w: World, s: Step)
    requires Inv(w)
    ensures Inv(Apply(w, s)) && TableAdvances(w.db, Apply(w, s).db)
  {
    hide TableInv, TableAdvances, HistoryInv, Apply, After;
    EveryStepKeepsTable(w.db, s);
    EveryStepKeepsHistory(w, s);
    ApplyTable(w, s);
  }

  lemma {:induction false} EveryRunKeepsInv(w: World, steps: seq<Step>)
    requires Inv(w)
    ensures Inv(Run(w, steps))
    decreases |steps|
  {
    hide Inv, Apply;
    if steps != [] {
      EveryStepKeepsInv(w, steps[0]);
      EveryRunKeepsInv(Apply(w, steps[0]), steps[1..]);
    }
  }

  // ── What a step does to one row ───────────────────────────────────────

  /** The action a step is about, when it is about one. */
  function About(s: Step): Option<Id> {
    match s
    case Tick(_) => None
    case SetGlobalSwitch(_) => None
    case SetPolicy(_) => None
    case Record(id, _) => Some(id)
    case Make(id, _) => Some(id)
    case Authorise(id, _) => Some(id)
    case Mint(id) => Some(id)
    case MintUndo(id, _) => Some(id)
    case Clear(_, _) => None
    case Send(id, _, _, _, _) => Some(id)
    case Decided(id, _, _, _) => Some(id)
    case Opened(id, _) => Some(id)
    case Asked(id) => Some(id)
  }

  /** The ways a step about a row can rewrite it. */
  predicate Becomes(db: Db, s: Step, r: Row, r': Row) {
    || r' == r
    || match s
       case Make(_, m) => r.status in m.From() && r' == MovedRow(r, m.To(), m.Columns(), db.now)
       case Authorise(_, _) =>
         && r.status in WAITING && r.validUntil.Some? && db.now < r.validUntil.value
         && r' == r.(status := Executing, startedAt := Some(db.now))
       case Decided(_, actor, approve, _) =>
         && r.status == Pending
         && (|| r' == r.(status := Expired, completedAt := Some(db.now))
             || (&& r.expiresAt.Some? && db.now < r.expiresAt.value
                 && r' == DecidedRow(r, actor, approve, ReadPolicy(db.policy).rules.executeWithin, db.now)))
       case Opened(_, number) => r' == r.(change := number)
       case Asked(_) => r' == r.(requestedAt := Some(db.now))
       case _ => false
  }

  lemma StepOnRow(db: Db, s: Step, id: Id)
    requires id in db.rows
    ensures id in After(db, s).rows
    ensures About(s) != Some(id) ==> After(db, s).rows[id] == db.rows[id]
    ensures Becomes(db, s, db.rows[id], After(db, s).rows[id])
  {
    hide Legal, DecisionRow, MovedRow, DecidedRow, SwitchesOn;
  }

  lemma StepMakesRow(db: Db, s: Step, id: Id)
    requires id !in db.rows && id in After(db, s).rows
    ensures s.Record? && s.id == id && Recordable(db, s.draft) && s.draft.run in db.incidentOf
    ensures After(db, s).rows[id] == DecisionRow(s.draft, db.incidentOf[s.draft.run], db.now)
  {
    hide Legal, DecisionRow, MovedRow, DecidedRow, SwitchesOn;
  }

  lemma StepSetsPolicy(db: Db, s: Step)
    ensures After(db, s).policy == if s.SetPolicy? then s.policy else db.policy
    ensures After(db, s).incidentOf == db.incidentOf
  {
    hide Legal, DecisionRow, MovedRow, DecidedRow, SwitchesOn;
  }
}
