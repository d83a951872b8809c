/**
 One ACTION step of one run, the result it ends with, and what each stage of carrying it must
 show: every predicate here is about entries that a worker's history recorded.
 */
module ActionCall {
  import opened Wrappers
  import Json
  import opened Policy
  import opened ActionTable
  import opened ActionRuns
  import opened ActionDriver
  import opened ActionHistory
  import opened ActionSteps
  import opened ExpressionEval

  datatype StepStatus = Success | Skip | Fail | Escalated | Error

  datatype RunEvent =
    | PolicyAllowed | PolicyDenied | PolicyShadow | PolicyRecommend
    | ApprovalRequired | ApprovalGranted | ApprovalRefused
    | ActionNotDone | ActionVerified | ActionFailed | RollbackDone | AbortRun | RunError

  function EventsBeforeActing(row: Row): seq<RunEvent> {
    if row.verdict == Allow then [PolicyAllowed] else [ApprovalRequired, ApprovalGranted]
  }

  /** The step result for an action that has finished, from its record alone. None: the table has no entry. */
  function FinalResult(row: Row): Option<(StepStatus, seq<RunEvent>)> {
    var acted := EventsBeforeActing(row);
    var asked := [ApprovalRequired, ApprovalRefused];
    var unknown := row.result.Some? && row.result.value.unknown;
    match row.status
    case Denied => Some((Escalated, [if row.reason == KillSwitch then AbortRun else PolicyDenied]))
    case Aborted => Some((Escalated, acted + [AbortRun]))
    case Invalid => Some((Escalated, if row.verdict == Allow then [PolicyDenied] else asked))
    case Failed =>
      if unknown then Some((Error, acted + [RunError])) else Some((Escalated, acted + [ActionFailed, RollbackDone]))
    case Shadowed => Some((Skip, [PolicyShadow]))
    case Recommended => Some((Escalated, [PolicyRecommend]))
    case Rejected => Some((Escalated, asked))
    case Expired => Some((Escalated, asked))
    case NotDone => Some((Fail, acted + [ActionNotDone]))
    case Verified => Some((Success, acted + [ActionVerified]))
    case RolledBack => Some((Escalated, acted + [ActionFailed, RollbackDone]))
    case RollbackFailed => Some((Escalated, acted + [ActionFailed, RollbackDone]))
    case _ => None
  }

  /** Only a verified action succeeds, and only a shadowed one is skipped. */
  lemma ResultsFollowTheRecord(row: Row)
    ensures FinalResult(row).Some? <==> Final(row.status)
    ensures FinalResult(row).Some? ==> (FinalResult(row).value.0 == Success <==> row.status == Verified)
    ensures FinalResult(row).Some? ==> (FinalResult(row).value.0 == Skip <==> row.status == Shadowed)
  {
    match row.status
    case _ =>
  }

  /** A read that another capability makes: the action's parameters it declares, and fixed ones. */
  datatype Reading = Reading(capability: string, declares: set<string>, fixed: Params)

  datatype PreCheck = PreCheck(read: Reading, assertion: string)

  datatype Capability = Capability(
    id: string, isWrite: bool, tier: Tier, targets: seq<string>, preChecks: seq<PreCheck>, dryRun: bool,
    verify: Reading, failed: string, rollback: Option<Reading>)

  /** Those of the action's parameters that the other capability declares, plus the fixed ones. */
  function ReadParameters(params: Params, r: Reading): Params {
    (map k | k in params && k in r.declares :: params[k]) + r.fixed
  }

  /**
   What another capability is given: its fixed parameters, and of the action's own those it declares. A fixed one
   wins; no other value is changed or made up.
   */
  ghost predicate Takes(given: Params, own: Params, declares: set<string>, fixed: Params) {
    && (forall k :: k in given <==> k in fixed || (k in own && k in declares))
    && (forall k | k in fixed :: k in given && given[k] == fixed[k])
    && forall k | k in given && k !in fixed :: k in own && given[k] == own[k]
  }

  lemma ReadingsTake(params: Params, r: Reading)
    ensures Takes(ReadParameters(params, r), params, r.declares, r.fixed)
  {
  }

  /** One ACTION step of one run, its parameters already rendered. */
  datatype Call = Call(
    tenant: string, run: nat, stepId: string, sysId: string, sop: string, sopHash: string,
    capability: Capability, params: Params, assertion: string, retries: nat)
  {
    function Wanted(): ActionHash {
      ActionHash(tenant, sysId, sop, sopHash, capability.id, params)
    }

    function Reads(r: Reading): Question {
      Target(r.capability, ReadParameters(params, r))
    }
  }

  /** What the decision stage reads besides the shared table. */
  datatype Surroundings = Surroundings(
    author: string, refusals: set<string>, covers: Matcher, maxTier: Tier, maxAutonomy: Autonomy)

  datatype StepResult =
    | Waiting(id: Id, seen: Row, at: Time)
    | Finished(id: Id, status: StepStatus, events: seq<RunEvent>)
    | NotDeclared
    | NoSuchEntry

  /** The step result of a finished action; `NoSuchEntry` is the lookup that would raise. */
  function Conclude(id: Id, row: Row): StepResult {
    match FinalResult(row)
    case Some((status, events)) => Finished(id, status, events)
    case None => NoSuchEntry
  }

  // ── Deciding ──────────────────────────────────────────────────────────

  /** The policy, the recent executions, the clock and the switches, each read in its own world. */
  predicate ReadForDecision(es: seq<Entry>) {
    |es| == 4 && es[0].asked == PolicyRow && es[1].asked == Executions && es[2].asked == Clock && es[3].asked == Switches
  }

  /** The decision as those reads make it. */
  function DraftFrom(c: Call, s: Surroundings, es: seq<Entry>): Draft
    requires ReadForDecision(es)
  {
    var policy := ReadPolicy(es[0].world.db.policy);
    Draft(
      c.tenant, c.run, c.stepId, c.sysId, s.author, c.params,
      Request(c.sop, c.sopHash, c.capability.id, c.capability.isWrite, Some(c.capability.tier), c.capability.targets,
              es[2].world.db.now),
      Situation(
        SwitchesOn(es[3].world.db, es[3].answer.yes), policy.autonomy, policy.rules, s.maxTier, s.maxAutonomy,
        RecentExecutions(es[1].world.db, policy.rules.rateMinutes), s.refusals),
      s.covers)
  }

  /** The row is the decision those reads make. */
  ghost predicate DecidedNow(c: Call, s: Surroundings, es: seq<Entry>, row: Row) {
    ReadForDecision(es) && row == DecisionRow(DraftFrom(c, s, es), row.what.incident, row.what.createdAt)
  }

  /** No action is allowed or put up for approval with a switch on, or at the rate limit, when they were read. */
  lemma DecisionsHeedWhatWasRead(c: Call, s: Surroundings, es: seq<Entry>, incident: nat, created: Time)
    requires ReadForDecision(es)
    ensures var d := DraftFrom(c, s, es);
            var status := DecisionRow(d, incident, created).status;
            && (status == Allowed || status == Pending ==>
                  && !es[3].world.db.globalSwitch && !es[3].answer.yes
                  && (es[3].world.db.policy.Some? ==> !es[3].world.db.policy.value.killSwitch)
                  && (d.situation.rules.rateMax != 0 ==> d.situation.recentActions < d.situation.rules.rateMax)
                  && ReadPolicy(es[0].world.db.policy).autonomy in {Approval, Automatic})
            && DecidedNow(c, s, es, DecisionRow(d, incident, created))
            && (On(es[3]) ==> status == Denied && DecisionRow(d, incident, created).reason == KillSwitch)
  {
    var d := DraftFrom(c, s, es);
    SwitchesOnExactlyWhen(es[3].world.db, es[3].answer.yes);
    DeniedExactlyWhen(d.covers, d.request, d.situation);
    if d.Ruled().verdict != Deny {
      TheLowestLevelDecides(d.covers, d.request, d.situation);
    }
  }

  lemma DraftIsOfTheCall(c: Call, s: Surroundings, es: seq<Entry>)
    requires ReadForDecision(es)
    ensures var d := DraftFrom(c, s, es);
            && d.run == c.run && d.stepId == c.stepId && d.Hash() == c.Wanted()
            && d.request.isDeclaredWrite == c.capability.isWrite && d.request.baseTier == Some(c.capability.tier)
  {
    hide SwitchesOn, RecentExecutions;
  }

  // ── Before the write ──────────────────────────────────────────────────

  predicate PastDeadline(row: Row, now: Time) {
    row.validUntil.None? || now >= row.validUntil.value
  }

  /** The read of one pre-check, and that it held. */
  predicate CheckHeld(c: Call, k: nat, e: Entry)
    requires k < |c.capability.preChecks|
  {
    var check := c.capability.preChecks[k];
    && e.asked == c.Reads(check.read)
    && e.answer.value.Some? && Holds(check.assertion, e.answer.value.value, c.params)
  }

  predicate CheckFailed(c: Call, k: nat, e: Entry)
    requires k < |c.capability.preChecks|
  {
    e.asked == c.Reads(c.capability.preChecks[k].read) && !CheckHeld(c, k, e)
  }

  /** The pre-checks in order, each read once, up to the first that did not hold. */
  predicate Checked(c: Call, es: seq<Entry>, passed: bool) {
    && |es| <= |c.capability.preChecks|
    && (forall k | 0 <= k < |es| - 1 :: CheckHeld(c, k, es[k]))
    && (passed ==> |es| == |c.capability.preChecks| && (es != [] ==> CheckHeld(c, |es| - 1, es[|es| - 1])))
    && (!passed ==> es != [] && CheckFailed(c, |es| - 1, es[|es| - 1]))
  }

  /** The switches, the deadline, the pre-checks and the dry run, in order, up to the first that says no. */
  predicate Prepared(c: Call, row: Row, es: seq<Entry>, move: Option<Move>) {
    && es != [] && es[0].asked == Switches
    && if On(es[0]) then |es| == 1 && move == Some(Abort)
       else
         && |es| >= 2 && es[1].asked == Clock
         && if PastDeadline(row, es[1].world.db.now) then |es| == 2 && move == Some(TooLate)
            else CheckedAndRehearsed(c, es[2..], move)
  }

  predicate CheckedAndRehearsed(c: Call, es: seq<Entry>, move: Option<Move>) {
    || (move == Some(GiveUp) && Checked(c, es, false))
    || (move == None && !c.capability.dryRun && Checked(c, es, true))
    || (&& c.capability.dryRun && es != [] && es[|es| - 1].asked == DryRun
        && Checked(c, es[..|es| - 1], true)
        && move == if es[|es| - 1].answer.yes then None else Some(GiveUp))
  }

  // ── After the write ───────────────────────────────────────────────────

  predicate ShowsResult(c: Call, e: Entry) {
    && e.asked == c.Reads(c.capability.verify)
    && e.answer.value.Some? && Holds(c.assertion, e.answer.value.value, c.params)
  }

  /** A read that settles nothing: the target is read again. */
  predicate LooksOn(c: Call, e: Entry) {
    && e.asked == c.Reads(c.capability.verify)
    && (e.answer.value.Some? ==>
          && !Holds(c.assertion, e.answer.value.value, c.params)
          && !(c.capability.failed != "" && Holds(c.capability.failed, e.answer.value.value, c.params)))
  }

  /**
   The reads of a verification: up to one more than the retries, ending at the first that shows the
   result or shows that it failed. `shown` says that the last one shows the result.
   */
  predicate Looked(c: Call, es: seq<Entry>, shown: bool) {
    && 1 <= |es| <= c.retries + 1
    && (forall i | 0 <= i < |es| - 1 :: LooksOn(c, es[i]))
    && var last := es[|es| - 1];
       && last.asked == c.Reads(c.capability.verify)
       && (shown <==> ShowsResult(c, last))
       && (|es| < c.retries + 1 ==> !LooksOn(c, last))
  }

  /** Statuses an action ends with that was not verified, once it is known or thought to have been done. */
  function NotVerified(c: Call): set<Status> {
    if c.capability.rollback.None? then {Failed} else {RolledBack, RollbackFailed}
  }

  /** A declared rollback is made unless a switch is on, and the status says what was heard of it. */
  predicate Undoing(c: Call, es: seq<Entry>, status: Status) {
    match c.capability.rollback
    case None => es == [] && status == Failed
    case Some(undo) =>
      && es != [] && es[0].asked == Switches
      && if On(es[0]) then |es| == 1 && status == RollbackFailed
         else
           && |es| == 2 && es[1].asked.Sent? && es[1].asked.rollback
           && es[1].asked.capability == undo.capability && es[1].asked.params == ReadParameters(c.params, undo)
           && status == if Heard(es[1]) == Done then RolledBack else RollbackFailed
  }

  /**
   The first `n` reads decide whether the action is verified. If not, it is rolled back as declared;
   but interrupted it ends failed, with nothing asked for and nothing undone.
   */
  predicate VerifiedAs(c: Call, es: seq<Entry>, n: nat, interrupted: bool, status: Status) {
    && n <= |es|
    && Looked(c, es[..n], status == Verified)
    && (if status == Verified then |es| == n
        else if interrupted then |es| == n && status == Failed
        else Undoing(c, es[n..], status))
  }

  /** Between the answer to a write and the first look at the target, the worker recorded the row as executed. */
  ghost predicate RecordedFirst(h: History, id: Id, sent: Entry, look: Entry) {
    exists p | p in h.own :: sent.at <= p < look.at && Records(h, id, p)
  }

  ghost predicate Records(h: History, id: Id, p: nat) {
    && p < |h.trace| && h.trace[p] == Make(id, MarkExecuted)
    && var rows := Run(h.start, h.trace[..p]).db.rows; id in rows && rows[id].status == Executing
  }

  /** A rollback is sent with what it declares of the action's parameters, and what is fixed. */
  lemma UndoingTakes(c: Call, es: seq<Entry>, status: Status)
    requires Undoing(c, es, status) && |es| == 2
    ensures c.capability.rollback.Some? && es[1].asked.Sent?
    ensures var undo, sent := c.capability.rollback.value, es[1].asked;
            sent.capability == undo.capability && Takes(sent.params, c.params, undo.declares, undo.fixed)
  {
    ReadingsTake(c.params, c.capability.rollback.value);
    hide ReadParameters, Takes;
  }

  /** So is every read of a verification. */
  lemma LookingTakes(c: Call, es: seq<Entry>, shown: bool)
    requires Looked(c, es, shown)
    ensures forall e | e in es ::
              && e.asked.Target? && e.asked.capability == c.capability.verify.capability
              && Takes(e.asked.params, c.params, c.capability.verify.declares, c.capability.verify.fixed)
  {
    ReadingsTake(c.params, c.capability.verify);
    hide ReadParameters, Takes, ExpressionEval.Holds;
    forall e | e in es
      ensures e.asked == c.Reads(c.capability.verify)
    {
      var i :| 0 <= i < |es| && es[i] == e;
      assert i < |es| - 1 ==> LooksOn(c, es[i]);
    }
  }

  /** And every pre-check, each with its own. */
  lemma CheckingTakes(c: Call, es: seq<Entry>, passed: bool)
    requires Checked(c, es, passed)
    ensures |es| <= |c.capability.preChecks|
    ensures forall k | 0 <= k < |es| ::
              && var read := c.capability.preChecks[k].read;
                 && es[k].asked.Target? && es[k].asked.capability == read.capability
                 && Takes(es[k].asked.params, c.params, read.declares, read.fixed)
  {
    hide ReadParameters, Takes, ExpressionEval.Holds;
    forall k | 0 <= k < |es|
      ensures var read := c.capability.preChecks[k].read;
              && es[k].asked.Target? && es[k].asked.capability == read.capability
              && Takes(es[k].asked.params, c.params, read.declares, read.fixed)
    {
      ReadingsTake(c.params, c.capability.preChecks[k].read);
      assert k < |es| - 1 ==> CheckHeld(c, k, es[k]);
    }
  }

  /** The write, what was heard of it, and what was done about that. */
  ghost predicate SentAs(c: Call, id: Id, h: History, es: seq<Entry>, n: nat, status: Status) {
    && es != [] && es[0].asked.Sent? && !es[0].asked.rollback
    && es[0].asked.capability == c.capability.id && es[0].asked.params == c.params
    && match Heard(es[0])
       case OutcomeUnknown => VerifiedAs(c, es[1..], n, true, status)
       case NotMade => Undoing(c, es[1..], status)
       case Done => |es| > 1 && RecordedFirst(h, id, es[0], es[1]) && VerifiedAs(c, es[1..], n, false, status)
  }

  /** The authorisation, and that its result is the one it had in that world. */
  predicate Authorising(id: Id, es: seq<Entry>, why: Authorisation) {
    |es| == 1 && es[0].asked == Start && why == AuthoriseExecution(es[0].world.db, id, es[0].answer.yes)
  }

  /** How a refused authorisation ends the action. */
  function MoveFor(why: Authorisation): Move
    requires !why.Started?
  {
    match why
    case SwitchIsOn => Abort
    case AlreadyCarriedOut => GiveUp
    case NoLongerAuthorised => TooLate
  }

  /**
   From an approved or allowed row to a final one: the first `n` entries prepare it, the next is the
   authorisation with the result it had in that world, and the rest are the write and what follows.
   */
  ghost predicate ActedAs(
      c: Call, id: Id, row: Row, h: History, es: seq<Entry>, n: nat, m: nat, move: Option<Move>, status: Status) {
    && n <= |es|
    && Prepared(c, row, es[..n], move)
    && if move.Some? then |es| == n && status == move.value.To()
       else WrittenAs(c, id, h, es[n..], m, status)
  }

  ghost predicate WrittenAs(c: Call, id: Id, h: History, es: seq<Entry>, m: nat, status: Status) {
    && es != [] && es[0].asked == Start
    && var why := AuthoriseExecution(es[0].world.db, id, es[0].answer.yes);
       if why.Started? then SentAs(c, id, h, es[1..], m, status)
       else |es| == 1 && status == MoveFor(why).To()
  }

  // ── Waiting for approval ──────────────────────────────────────────────

  /**
   A wait for approval: the row once its change was opened, once approval was asked for, and at the
   end; and when it was seen still to wait.
   */
  datatype Wait = Wait(ready: Row, requested: Row, row: Row, at: Option<Time>)

  predicate Waits(row: Row) {
    row.status == Pending || row.status in WAITING
  }

  predicate NotBegun(row: Row) {
    Waits(row) || (Final(row.status) && !Begun(row.status))
  }

  /** The change record is opened where there is none, and without one the action ends. */
  predicate OpenedAs(was: Row, es: seq<Entry>, row: Row) {
    && row.what == was.what
    && if was.change != "" then es == [] && row == was
       else
         && |es| == 1 && es[0].asked == ChangeRecord
         && match es[0].answer.number
            case None => Final(row.status)
            case Some(number) => row.change == number
  }

  function Requests(row: Row): nat {
    if row.requestedAt.None? && row.viaServiceNow then 1 else 0
  }

  /** Approval is asked for once, in ServiceNow too where that channel is on. */
  predicate RequestedAs(ready: Row, es: seq<Entry>, row: Row) {
    && |es| == Requests(ready) && (es != [] ==> es[0].asked == ApprovalRequest(ready.change))
    && row.requestedAt.Some? && (ready.requestedAt.Some? ==> row == ready)
    && row.what == ready.what && row.change == ready.change && row.expiresAt == ready.expiresAt
  }

  /** A request expires only by the clock, and waits only before its time. */
  predicate SeenAs(asked: Row, es: seq<Entry>, row: Row, at: Option<Time>) {
    && |es| == 1 && es[0].asked == Clock && asked.expiresAt.Some?
    && if asked.expiresAt.value <= es[0].world.db.now then at.None? && row.status != Pending
       else row == asked && at == if row.status == Pending then Some(es[0].world.db.now) else None
  }

  predicate AskedAs(ready: Row, es: seq<Entry>, w: Wait) {
    && |es| == Requests(ready) + 1
    && RequestedAs(ready, es[..Requests(ready)], w.requested)
    && SeenAs(w.requested, es[Requests(ready)..], w.row, w.at)
  }

  predicate WaitedAs(was: Row, es: seq<Entry>, w: Wait) {
    var o := if was.change == "" then 1 else 0;
    && o <= |es| && OpenedAs(was, es[..o], w.ready)
    && if w.ready.status == Pending then AskedAs(w.ready, es[o..], w)
       else |es| == o && w.row == w.ready && w.at.None?
  }

  // ── The whole of one call ─────────────────────────────────────────────

  /** How a call went on: it still waits, the wait ended it, it acted, it looked at a write again, or it rests. */
  datatype Course =
    | Suspended(wait: Wait)
    | Ended(wait: Wait)
    | Acts(wait: Wait, k: nat, n: nat, m: nat, move: Option<Move>)
    | Resumes(n: nat)
    | Rests

  /** What is asked of an action that waits for nobody. */
  ghost predicate CarriedAs(c: Call, id: Id, row: Row, h: History, es: seq<Entry>, x: Course, status: Status) {
    match x
    case Acts(_, k, n, m, move) =>
      row.status in WAITING && k <= |es| && ActedAs(c, id, row, h, es[k..], n, m, move, status)
    case Resumes(n) =>
      (row.status == Executing || row.status == Executed) && VerifiedAs(c, es, n, row.status == Executing, status)
    case Rests =>
      && (row.status == RollingBack || Final(row.status)) && es == []
      && status == if row.status == RollingBack then Failed else row.status
    case _ => false
  }

  /** The status of the row decides what a call does, and what it asks decides the status it leaves. */
  ghost predicate ContinuedAs(c: Call, id: Id, was: Row, h: History, es: seq<Entry>, x: Course, status: Status) {
    match x
    case Suspended(w) => Waits(was) && WaitedAs(was, es, w) && w.at.Some?
    case Ended(w) => Waits(was) && WaitedAs(was, es, w) && w.at.None? && Final(w.row.status) && status == w.row.status
    case Acts(w, k, _, _, _) =>
      && Waits(was) && k <= |es| && WaitedAs(was, es[..k], w) && w.at.None?
      && CarriedAs(c, id, w.row, h, es, x, status)
    case _ => CarriedAs(c, id, was, h, es, x, status)
  }

  /**
   The row found is left as it is while the step still renders to it, or once it is final or begun;
   where none was found the decision is made on the first four reads. The rest is carried on from there.
   */
  ghost predicate PerformedAs(
      c: Call, s: Surroundings, id: Id, was: Option<Row>, row: Row, h: History, es: seq<Entry>, x: Course,
      status: Status) {
    match was
    case None => |es| >= 4 && DecidedNow(c, s, es[..4], row) && ContinuedAs(c, id, row, h, es[4..], x, status)
    case Some(found) => FoundAs(c, found, row) && ContinuedAs(c, id, row, h, es, x, status)
  }

  /** A row that waits and no longer matches the step is voided; every other row stands. */
  predicate FoundAs(c: Call, found: Row, row: Row) {
    if found.what.actionHash == c.Wanted() || !Waits(found) then row == found
    else Final(row.status) && row.status != Verified && row.what == found.what
  }

  /**
   From the statuses named the row is moved; from others it stands; and a pending row is moved or was
   decided by someone else first.
   */
  predicate FinishedAs(was: Row, row: Row, m: Move, now: Time, before: Tally, after: Tally) {
    && (was.status in m.From() && was.status != Pending ==>
          && row == MovedRow(was, m.To(), m.Columns(), now)
          && after == before.(commits := before.commits + 1))
    && (was.status !in m.From() && was.status != Pending ==>
          && row == was
          && after == before.(missed := before.missed + if Early(m) then 0 else 1))
    && (was.status == Pending && Early(m) ==>
          && row.status != Pending
          && (m.Expire? || Final(row.status))
          && (row.status == Approved || Final(row.status)) && !Begun(row.status)
          && after == before.(commits := after.commits))
  }

  lemma NobodyActs(row: Row)
    ensures RowRely(row, row)
  {
  }

  /** Others may act on the row before the compare-and-set, and before it is read again when that missed. */
  lemma MovedOrMissed(
      was: Row, found: Row, left: Row, row: Row, m: Move, moved: bool, now: Time, before: Tally, after: Tally)
    requires Final(m.To()) && (Early(m) || was.status != Pending)
    requires RowRely(was, found) && RowRely(left, row) && (moved ==> row == left)
    requires moved <==> found.status in m.From()
    requires left == if moved then MovedRow(found, m.To(), m.Columns(), now) else found
    requires after == before.(commits := before.commits + if moved then 1 else 0,
                              missed := before.missed + if moved || Early(m) then 0 else 1)
    ensures SameAction(was, row) && FinishedAs(was, row, m, now, before, after)
  {
    MovesKeepTheAction(found, m, now);
    hide MovedRow;
  }

  // ── What every step rests on ──────────────────────────────────────────

  /** Moves that the row and the manifest alone call for. */
  predicate Unasked(c: Call, row: Row, m: Move) {
    match m
    case Invalidate => row.what.actionHash != c.Wanted()
    case Interrupted => row.status == RollingBack
    case NoRollback => c.capability.rollback.None?
    case _ => false
  }

  /** An authorisation that was refused in a way that calls for this move. */
  predicate RefusedFor(id: Id, m: Move, e: Entry) {
    && e.asked == Start
    && var why := AuthoriseExecution(e.world.db, id, e.answer.yes); !why.Started? && MoveFor(why) == m
  }

  /** The answer to one question that calls for a move. */
  predicate Shows(c: Call, id: Id, row: Row, m: Move, e: Entry) {
    match m
    case ChangeDenied => e.asked == ChangeRecord && e.answer.number.None?
    case Expire => e.asked == Clock && row.expiresAt.Some? && row.expiresAt.value <= e.world.db.now
    case Abort => (e.asked == Switches && On(e)) || RefusedFor(id, m, e)
    case TooLate => (e.asked == Clock && PastDeadline(row, e.world.db.now)) || RefusedFor(id, m, e)
    case GiveUp =>
      || (exists k: nat | k < |c.capability.preChecks| :: CheckFailed(c, k, e))
      || (e.asked == DryRun && !e.answer.yes)
      || RefusedFor(id, m, e)
    case MarkExecuted => e.asked.Sent? && !e.asked.rollback && Heard(e) == Done
    case MarkVerified => ShowsResult(c, e)
    case Lost => e.asked == c.Reads(c.capability.verify) && !ShowsResult(c, e)
    case StartRollback => e.asked == Switches && !On(e)
    case MarkRolledBack => e.asked.Sent? && e.asked.rollback && Heard(e) == Done
    case MarkRollbackFailed =>
      (e.asked == Switches && On(e)) || (e.asked.Sent? && e.asked.rollback && Heard(e) != Done)
    case _ => false
  }

  ghost predicate MayMove(c: Call, id: Id, row: Row, m: Move, es: seq<Entry>, p: nat) {
    Unasked(c, row, m) || exists e | e in es :: e.at <= p && Shows(c, id, row, m, e)
  }

  /** A step at place `p` of the trace is about this step of the run, and rests on what was asked before it. */
  ghost predicate Grounded(c: Call, s: Step, w: World, es: seq<Entry>, p: nat) {
    match s
    case Record(_, d) => d.run == c.run && d.stepId == c.stepId && d.Hash() == c.Wanted()
    case Clear(_, _) => true
    case Make(id, m) => Mine(w.db, id, c.run, c.stepId) && MayMove(c, id, w.db.rows[id], m, es, p)
    case Opened(id, number) =>
      && Mine(w.db, id, c.run, c.stepId)
      && exists e | e in es :: e.at <= p && e.asked == ChangeRecord && e.answer.number == Some(number)
    case Asked(id) => Mine(w.db, id, c.run, c.stepId)
    case Authorise(id, local) =>
      && Mine(w.db, id, c.run, c.stepId)
      && exists e | e in es :: e.at <= p && e.asked == Start && e.world == w && e.answer.yes == local
    case Mint(id) => Mine(w.db, id, c.run, c.stepId)
    case MintUndo(id, call) => Mine(w.db, id, c.run, c.stepId) && Undoes(c, call)
    case Send(id, _, capability, params, _) =>
      && Mine(w.db, id, c.run, c.stepId)
      && ((capability == c.capability.id && params == c.params) || Undoes(c, CallDigest(capability, params)))
    case _ => false
  }

  /** The call is the declared rollback, with the parameters it declares. */
  predicate Undoes(c: Call, call: CallDigest) {
    && c.capability.rollback.Some?
    && var undo := c.capability.rollback.value;
       call == CallDigest(undo.capability, ReadParameters(c.params, undo))
  }

  /** The history went on, and every step this worker took since rests on what it asked since. */
  ghost predicate Drove(c: Call, a: History, b: History) {
    && Later(a, b)
    && forall p | p in OwnSteps(a, b) :: RestsOn(c, b, New(a, b), p)
  }

  ghost predicate RestsOn(c: Call, h: History, es: seq<Entry>, p: nat) {
    p < |h.trace| && Grounded(c, h.trace[p], Run(h.start, h.trace[..p]), es, p)
  }

  lemma GroundsStay(c: Call, s: Step, w: World, es: seq<Entry>, all: seq<Entry>, p: nat)
    requires Grounded(c, s, w, es, p) && forall e | e in es :: e in all
    ensures Grounded(c, s, w, all, p)
  {
    hide Shows, Undoes, Unasked;
  }

  lemma RestsStay(c: Call, h: History, h': History, es: seq<Entry>, all: seq<Entry>, p: nat)
    requires RestsOn(c, h, es, p) && h.start == h'.start && h.trace <= h'.trace && forall e | e in es :: e in all
    ensures RestsOn(c, h', all, p)
  {
    hide Grounded, Run;
    assert h'.trace[..p] == h.trace[..p];
    GroundsStay(c, h.trace[p], Run(h.start, h.trace[..p]), es, all, p);
  }

  lemma DroveOnce(c: Call, x: History, y: History, z: History)
    requires Drove(c, x, y) && Drove(c, y, z)
    ensures Drove(c, x, z)
    ensures New(x, z) == New(x, y) + New(y, z) && OwnSteps(x, z) == OwnSteps(x, y) + OwnSteps(y, z)
  {
    hide RestsOn;
    LaterOnce(x, y, z);
    LaterKeepsLog(y, z);
    hide Later, New, OwnSteps;
    forall p | p in OwnSteps(x, z)
      ensures RestsOn(c, z, New(x, z), p)
    {
      if p in OwnSteps(x, y) {
        RestsStay(c, y, z, New(x, y), New(x, z), p);
      } else {
        RestsStay(c, z, z, New(y, z), New(x, z), p);
      }
    }
  }

  lemma QuietIsDriven(c: Call, x: History, y: History)
    requires Quiet(x, y)
    ensures Drove(c, x, y) && New(x, y) == []
  {
  }

  lemma DroveIsLater(c: Call, x: History, y: History)
    requires Drove(c, x, y)
    ensures Later(x, y)
  {
  }

  /** A question asked since is asked by no step. */
  lemma AskingIsDriven(c: Call, x: History, y: History)
    requires Later(x, y) && OwnSteps(x, y) == []
    ensures Drove(c, x, y)
  {
  }

  /** One more step, resting on what was asked since `x`. */
  lemma StepIsDriven(c: Call, x: History, y: History, s: Step, script: Script)
    requires Drove(c, x, y) && Truthful(y, script)
    requires Grounded(c, s, Run(y.start, y.trace), New(x, y), |y.trace|)
    ensures Drove(c, x, Stepping(y, s)) && New(x, Stepping(y, s)) == New(x, y)
  {
    hide Grounded;
    var z := Stepping(y, s);
    SteppingIsLater(y, s, script);
    LaterOnce(x, y, z);
    LaterKeepsLog(x, y);
    forall p | p in OwnSteps(x, z)
      ensures RestsOn(c, z, New(x, z), p)
    {
      if p in OwnSteps(x, y) {
        RestsStay(c, y, z, New(x, y), New(x, z), p);
      } else {
        assert z.trace[..p] == y.trace;
      }
    }
  }

  lemma DroveThenSilent(c: Call, x: History, y: History, z: History)
    requires Drove(c, x, y) && Drove(c, y, z) && Silent(y, z)
    ensures Drove(c, x, z) && New(x, z) == New(x, y)
  {
    DroveOnce(c, x, y, z);
    SilentIsLater(y, z);
  }

  lemma SilentThenDrove(c: Call, x: History, y: History, z: History)
    requires Drove(c, x, y) && Silent(x, y) && Drove(c, y, z)
    ensures Drove(c, x, z) && New(x, z) == New(y, z)
  {
    DroveOnce(c, x, y, z);
    SilentIsLater(x, y);
  }

  lemma DroveThenQuiet(c: Call, x: History, y: History, z: History)
    requires Drove(c, x, y) && Quiet(y, z)
    ensures Drove(c, x, z) && New(x, z) == New(x, y)
  {
    QuietIsDriven(c, y, z);
    QuietIsSilent(y, z);
    DroveThenSilent(c, x, y, z);
  }

  lemma NothingDriven(c: Call, x: History)
    ensures Drove(c, x, x) && Silent(x, x) && New(x, x) == []
  {
  }

  /** The grounds of a move stand while others act on the row. */
  lemma MayMoveStays(c: Call, id: Id, row: Row, row': Row, m: Move, es: seq<Entry>, p: nat, p': nat)
    requires RowRely(row, row') && p <= p' && (Early(m) || row.status != Pending)
    requires MayMove(c, id, row, m, es, p)
    ensures MayMove(c, id, row', m, es, p')
  {
    if row.status == Pending && !Unasked(c, row, m) {
      var e :| e in es && e.at <= p && Shows(c, id, row, m, e);
      assert Shows(c, id, row', m, e);
    }
  }

  lemma MoveIsGrounded(c: Call, id: Id, m: Move, w: World, es: seq<Entry>, p: nat)
    requires Mine(w.db, id, c.run, c.stepId) && MayMove(c, id, w.db.rows[id], m, es, p)
    ensures Grounded(c, Make(id, m), w, es, p)
  {
  }

  lemma NoteIsGrounded(c: Call, s: Step, w: World, es: seq<Entry>, p: nat)
    requires s.Asked? || s.Mint? || (s.MintUndo? && Undoes(c, s.digest))
             || (s.Send? && s.capability == c.capability.id && s.params == c.params)
             || (s.Send? && Undoes(c, CallDigest(s.capability, s.params)))
    requires Mine(w.db, s.id, c.run, c.stepId)
    ensures Grounded(c, s, w, es, p)
  {
    hide Undoes;
  }

  lemma OpeningIsGrounded(c: Call, id: Id, number: string, w: World, es: seq<Entry>, p: nat, e: Entry)
    requires Mine(w.db, id, c.run, c.stepId) && e in es && e.at <= p
    requires e.asked == ChangeRecord && e.answer.number == Some(number)
    ensures Grounded(c, Opened(id, number), w, es, p)
  {
  }

  lemma AuthorisationIsGrounded(c: Call, id: Id, local: bool, w: World, es: seq<Entry>, p: nat, e: Entry)
    requires Mine(w.db, id, c.run, c.stepId) && e in es && e.at <= p
    requires e.asked == Start && e.world == w && e.answer.yes == local
    ensures Grounded(c, Authorise(id, local), w, es, p)
  {
  }

  lemma QuietThenAsked(c: Call, x: History, y: History, z: History)
    requires Quiet(x, y) && Later(y, z) && OwnSteps(y, z) == []
    ensures Drove(c, x, z) && New(x, z) == New(y, z)
  {
    QuietIsDriven(c, x, y);
    AskingIsDriven(c, y, z);
    DroveOnce(c, x, y, z);
  }

  lemma SilentDrive(c: Call, x: History, y: History, z: History)
    requires Drove(c, x, y) && New(x, y) == [] && Drove(c, y, z)
    ensures Drove(c, x, z) && New(x, z) == New(y, z)
  {
    DroveOnce(c, x, y, z);
  }

  lemma NoneDeclared(c: Call, id: Id, row: Row, es: seq<Entry>, p: nat)
    requires c.capability.rollback.None?
    ensures MayMove(c, id, row, NoRollback, es, p)
  {
  }

  lemma ExpiryShows(c: Call, id: Id, row: Row, e: Entry)
    requires e.asked == Clock && row.expiresAt.Some? && row.expiresAt.value <= e.world.db.now
    ensures Shows(c, id, row, Expire, e)
  {
  }

  lemma SentShows(c: Call, id: Id, row: Row, e: Entry)
    requires e.asked.Sent? && !e.asked.rollback && Heard(e) == Done
    ensures Shows(c, id, row, MarkExecuted, e)
  {
  }

  lemma RefusalShows(c: Call, id: Id, row: Row, es: seq<Entry>, why: Authorisation)
    requires Authorising(id, es, why) && !why.Started?
    ensures es != [] && Shows(c, id, row, MoveFor(why), es[0])
  {
  }

  /** The last read of a verification shows the result, or that it is not shown. */
  lemma LastLookShows(c: Call, id: Id, row: Row, es: seq<Entry>, shown: bool)
    requires Looked(c, es, shown)
    ensures es != [] && Shows(c, id, row, if shown then MarkVerified else Lost, es[|es| - 1])
  {
  }

  /** The entry that says no to an action that waits. */
  lemma PreparedShows(c: Call, id: Id, row: Row, es: seq<Entry>, move: Move) returns (e: Entry)
    requires Prepared(c, row, es, Some(move))
    ensures e in es && Shows(c, id, row, move, e)
  {
    hide SwitchesOn, AuthoriseExecution, ExpressionEval.Holds;
    e := es[|es| - 1];
    if !On(es[0]) && !PastDeadline(row, es[1].world.db.now) {
      var rest := es[2..];
      if Checked(c, rest, false) {
        assert CheckFailed(c, |rest| - 1, rest[|rest| - 1]);
      }
    }
  }

  lemma VerifyingLooks(c: Call, es: seq<Entry>, n: nat, interrupted: bool, status: Status)
    requires VerifiedAs(c, es, n, interrupted, status)
    ensures es != []
  {
  }

  /** What was asked after a step came after it. */
  lemma RecordedBefore(c: Call, id: Id, x: History, y: History, z: History, p: nat, sent: Entry)
    requires Drove(c, x, y) && Drove(c, y, z) && New(x, y) == [sent] && New(y, z) != []
    requires sent.at <= p < |y.trace| && p in y.own && Records(y, id, p)
    ensures New(x, z) == [sent] + New(y, z) && RecordedFirst(z, id, sent, New(y, z)[0])
  {
    DroveOnce(c, x, y, z);
    var look := New(y, z)[0];
    assert look == z.log[|y.log|] && |y.trace| <= look.at;
    assert z.trace[..p] == y.trace[..p] && z.trace[p] == y.trace[p];
    assert p in z.own;
    assert Records(z, id, p);
  }

  lemma InterruptedStands(c: Call, id: Id, row: Row, es: seq<Entry>, p: nat)
    requires row.status == RollingBack
    ensures MayMove(c, id, row, Interrupted, es, p)
  {
  }

  lemma MismatchStands(c: Call, id: Id, row: Row, es: seq<Entry>, p: nat)
    requires row.what.actionHash != c.Wanted()
    ensures MayMove(c, id, row, Invalidate, es, p)
  {
  }

  lemma RecordIsGrounded(c: Call, id: Id, d: Draft, w: World, es: seq<Entry>, p: nat)
    requires d.run == c.run && d.stepId == c.stepId && d.Hash() == c.Wanted()
    ensures Grounded(c, Record(id, d), w, es, p)
  {
  }

  lemma StillWaits(c: Call, id: Id, was: Row, h: History, es: seq<Entry>, w: Wait, status: Status)
    requires Waits(was) && WaitedAs(was, es, w) && w.at.Some?
    ensures ContinuedAs(c, id, was, h, es, Suspended(w), status)
  {
    hide WaitedAs;
  }

  /** A wait and then what was carried on from the row it ended with. */
  lemma WaitedThenCarried(
      c: Call, id: Id, was: Row, h: History, waited: seq<Entry>, es: seq<Entry>, w: Wait, x: Course, status: Status)
    returns (y: Course)
    requires Waits(was) && WaitedAs(was, waited, w) && w.at.None?
    requires w.row.status in WAITING || Final(w.row.status)
    requires CarriedAs(c, id, w.row, h, es, x, status) && (x.Acts? ==> x.k == 0)
    ensures ContinuedAs(c, id, was, h, waited + es, y, status) && !y.Suspended?
  {
    hide WaitedAs, ActedAs, VerifiedAs;
    var all := waited + es;
    match x
    case Acts(_, _, n, m, move) =>
      y := Acts(w, |waited|, n, m, move);
      assert all[..|waited|] == waited && all[|waited|..] == es && es[0..] == es;
    case Rests =>
      y := Ended(w);
      assert all == waited;
    case Resumes(_) => assert false;
  }

  lemma CarriedFromThere(c: Call, id: Id, was: Row, h: History, es: seq<Entry>, x: Course, status: Status)
    requires !Waits(was) && CarriedAs(c, id, was, h, es, x, status)
    ensures ContinuedAs(c, id, was, h, es, x, status) && !x.Suspended?
  {
    hide ActedAs, VerifiedAs;
  }

  lemma PerformedFromThere(
      c: Call, s: Surroundings, id: Id, was: Option<Row>, row: Row, h: History,
      found: seq<Entry>, es: seq<Entry>, x: Course, status: Status)
    requires was.None? ==> DecidedNow(c, s, found, row)
    requires was.Some? ==> found == [] && FoundAs(c, was.value, row)
    requires ContinuedAs(c, id, row, h, es, x, status)
    ensures PerformedAs(c, s, id, was, row, h, found + es, x, status)
  {
    hide ContinuedAs, DecisionRow, DraftFrom;
    var all := found + es;
    if was.None? {
      assert all[..4] == found && all[4..] == es;
    } else {
      assert all == es;
    }
  }

  lemma FailedRollbackShows(c: Call, id: Id, row: Row, e: Entry)
    requires e.asked == Switches && On(e)
    ensures Shows(c, id, row, MarkRollbackFailed, e)
  {
  }

  lemma SentRollbackShows(c: Call, id: Id, row: Row, e: Entry, g: nat, capability: string, params: Params)
    requires WasSent(e, g, capability, params, true)
    ensures Shows(c, id, row, if Heard(e) == Done then MarkRolledBack else MarkRollbackFailed, e)
  {
  }

  /** Everything asked so far was asked before the next step. */
  lemma AskedBefore(x: History, y: History, script: Script, e: Entry)
    requires Truthful(y, script) && Later(x, y) && e in New(x, y)
    ensures e.at <= |y.trace|
  {
    NewEntriesAreOfTheTrace(x, y, script, e);
  }

  // ── What one call may have done ───────────────────────────────────────

  /** Every pre-check the capability declares was read and held. */
  ghost predicate ChecksHeld(c: Call, es: seq<Entry>) {
    forall k: nat | k < |c.capability.preChecks| :: HeldIn(c, k, es)
  }

  ghost predicate HeldIn(c: Call, k: nat, es: seq<Entry>)
    requires k < |c.capability.preChecks|
  {
    exists e | e in es :: CheckHeld(c, k, e)
  }

  ghost predicate SawResult(c: Call, es: seq<Entry>) {
    exists e | e in es :: ShowsResult(c, e)
  }

  /** One driver call: no late compare-and-set misses, at most one grant of each kind, and no write without a grant. */
  predicate Restrained(before: Tally, after: Tally) {
    && after.missed == before.missed
    && before.mints <= after.mints <= before.mints + 1
    && before.undos <= after.undos <= before.undos + 1
    && before.sends <= after.sends <= before.sends + after.mints - before.mints
    && (after.made - before.made) + (after.refused - before.refused) + (after.lost - before.lost)
       == after.mints - before.mints
    && before.made <= after.made && before.refused <= after.refused && before.lost <= after.lost
  }

  /**
   What was heard of the write decides what follows. Not heard of: it is looked for, and never undone.
   Not made: whatever was declared undoes it. Made: it was accepted, and is verified, or undone as
   declared.
   */
  predicate Followed(c: Call, row: Row, before: Tally, after: Tally) {
    && (after.lost > before.lost ==> after.undos == before.undos && SeenOrUnknown(row))
    && (after.refused > before.refused ==> row.status in NotVerified(c))
    && (after.made > before.made ==>
          after.sends > before.sends && (row.status == Verified || row.status in NotVerified(c)))
  }

  /**
   A call that finds a row: a started or finished write is never sent again; a rollback is made
   only for a write known to have been accepted; an interrupted rollback ends failed-unknown; and a
   finished action is left exactly as it was.
   */
  predicate Resumed(was: Row, row: Row, before: Tally, after: Tally) {
    && (Begun(was.status) || Final(was.status) ==> after.mints == before.mints)
    && ((Begun(was.status) && was.status != Executed) || Final(was.status) ==> after.undos == before.undos)
    && (Final(was.status) ==> after == before && row == was)
    && (was.status == Executing ==> SeenOrUnknown(row))
    && (was.status == RollingBack ==> row.status == Failed && row.result == Some(Outcome(true)))
  }

  /** An action that waits may be carried out or not: nothing was begun that must not be repeated. */
  lemma WaitingActionsMayBegin(was: Row, row: Row, before: Tally, after: Tally)
    requires was.status == Pending || was.status in WAITING
    ensures Resumed(was, row, before, after)
  {
  }

  lemma NotMintedTwice(was: Row, row: Row, before: Tally, after: Tally)
    requires Resumed(was, row, before, after)
    ensures Begun(was.status) || Final(was.status) ==> after.mints == before.mints
  {
  }

  lemma NothingCounted(t: Tally)
    ensures Restrained(t, t)
  {
  }

  lemma CommitsAreHarmless(c: Call, row: Row, before: Tally, after: Tally)
    requires after == before.(commits := after.commits)
    ensures Restrained(before, after) && Followed(c, row, before, after)
  {
  }

  lemma AfterCommitsTheSame(c: Call, row: Row, first: Tally, mid: Tally, last: Tally)
    requires mid == first.(commits := mid.commits) && Restrained(mid, last) && Followed(c, row, mid, last)
    ensures Restrained(first, last) && Followed(c, row, first, last)
  {
  }

  /**
   The step waits on a row that was read as pending, its change opened and its approval asked for, at a time
   before it expires, and that is at most decided since.
   */
  predicate StillWaiting(r: StepResult, id: Id, db: Db)
    requires id in db.rows
  {
    && r.Waiting? && r.id == id
    && r.seen.status == Pending && r.seen.expiresAt.Some? && r.seen.requestedAt.Some? && r.seen.change != ""
    && r.at < r.seen.expiresAt.value && r.at <= db.now
    && RowRely(r.seen, db.rows[id])
  }

  /** The row was read as pending at a time before it expires, and is at most decided since. */
  ghost predicate StillPending(row: Row, at: Time, es: seq<Entry>, db: Db, id: Id)
    requires id in db.rows
  {
    && row.status == Pending && row.expiresAt.Some? && at < row.expiresAt.value
    && row.requestedAt.Some? && row.change != ""
    && ReadClockAt(es, at) && at <= db.now && RowRely(row, db.rows[id]) && !Begun(db.rows[id].status)
  }

  lemma StaysPending(row: Row, at: Time, before: seq<Entry>, es: seq<Entry>, db: Db, id: Id)
    requires id in db.rows && StillPending(row, at, es, db, id)
    ensures StillPending(row, at, before + es, db, id)
  {
    hide RowRely;
    ClockStaysRead(before, es);
  }

  lemma AskedThenSeen(ready: Row, asking: seq<Entry>, seeing: seq<Entry>, w: Wait)
    requires RequestedAs(ready, asking, w.requested) && SeenAs(w.requested, seeing, w.row, w.at)
    ensures AskedAs(ready, asking + seeing, w)
  {
    assert (asking + seeing)[..|asking|] == asking && (asking + seeing)[|asking|..] == seeing;
  }

  lemma WaitingRowsStay(row: Row, row': Row)
    requires RowRely(row, row') && NotBegun(row)
    ensures row'.what == row.what && row'.change == row.change
    ensures NotBegun(row')
  {
  }

  ghost predicate ReadClockAt(es: seq<Entry>, at: Time) {
    exists e | e in es :: e.asked == Clock && e.world.db.now == at
  }

  lemma ClockWasRead(es: seq<Entry>, at: Time)
    requires |es| == 1 && es[0].asked == Clock && es[0].world.db.now == at
    ensures ReadClockAt(es, at)
  {
    assert es[0] in es;
  }

  lemma ClockStaysRead(before: seq<Entry>, es: seq<Entry>)
    ensures forall at :: ReadClockAt(es, at) ==> ReadClockAt(before + es, at)
  {
    assert forall e | e in es :: e in before + es;
  }

  /** The target showed the result, or nobody knows whether the write happened. */
  predicate SeenOrUnknown(row: Row) {
    row.status == Verified || (row.status == Failed && row.result == Some(Outcome(true)))
  }

  /** The tally hears of exactly one write. */
  predicate OneHeard(before: Tally, after: Tally) {
    && (after.made - before.made) + (after.refused - before.refused) + (after.lost - before.lost) == 1
    && before.made <= after.made && before.refused <= after.refused && before.lost <= after.lost
  }

  lemma NothingToUndo(c: Call)
    requires c.capability.rollback.None?
    ensures Undoing(c, [], Failed)
  {
  }

  lemma RollbackIsHeld(c: Call, es: seq<Entry>)
    requires c.capability.rollback.Some? && |es| == 1 && es[0].asked == Switches && On(es[0])
    ensures Undoing(c, es, RollbackFailed)
  {
  }

  lemma RollbackIsSent(c: Call, es: seq<Entry>, undo: Reading, g: nat)
    requires c.capability.rollback == Some(undo) && |es| == 2 && es[0].asked == Switches && !On(es[0])
    requires WasSent(es[1], g, undo.capability, ReadParameters(c.params, undo), true)
    ensures Undoing(c, es, if Heard(es[1]) == Done then RolledBack else RollbackFailed)
  {
  }

  lemma UndoingEnds(c: Call, es: seq<Entry>, status: Status)
    requires Undoing(c, es, status)
    ensures status in NotVerified(c) && Begun(status) && status != Verified
  {
  }

  lemma MoreEntries(c: Call, es: seq<Entry>, all: seq<Entry>)
    requires forall e | e in es :: e in all
    ensures ChecksHeld(c, es) ==> ChecksHeld(c, all)
    ensures SawResult(c, es) ==> SawResult(c, all)
  {
    if ChecksHeld(c, es) {
      forall k: nat | k < |c.capability.preChecks|
        ensures HeldIn(c, k, all)
      {
        assert HeldIn(c, k, es);
        var e :| e in es && CheckHeld(c, k, e);
        assert e in all;
      }
    }
  }

  /** A prepared action had every pre-check read and held. */
  lemma PreparedMeansChecked(c: Call, row: Row, es: seq<Entry>)
    requires Prepared(c, row, es, None)
    ensures ChecksHeld(c, es)
  {
    hide CheckHeld, CheckFailed;
    var rest := es[2..];
    var checks := if c.capability.dryRun then rest[..|rest| - 1] else rest;
    assert Checked(c, checks, true);
    forall k: nat | k < |c.capability.preChecks|
      ensures HeldIn(c, k, es)
    {
      assert checks[k] == es[2 + k] && CheckHeld(c, k, es[2 + k]);
    }
  }

  lemma LookedMeansSaw(c: Call, es: seq<Entry>)
    requires Looked(c, es, true)
    ensures SawResult(c, es)
  {
    assert es[|es| - 1] in es;
  }

  lemma VerifiedMeansSaw(c: Call, es: seq<Entry>, n: nat, interrupted: bool, status: Status)
    requires VerifiedAs(c, es, n, interrupted, status) && status == Verified
    ensures SawResult(c, es)
  {
    LookedMeansSaw(c, es[..n]);
    MoreEntries(c, es[..n], es);
  }

  lemma SentMeansSaw(c: Call, id: Id, h: History, es: seq<Entry>, n: nat, status: Status)
    requires SentAs(c, id, h, es, n, status) && status == Verified
    ensures SawResult(c, es)
  {
    hide VerifiedAs;
    if Heard(es[0]) == NotMade {
      UndoingEnds(c, es[1..], status);
    } else {
      VerifiedMeansSaw(c, es[1..], n, Heard(es[0]) == OutcomeUnknown, status);
      MoreEntries(c, es[1..], es);
    }
  }

  /** A write that was authorised had every pre-check read and held, and is verified only on a read that shows it. */
  lemma ActedMeansCheckedAndSaw(
      c: Call, id: Id, row: Row, h: History, es: seq<Entry>, n: nat, m: nat, move: Option<Move>, status: Status)
    requires ActedAs(c, id, row, h, es, n, m, move, status)
    ensures Begun(status) ==> ChecksHeld(c, es)
    ensures status == Verified ==> SawResult(c, es)
  {
    hide SentAs, AuthoriseExecution, ChecksHeld, SawResult, CheckedAndRehearsed;
    if move.None? {
      PreparedMeansChecked(c, row, es[..n]);
      MoreEntries(c, es[..n], es);
      if status == Verified {
        var rest := es[n..];
        SentMeansSaw(c, id, h, rest[1..], m, status);
        MoreEntries(c, rest[1..], rest);
        MoreEntries(c, rest, es);
      }
    } else {
      PreparedEnds(c, row, es[..n], move.value);
    }
  }

  lemma PreparedEnds(c: Call, row: Row, es: seq<Entry>, move: Move)
    requires Prepared(c, row, es, Some(move))
    ensures move == Abort || move == TooLate || move == GiveUp
  {
  }
}
