/**
 What each transaction, each grant and each result of the action pipeline comes to, said in the
 columns of the table alone.
 */
module ActionColumns {
  import opened Wrappers
  import opened Policy
  import opened ActionTable
  import opened ActionRuns
  import opened ActionSafety
  import opened ActionHistory
  import opened ActionCall
  import opened ActionSweep

  // ── The table ─────────────────────────────────────────────────────────

  /** A row is written exactly when each constraint, column by column, lets it in; and nothing else is written. */
  lemma PutWritesExactlyWhen(db: Db, id: Id, row: Row)
    requires Legal(db.rows)
    ensures Put(db, id, row).Ok? <==>
              var a := row.what;
              && a.tier in {T1, T2}
              && (row.verdict == Allow ==> a.tier == T1)
              && (row.status == Approved ==> row.approver.Some? && row.approvedHash == Some(a.actionHash))
              && (a.tier == T2 && row.approver.Some? ==> row.approver.value != a.author)
              && (row.startedAt.Some? && row.verdict != Allow ==>
                    row.verdict == RequireApproval && row.approver.Some? && row.approvedHash == Some(a.actionHash))
              && forall j | j in db.rows && j != id ::
                   var other := db.rows[j];
                   && (other.what.run != a.run || other.what.stepId != a.stepId)
                   && (row.startedAt.None? || other.startedAt.None?
                       || other.what.incident != a.incident || other.what.callDigest != a.callDigest)
    ensures Put(db, id, row).Ok? ==> Put(db, id, row).value == db.(rows := db.rows[id := row])
  {
    PutSucceedsExactlyWhen(db, id, row);
    hide Legal;
  }

  /**
   The row of a decision: what was decided on and by what it is recognised, the verdict and what follows
   from it, and how long it stands. Nothing has been approved, asked for, started or found out yet.
   */
  lemma DecisionColumns(d: Draft, incident: nat, created: Time)
    ensures var row := DecisionRow(d, incident, created);
            var ruling := Evaluate(d.covers, d.request, d.situation);
            var now, rules := d.request.now, d.situation.rules;
            && row.what.run == d.run && row.what.stepId == d.stepId && row.what.incident == incident
            && row.what.author == d.author && row.what.capability == d.request.capability && row.what.params == d.params
            && row.what.callDigest == CallDigest(d.request.capability, d.params)
            && row.what.actionHash ==
                 ActionHash(d.tenant, d.sysId, d.request.sopId, d.request.sopHash, d.request.capability, d.params)
            && row.what.tier == (if ruling.tier == None then T2 else ruling.tier.value)
            && row.what.ruledAt == now && row.what.createdAt == created
            && row.verdict == ruling.verdict && row.reason == ruling.reason
            && (row.status == Denied <==> ruling.verdict == Deny)
            && (row.status == Shadowed <==> ruling.verdict == ShadowOnly)
            && (row.status == Recommended <==> ruling.verdict == RecommendOnly)
            && (row.status == Pending <==> ruling.verdict == RequireApproval)
            && (row.status == Allowed <==> ruling.verdict == Allow)
            && (row.viaServiceNow <==> ruling.verdict == RequireApproval && rules.viaServiceNow)
            && row.expiresAt == (if ruling.verdict == RequireApproval then Some(now + 60 * rules.approvalTtl) else None)
            && row.validUntil == (if ruling.verdict == Allow then Some(now + 60 * rules.executeWithin) else None)
            && row.completedAt == (if ruling.verdict in {RequireApproval, Allow} then None else Some(now))
            && row.change == "" && row.requestedAt.None? && row.approver.None? && row.approvedHash.None?
            && row.decidedAt.None? && row.startedAt.None? && row.result.None?
  {
    hide Policy.Evaluate;
  }

  /** Which of the reads each part of a decision comes from: the policy, the executions, the clock, the switches. */
  lemma DraftColumns(c: Call, s: Surroundings, es: seq<Entry>)
    requires ReadForDecision(es)
    ensures var d := DraftFrom(c, s, es);
            var stored, executions, clock, switches := es[0].world.db, es[1].world.db, es[2].world.db, es[3].world.db;
            var policy := ReadPolicy(stored.policy);
            && d.tenant == c.tenant && d.run == c.run && d.stepId == c.stepId && d.sysId == c.sysId
            && d.author == s.author && d.params == c.params && d.covers == s.covers
            && d.request.sopId == c.sop && d.request.sopHash == c.sopHash
            && d.request.capability == c.capability.id && d.request.isDeclaredWrite == c.capability.isWrite
            && d.request.baseTier == Some(c.capability.tier) && d.request.targets == c.capability.targets
            && d.request.now == clock.now
            && d.situation.autonomy == policy.autonomy && d.situation.rules == policy.rules
            && d.situation.maxTier == s.maxTier && d.situation.maxAutonomy == s.maxAutonomy
            && d.situation.refusals == s.refusals
            && d.situation.recentActions == RecentExecutions(executions, policy.rules.rateMinutes)
            && (d.situation.killSwitches == {} <==>
                  && !switches.globalSwitch && !es[3].answer.yes
                  && (switches.policy.Some? ==> !switches.policy.value.killSwitch))
  {
    SwitchesOnExactlyWhen(es[3].world.db, es[3].answer.yes);
    hide SwitchesOn, RecentExecutions, ReadPolicy;
  }

  /** What the rate limit counts: the rows started no longer ago than the window. */
  lemma RecentExecutionsCount(db: Db, minutes: nat, recent: set<Id>)
    requires forall id :: id in recent <==>
               id in db.rows && db.rows[id].startedAt.Some? && db.now <= db.rows[id].startedAt.value + 60 * minutes
    ensures RecentExecutions(db, minutes) == |recent|
  {
    assert recent == set id | id in db.rows && db.rows[id].startedAt.Some?
                              && db.rows[id].startedAt.value >= db.now - MINUTE * minutes;
  }

  /** From which statuses each move leads, and to which. */
  lemma MovesLead(m: Move)
    ensures var waiting, running := {Approved, Allowed}, {Executing, Executed, RollingBack};
            match m
            case Invalidate => m.From() == waiting + {Pending} && m.To() == Invalid
            case ChangeDenied => m.From() == waiting + {Pending} && m.To() == Denied
            case Expire => m.From() == {Pending} && m.To() == Expired
            case NotAccepted => m.From() == {Pending} && m.To() == Invalid
            case Abort => m.From() == waiting && m.To() == Aborted
            case TooLate => m.From() == waiting && m.To() == Invalid
            case GiveUp => m.From() == waiting && m.To() == NotDone
            case MarkExecuted => m.From() == {Executing} && m.To() == Executed
            case MarkVerified => m.From() == running - {RollingBack} && m.To() == Verified
            case Lost => m.From() == {Executing} && m.To() == Failed
            case NoRollback => m.From() == running && m.To() == Failed
            case StartRollback => m.From() == running - {RollingBack} && m.To() == RollingBack
            case MarkRolledBack => m.From() == running && m.To() == RolledBack
            case MarkRollbackFailed => m.From() == running && m.To() == RollbackFailed
            case Interrupted => m.From() == {RollingBack} && m.To() == Failed
  {
  }

  /** A move is made exactly from its statuses, and writes the status, what became of it, and when it was over. */
  lemma MoveColumns(db: Db, id: Id, m: Move)
    requires TableInv(db)
    ensures if id !in db.rows || db.rows[id].status !in m.From() then TryMove(db, id, m) == NotMoved
            else
              var was := db.rows[id];
              var row := was.(
                status := m.To(),
                completedAt := if m.MarkExecuted? || m.StartRollback? then was.completedAt else Some(db.now),
                result := if m.StartRollback? then was.result else Some(Outcome(m.Lost? || m.Interrupted?)),
                verdict := if m.ChangeDenied? then Deny else was.verdict,
                reason := if m.ChangeDenied? then Reason.ChangeUnavailable else was.reason);
              TryMove(db, id, m) == Moved(db.(rows := db.rows[id := row]))
  {
    hide Legal, RowInv;
    MovesNeverViolate(db, id, m);
  }

  // ── Grants ────────────────────────────────────────────────────────────

  /** A grant for the write is minted once for each authorisation, for the call that was decided, for a minute. */
  lemma MintsExactlyWhen(w: World, id: Id)
    ensures var w' := Apply(w, Mint(id));
            if id in w.tickets && id in w.db.rows then
              && w'.tickets[id] == w.tickets[id] - 1
              && w' == w.(tickets := w'.tickets,
                          grants := w.grants + [Grant(id, false, w.db.rows[id].what.callDigest, w.db.now + 60)])
            else w' == w
  {
  }

  /** One for the rollback, once for each time the row began to be rolled back. */
  lemma MintsUndoExactlyWhen(w: World, id: Id, digest: CallDigest)
    ensures var w' := Apply(w, MintUndo(id, digest));
            if id in w.undo then
              && w'.undo[id] == w.undo[id] - 1
              && w' == w.(undo := w'.undo, grants := w.grants + [Grant(id, true, digest, w.db.now + 60)])
            else w' == w
  {
  }

  /** Only an authorisation that started the row earns a grant, and only a row that began to be rolled back one more. */
  lemma EarnsExactlyWhen(w: World, id: Id, local: bool, m: Move)
    ensures Apply(w, Authorise(id, local)).tickets ==
              if AuthoriseExecution(w.db, id, local).Started? then w.tickets + multiset{id} else w.tickets
    ensures Apply(w, Make(id, m)).undo ==
              if m == StartRollback && TryMove(w.db, id, m).Moved? then w.undo + multiset{id} else w.undo
    ensures Apply(w, Make(id, m)).tickets == w.tickets && Apply(w, Authorise(id, local)).undo == w.undo
  {
    hide AuthoriseExecution, Transition;
  }

  /** A call is let through only while no switch is on: the platform's, the tenant's, the installation's. */
  lemma LetsThroughExactlyWhen(w: World, g: nat, local: bool)
    ensures var on := w.db.globalSwitch || local || (w.db.policy.Some? && w.db.policy.value.killSwitch);
            Apply(w, Clear(g, local)) == if g < |w.grants| && !on then w.(cleared := w.cleared + {g}) else w
  {
    SwitchesOnExactlyWhen(w.db, local);
    hide SwitchesOn;
  }

  /** The connector accepts a write exactly under a grant for this call that was let through, is in time and unused. */
  lemma AcceptsExactlyWhen(w: World, id: Id, g: nat, capability: string, params: Params, local: bool)
    ensures Apply(w, Send(id, g, capability, params, local)) ==
              if && !local && g < |w.grants| && g in w.cleared && w.grants[g].action == id
                 && w.grants[g].digest == CallDigest(capability, params)
                 && w.db.now < w.grants[g].expires
                 && forall write | write in w.writes :: write.grant != g
              then w.(writes := w.writes + [Write(g, capability, params, w.db.now)])
              else w
  {
  }

  // ── What a call ends with ─────────────────────────────────────────────

  /** A write that was not accepted is heard of as not made, or not at all. */
  lemma HeardExactlyWhen(e: Entry)
    requires e.asked.Sent?
    ensures Heard(e) == Done <==> e.answer.written == Done && e.asked.accepted
    ensures Heard(e) == OutcomeUnknown <==> e.answer.written == OutcomeUnknown
  {
  }

  /** How an action that was approved or allowed ends when it is not begun. */
  lemma EndsUnbegun(
      c: Call, id: Id, row: Row, h: History, es: seq<Entry>, n: nat, m: nat, move: Option<Move>, status: Status)
    requires ActedAs(c, id, row, h, es, n, m, move, status)
    ensures es != [] && es[0].asked == Switches
    ensures var db := es[0].world.db;
            if db.globalSwitch || es[0].answer.yes || (db.policy.Some? && db.policy.value.killSwitch)
            then |es| == 1 && status == Aborted
            else
              && |es| >= 2 && es[1].asked == Clock
              && (row.validUntil.None? || row.validUntil.value <= es[1].world.db.now ==> |es| == 2 && status == Invalid)
    ensures move == Some(GiveUp) ==> status == NotDone
    ensures move.None? ==>
              && n < |es| && es[n].asked == Start
              && var db := es[n].world.db;
                 if db.globalSwitch || es[n].answer.yes || (db.policy.Some? && db.policy.value.killSwitch)
                 then |es| == n + 1 && status == Aborted
                 else if id !in db.rows || db.rows[id].status !in {Approved, Allowed}
                         || db.rows[id].validUntil.None? || db.rows[id].validUntil.value <= db.now
                 then |es| == n + 1 && status == Invalid
                 else !AuthoriseExecution(db, id, es[n].answer.yes).Started? ==> |es| == n + 1 && status == NotDone
  {
    hide SentAs, CheckedAndRehearsed, SwitchesOn;
    if move.None? {
      assert es[n..][0] == es[n];
      SwitchesOnExactlyWhen(es[n].world.db, es[n].answer.yes);
    }
  }

  /** A declared rollback is sent exactly while none of the three switches is on; otherwise nothing is sent. */
  lemma UndoneExactlyWhen(c: Call, es: seq<Entry>, status: Status)
    requires Undoing(c, es, status)
    ensures c.capability.rollback.None? ==> es == [] && status == Failed
    ensures c.capability.rollback.Some? ==>
              && es != [] && es[0].asked == Switches
              && var db := es[0].world.db;
                 if db.globalSwitch || es[0].answer.yes || (db.policy.Some? && db.policy.value.killSwitch)
                 then |es| == 1 && status == RollbackFailed
                 else
                   && |es| == 2 && es[1].asked.Sent? && es[1].asked.rollback
                   && status == if es[1].answer.written == Done && es[1].asked.accepted
                                then RolledBack else RollbackFailed
  {
    hide ReadParameters;
  }

  /** The status the row was found in decides which course a call takes. */
  lemma CourseFollowsTheStatus(c: Call, id: Id, was: Row, h: History, es: seq<Entry>, x: Course, status: Status)
    requires ContinuedAs(c, id, was, h, es, x, status)
    ensures x.Suspended? || x.Ended? || x.Acts? <==> was.status in {Pending, Approved, Allowed}
    ensures x.Resumes? <==> was.status in {Executing, Executed}
    ensures x.Rests? ==> es == [] && status == if was.status == RollingBack then Failed else was.status
  {
    hide WaitedAs, ActedAs, VerifiedAs;
  }

  /** The step status tells the record. */
  lemma StatusTellsTheRecord(row: Row)
    requires Final(row.status)
    ensures FinalResult(row).Some?
    ensures var status := FinalResult(row).value.0;
            var unknown := row.result.Some? && row.result.value.unknown;
            if row.status == Verified then status == Success
            else if row.status == Shadowed then status == Skip
            else if row.status == NotDone then status == Fail
            else if row.status == Failed && unknown then status == Error
            else status == Escalated
  {
  }

  /** The events say who let the action through and what came of it, or why it was not let through. */
  lemma EventsTellTheRecord(row: Row)
    requires Final(row.status)
    ensures FinalResult(row).Some?
    ensures var events, allowed := FinalResult(row).value.1, row.verdict == Allow;
            var unknown := row.result.Some? && row.result.value.unknown;
            if row.status in {Aborted, NotDone, Verified, Failed, RolledBack, RollbackFailed} then
              events == (if allowed then [PolicyAllowed] else [ApprovalRequired, ApprovalGranted]) +
                        if row.status == Aborted then [AbortRun]
                        else if row.status == NotDone then [ActionNotDone]
                        else if row.status == Verified then [ActionVerified]
                        else if row.status == Failed && unknown then [RunError]
                        else [ActionFailed, RollbackDone]
            else if row.status in {Rejected, Expired} || (row.status == Invalid && !allowed) then
              events == [ApprovalRequired, ApprovalRefused]
            else
              events == [if row.status == Shadowed then PolicyShadow
                         else if row.status == Recommended then PolicyRecommend
                         else if row.status == Denied && row.reason == KillSwitch then AbortRun
                         else PolicyDenied]
  {
  }

  // ── Answers from ServiceNow ───────────────────────────────────────────

  /** An answer decides only about this action and by name; a T2 approval, only when two known emails differ. */
  lemma AnswersDecideExactlyWhen(id: Id, row: Row, found: Found, author: string)
    ensures var same := found.correlation == Some(row.what.actionHash) && found.approver != "";
            var approves := found.state == Agreed;
            Applied(id, row, found, author) ==
              if !same then Make(id, NotAccepted)
              else if approves && row.what.tier == T2 && (author == "" || found.email == "" || author == found.email)
              then Make(id, NotAccepted)
              else Decided(id, "user:servicenow|" + found.approver, approves, Some(row.what.actionHash))
    ensures EmailIsRead(row, found) <==>
              && found.correlation == Some(row.what.actionHash) && found.approver != ""
              && found.state == Agreed && row.what.tier == T2
    ensures !EmailIsRead(row, found) ==> Applied(id, row, found, author) == Applied(id, row, found, "")
  {
  }

  /** A request is asked about while it is pending and in time, was put up in ServiceNow and has its change record. */
  lemma PollsExactlyWhen(seen: Db, id: Id)
    ensures Polls(seen, id) <==>
              && id in seen.rows
              && var row := seen.rows[id];
                 && row.status == Pending && row.viaServiceNow && row.change != ""
                 && (row.expiresAt.Some? ==> seen.now < row.expiresAt.value)
  {
  }
}
