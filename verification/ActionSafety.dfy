/** What holds in every interleaving of any number of workers, approvers, sweepers and switch changes. */
module ActionSafety {
  import opened Wrappers
  import opened Policy
  import opened ActionTable
  import opened ActionRuns

  lemma ReachableWorldsAreSound(w: World, steps: seq<Step>)
    requires Initial(w)
    ensures Inv(Run(w, steps))
  {
    EveryRunKeepsInv(w, steps);
  }

  // ── At most once ──────────────────────────────────────────────────────

  predicate Forward(w: World, g: nat) {
    g < |w.grants| && !w.grants[g].rollback && w.grants[g].action in w.db.rows
  }

  function IncidentOf(w: World, g: nat): nat
    requires Forward(w, g)
  {
    w.db.rows[w.grants[g].action].what.incident
  }

  /** At most one grant for a write is minted per incident and call, across all runs of the incident. */
  lemma OneGrantPerIncidentAndCall(w: World, steps: seq<Step>, g: nat, h: nat)
    requires Initial(w)
    requires g < h < |Run(w, steps).grants|
    requires !Run(w, steps).grants[g].rollback && !Run(w, steps).grants[h].rollback
    ensures Forward(Run(w, steps), g) && Forward(Run(w, steps), h)
    ensures IncidentOf(Run(w, steps), g) != IncidentOf(Run(w, steps), h)
            || Run(w, steps).grants[g].digest != Run(w, steps).grants[h].digest
  {
    ReachableWorldsAreSound(w, steps);
    var v := Run(w, steps);
    SoundGrantsDiffer(v, g, h);
  }

  lemma SoundGrantsDiffer(v: World, g: nat, h: nat)
    requires Inv(v) && g < h < |v.grants| && !v.grants[g].rollback && !v.grants[h].rollback
    ensures Forward(v, g) && Forward(v, h)
    ensures IncidentOf(v, g) != IncidentOf(v, h) || v.grants[g].digest != v.grants[h].digest
  {
    var a, b := v.grants[g], v.grants[h];
    assert a in v.grants && b in v.grants;
    assert Covered(v.db.rows, v.db.now, a) && Covered(v.db.rows, v.db.now, b);
    assert a.action != b.action;
    assert Compatible(v.db.rows[a.action], v.db.rows[b.action]);
  }

  /** And so at most one write is sent: no two accepted writes are the same call for the same incident. */
  lemma OneWritePerIncidentAndCall(w: World, steps: seq<Step>, j: nat, k: nat)
    requires Initial(w) && j < k < |Run(w, steps).writes|
    ensures var v := Run(w, steps);
            var g, h := v.writes[j].grant, v.writes[k].grant;
            && g < |v.grants| && h < |v.grants|
            && (!v.grants[g].rollback && !v.grants[h].rollback ==>
                  && Forward(v, g) && Forward(v, h)
                  && (|| IncidentOf(v, g) != IncidentOf(v, h)
                      || v.writes[j].capability != v.writes[k].capability
                      || v.writes[j].params != v.writes[k].params))
  {
    ReachableWorldsAreSound(w, steps);
    var v := Run(w, steps);
    var g, h := v.writes[j].grant, v.writes[k].grant;
    if !v.grants[g].rollback && !v.grants[h].rollback {
      SoundGrantsDiffer(v, if g < h then g else h, if g < h then h else g);
    }
  }

  /** At most one rollback grant per action. */
  lemma OneRollbackPerAction(w: World, steps: seq<Step>, g: nat, h: nat)
    requires Initial(w)
    requires g < h < |Run(w, steps).grants|
    requires Run(w, steps).grants[g].rollback && Run(w, steps).grants[h].rollback
    ensures Run(w, steps).grants[g].action != Run(w, steps).grants[h].action
  {
    ReachableWorldsAreSound(w, steps);
  }

  /** Every grant, for a write or for its rollback, is for an action whose execution was authorised and began. */
  lemma GrantsAreForAuthorisedActions(w: World, steps: seq<Step>, g: nat)
    requires Initial(w) && g < |Run(w, steps).grants|
    ensures var v := Run(w, steps);
            && v.grants[g].action in v.db.rows
            && var row := v.db.rows[v.grants[g].action];
               && row.startedAt.Some? && Authorised(row)
               && (v.grants[g].rollback ==> Undone(row.status))
  {
    ReachableWorldsAreSound(w, steps);
    var v := Run(w, steps);
    assert v.grants[g] in v.grants;
    assert Covered(v.db.rows, v.db.now, v.grants[g]);
    assert RowInv(v.db.rows[v.grants[g].action], v.db.now);
  }

  // ── A write is the action that was decided on ─────────────────────────

  /** The capability and parameters of an accepted write are those hashed into the row, and it was authorised. */
  predicate IsTheDecidedAction(w: World, k: nat)
    requires k < |w.writes| && Forward(w, w.writes[k].grant)
  {
    var row := w.db.rows[w.grants[w.writes[k].grant].action];
    && row.what.actionHash.capability == w.writes[k].capability
    && row.what.actionHash.params == w.writes[k].params
    && Authorised(row)
    && (row.verdict == RequireApproval ==>
          row.approver.Some? && row.approvedHash == Some(row.what.actionHash))
  }

  lemma WritesAreTheDecidedActions(w: World, steps: seq<Step>, k: nat)
    requires Initial(w) && k < |Run(w, steps).writes|
    ensures var v := Run(w, steps);
            && v.writes[k].grant < |v.grants|
            && (!v.grants[v.writes[k].grant].rollback ==>
                  Forward(v, v.writes[k].grant) && IsTheDecidedAction(v, k))
  {
    ReachableWorldsAreSound(w, steps);
    var v := Run(w, steps);
    var g := v.grants[v.writes[k].grant];
    assert g in v.grants;
    assert Covered(v.db.rows, v.db.now, g);
    assert RowInv(v.db.rows[g.action], v.db.now);
  }

  /** Execution starts only under an unattended T1 decision or an approval of exactly this action. */
  lemma StartedMeansAuthorised(w: World, steps: seq<Step>, id: Id)
    requires Initial(w) && id in Run(w, steps).db.rows
    ensures Run(w, steps).db.rows[id].startedAt.Some? ==> Authorised(Run(w, steps).db.rows[id])
    ensures Run(w, steps).db.rows[id].startedAt.Some? <==> Begun(Run(w, steps).db.rows[id].status)
    ensures Run(w, steps).db.rows[id].completedAt.Some? <==> Final(Run(w, steps).db.rows[id].status)
  {
    ReachableWorldsAreSound(w, steps);
    assert RowInv(Run(w, steps).db.rows[id], Run(w, steps).db.now);
  }

  // ── Which constraints can fire ────────────────────────────────────────

  /** When an authorisation fails on a constraint, it is once-per-incident, as its message says. */
  lemma AlreadyCarriedOutExactlyWhen(db: Db, id: Id, local: bool)
    requires TableInv(db)
    ensures AuthoriseExecution(db, id, local) == AlreadyCarriedOut <==>
              && SwitchesOn(db, local) == {}
              && id in db.rows && db.rows[id].status in WAITING
              && db.now < db.rows[id].validUntil.value
              && exists j | j in db.rows && j != id ::
                   && db.rows[j].startedAt.Some?
                   && db.rows[j].what.incident == db.rows[id].what.incident
                   && db.rows[j].what.callDigest == db.rows[id].what.callDigest
  {
    if id in db.rows {
      assert RowInv(db.rows[id], db.now);
      if db.rows[id].status in WAITING && db.now < db.rows[id].validUntil.value {
        var row := db.rows[id].(status := Executing, startedAt := Some(db.now));
        StartKeepsRow(db.rows[id], db.now);
        PutSucceedsExactlyWhen(db, id, row);
        forall j | j in db.rows && j != id
          ensures Compatible(row, db.rows[j]) <==> !SameWrite(row, db.rows[j])
        {
          assert Compatible(db.rows[id], db.rows[j]);
        }
      }
    }
  }

  lemma ReplacingKeepsLegal(db: Db, id: Id, row: Row)
    requires Legal(db.rows) && id in db.rows && Checks(row)
    requires row.what == db.rows[id].what && row.startedAt == db.rows[id].startedAt
    ensures Put(db, id, row).Ok?
  {
    forall j | j in db.rows && j != id
      ensures Compatible(row, db.rows[j])
    {
      assert Compatible(db.rows[id], db.rows[j]);
    }
    PutSucceedsExactlyWhen(db, id, row);
  }

  /** No compare-and-set the service makes ever trips a constraint. */
  lemma MovesNeverViolate(db: Db, id: Id, m: Move)
    requires TableInv(db)
    ensures Transition(db, id, m.From(), m.To(), m.Columns()) != Refused
    ensures Transition(db, id, m.From(), m.To(), m.Columns()).Moved? <==> id in db.rows && db.rows[id].status in m.From()
  {
    hide Legal;
    if id in db.rows && db.rows[id].status in m.From() {
      MoveKeepsRow(db.rows[id], m, db.now);
      ReplacingKeepsLegal(db, id, MovedRow(db.rows[id], m.To(), m.Columns(), db.now));
    }
  }

  /**
   An approval never trips a constraint. A rejection does exactly when the author of the SOP
   rejects their own T2 action: the check against the author is made only when approving, and the
   two-person constraint then refuses the row.
   */
  lemma DecisionViolatesExactlyWhen(db: Db, id: Id, actor: string, approve: bool, seen: Option<ActionHash>)
    requires TableInv(db)
    ensures Decide(db, id, actor, approve, seen) == Violation <==>
              && id in db.rows && db.rows[id].status == Pending
              && seen == Some(db.rows[id].what.actionHash)
              && db.now < db.rows[id].expiresAt.value
              && !approve
              && db.rows[id].what.tier == T2 && db.rows[id].what.author == actor
  {
    hide Legal;
    if id in db.rows && db.rows[id].status == Pending {
      var r := db.rows[id];
      assert RowInv(r, db.now);
      var within := ReadPolicy(db.policy).rules.executeWithin;
      var row := DecidedRow(r, actor, approve, within, db.now);
      ReplacingKeepsLegal(db, id, r.(status := Expired, completedAt := Some(db.now)));
      if Checks(row) {
        ReplacingKeepsLegal(db, id, row);
      } else {
        assert Legal(db.rows);
        PutSucceedsExactlyWhen(db, id, row);
      }
    }
  }

  // ── The life of one row ───────────────────────────────────────────────

  /** How many of the steps change the status of a row that is there. */
  function StatusChanges(w: World, id: Id, steps: seq<Step>): nat
    decreases |steps|
  {
    if steps == [] then 0
    else
      var next := Apply(w, steps[0]);
      (if id in w.db.rows && id in next.db.rows && w.db.rows[id].status != next.db.rows[id].status then 1 else 0)
      + StatusChanges(next, id, steps[1..])
  }

  /** A row changes status at most five times. */
  lemma {:induction false} AtMostFiveStatusChanges(w: World, id: Id, steps: seq<Step>)
    requires Inv(w)
    ensures StatusChanges(w, id, steps) <= if id in w.db.rows then 5 - StatusRank(w.db.rows[id].status) else 5
    decreases |steps|
  {
    hide Inv, Apply;
    if steps != [] {
      EveryStepKeepsInv(w, steps[0]);
      AtMostFiveStatusChanges(Apply(w, steps[0]), id, steps[1..]);
    }
  }

  /** Equal but for the notes a late worker may still make. */
  predicate SameButNotes(r: Row, s: Row) {
    s == r.(change := s.change, requestedAt := s.requestedAt)
  }

  lemma FinishedRowsStay(w: World, s: Step, id: Id)
    requires id in w.db.rows && Final(w.db.rows[id].status)
    ensures id in Apply(w, s).db.rows && SameButNotes(w.db.rows[id], Apply(w, s).db.rows[id])
  {
    hide Apply, After, MovedRow, DecidedRow;
    ApplyTable(w, s);
    StepOnRow(w.db, s, id);
  }

  /** A final status is final: no later step of anyone changes what the row says happened. */
  lemma {:induction false} FinalIsForever(w: World, steps: seq<Step>, id: Id)
    requires id in w.db.rows && Final(w.db.rows[id].status)
    ensures id in Run(w, steps).db.rows && SameButNotes(w.db.rows[id], Run(w, steps).db.rows[id])
    decreases |steps|
  {
    hide Apply;
    if steps != [] {
      FinishedRowsStay(w, steps[0], id);
      FinalIsForever(Apply(w, steps[0]), steps[1..], id);
    }
  }

  // ── How late a write can start ────────────────────────────────────────

  predicate RowTimed(r: Row, ttl: nat, within: nat) {
    && (r.verdict == Allow ==> r.decidedAt.None?)
    && (r.expiresAt.Some? ==> r.expiresAt.value <= r.what.ruledAt + MINUTE * ttl)
    && (r.decidedAt.Some? ==> r.expiresAt.Some? && r.decidedAt.value < r.expiresAt.value)
    && (r.validUntil.Some? ==>
          r.validUntil.value <= (if r.decidedAt.Some? then r.decidedAt.value else r.what.ruledAt) + MINUTE * within)
  }

  predicate TableTimed(db: Db, ttl: nat, within: nat) {
    && ReadPolicy(db.policy).rules.executeWithin <= within
    && forall id | id in db.rows :: RowTimed(db.rows[id], ttl, within)
  }

  /** Every policy in force gives approvals at most `ttl` minutes and executions at most `within`. */
  predicate PolicyBounded(s: Step, ttl: nat, within: nat) {
    match s
    case SetPolicy(p) => ReadPolicy(p).rules.executeWithin <= within
    case Record(_, d) => d.situation.rules.approvalTtl <= ttl && d.situation.rules.executeWithin <= within
    case _ => true
  }

  lemma RowStaysTimed(db: Db, s: Step, r: Row, r': Row, ttl: nat, within: nat)
    requires RowInv(r, db.now) && RowTimed(r, ttl, within) && Becomes(db, s, r, r')
    requires ReadPolicy(db.policy).rules.executeWithin <= within
    ensures RowTimed(r', ttl, within)
  {
    hide Checks;
  }

  lemma StepKeepsTimed(db: Db, s: Step, ttl: nat, within: nat)
    requires TableInv(db) && TableTimed(db, ttl, within) && PolicyBounded(s, ttl, within)
    ensures TableTimed(After(db, s), ttl, within)
  {
    hide After, Legal;
    StepSetsPolicy(db, s);
    var db' := After(db, s);
    forall id | id in db'.rows
      ensures RowTimed(db'.rows[id], ttl, within)
    {
      if id in db.rows {
        StepOnRow(db, s, id);
        assert RowInv(db.rows[id], db.now) && RowTimed(db.rows[id], ttl, within);
        RowStaysTimed(db, s, db.rows[id], db'.rows[id], ttl, within);
      } else {
        StepMakesRow(db, s, id);
      }
    }
  }

  lemma {:induction false} RunKeepsTimed(w: World, steps: seq<Step>, ttl: nat, within: nat)
    requires Inv(w) && TableTimed(w.db, ttl, within)
    requires forall s | s in steps :: PolicyBounded(s, ttl, within)
    ensures TableTimed(Run(w, steps).db, ttl, within)
    decreases |steps|
  {
    hide TableInv, HistoryInv, TableTimed, Apply, After;
    if steps != [] {
      EveryStepKeepsInv(w, steps[0]);
      ApplyTable(w, steps[0]);
      StepKeepsTimed(w.db, steps[0], ttl, within);
      RunKeepsTimed(Apply(w, steps[0]), steps[1..], ttl, within);
    }
  }

  /**
   No row records a start later than the approval time plus the execution time after its decision was
   made, or the execution time alone when policy allowed it, however steps interleave.
   */
  lemma StartIsBounded(w: World, steps: seq<Step>, ttl: nat, within: nat, id: Id)
    requires Initial(w) && ReadPolicy(w.db.policy).rules.executeWithin <= within
    requires forall s | s in steps :: PolicyBounded(s, ttl, within)
    requires id in Run(w, steps).db.rows && Run(w, steps).db.rows[id].startedAt.Some?
    ensures var r := Run(w, steps).db.rows[id];
            && r.startedAt.value < r.what.ruledAt + MINUTE * (ttl + within)
            && (r.verdict == Allow ==> r.startedAt.value < r.what.ruledAt + MINUTE * within)
  {
    hide Apply, After, Run;
    ReachableWorldsAreSound(w, steps);
    RunKeepsTimed(w, steps, ttl, within);
    var r := Run(w, steps).db.rows[id];
    assert RowInv(r, Run(w, steps).db.now) && RowTimed(r, ttl, within);
  }

  lemma {:induction false} GrantsStay(w: World, steps: seq<Step>)
    ensures w.grants <= Run(w, steps).grants
    decreases |steps|
  {
    hide Apply;
    if steps != [] {
      StepKeepsGrants(w, steps[0]);
      GrantsStay(Apply(w, steps[0]), steps[1..]);
    }
  }

  lemma StepKeepsGrants(w: World, s: Step)
    ensures w.grants <= Apply(w, s).grants
  {
    hide After, AuthoriseExecution, TryMove, Redeemable;
  }

  /**
   What bounds the write itself: it is accepted within the life of its grant. How long after the
   start its grant is made nothing bounds.
   */
  lemma WritesFollowTheirGrant(w: World, steps: seq<Step>, k: nat)
    requires Inv(w) && k < |Run(w, steps).writes| && Run(w, steps).writes[k].grant < |w.grants|
    ensures Run(w, steps).writes[k].sentAt < w.db.now + GRANT_SECONDS
  {
    hide TableInv, Apply;
    GrantsStay(w, steps);
    EveryRunKeepsInv(w, steps);
    var g := Run(w, steps).writes[k].grant;
    assert w.grants[g] in w.grants;
    assert Covered(w.db.rows, w.db.now, w.grants[g]);
    assert Run(w, steps).grants[g] == w.grants[g];
  }

  // ── The kill switch ───────────────────────────────────────────────────

  /** A switch that the database holds is on: the platform's, or the tenant's. */
  predicate SwitchedOff(db: Db) {
    db.globalSwitch || (db.policy.Some? && db.policy.value.killSwitch)
  }

  /** Throughout the run one switch or the other is on. */
  predicate StaysSwitchedOff(w: World, steps: seq<Step>)
    decreases |steps|
  {
    SwitchedOff(w.db) && (steps != [] ==> StaysSwitchedOff(Apply(w, steps[0]), steps[1..]))
  }

  lemma SwitchesStay(db: Db, s: Step)
    ensures After(db, s).globalSwitch == if s.SetGlobalSwitch? then s.on else db.globalSwitch
    ensures After(db, s).policy == if s.SetPolicy? then s.policy else db.policy
  {
    hide Legal, DecisionRow, DecidedRow, MovedRow, SwitchesOn;
  }

  /** The platform's switch stays on until someone switches it off. */
  lemma {:induction false} GlobalSwitchStays(w: World, steps: seq<Step>)
    requires w.db.globalSwitch && forall s | s in steps :: s.SetGlobalSwitch? ==> s.on
    ensures StaysSwitchedOff(w, steps)
    decreases |steps|
  {
    hide Apply, After;
    if steps != [] {
      ApplyTable(w, steps[0]);
      SwitchesStay(w.db, steps[0]);
      GlobalSwitchStays(Apply(w, steps[0]), steps[1..]);
    }
  }

  /** And the tenant's, whatever else of its policy is changed. */
  lemma {:induction false} TenantSwitchStays(w: World, steps: seq<Step>)
    requires w.db.policy.Some? && w.db.policy.value.killSwitch
    requires forall s | s in steps :: s.SetPolicy? ==> s.policy.Some? && s.policy.value.killSwitch
    ensures StaysSwitchedOff(w, steps)
    decreases |steps|
  {
    hide Apply, After;
    if steps != [] {
      ApplyTable(w, steps[0]);
      SwitchesStay(w.db, steps[0]);
      TenantSwitchStays(Apply(w, steps[0]), steps[1..]);
    }
  }

  /** Every write added since `w` uses a grant whose call had been let through by then. */
  predicate SentUnderCleared(w: World, w': World) {
    && w.writes <= w'.writes
    && forall k | |w.writes| <= k < |w'.writes| :: w'.writes[k].grant in w.cleared
  }

  lemma SwitchIsRead(db: Db)
    requires SwitchedOff(db)
    ensures forall local :: SwitchesOn(db, local) != {}
  {
    forall local
      ensures SwitchesOn(db, local) != {}
    {
      SwitchesOnExactlyWhen(db, local);
    }
  }

  lemma StepUnderSwitch(w: World, s: Step)
    requires SwitchedOff(w.db)
    ensures Apply(w, s).cleared == w.cleared && SentUnderCleared(w, Apply(w, s))
    ensures forall id | id in Apply(w, s).db.rows && Apply(w, s).db.rows[id].startedAt.Some? ::
              id in w.db.rows && w.db.rows[id].startedAt.Some?
  {
    ApplyTable(w, s);
    SentUnderSwitch(w, s);
    hide *;
    forall id | id in After(w.db, s).rows && After(w.db, s).rows[id].startedAt.Some?
      ensures id in w.db.rows && w.db.rows[id].startedAt.Some?
    {
      StartsUnderSwitch(w.db, s, id);
    }
  }

  lemma SentUnderSwitch(w: World, s: Step)
    requires SwitchedOff(w.db)
    ensures Apply(w, s).cleared == w.cleared && SentUnderCleared(w, Apply(w, s))
  {
    SwitchIsRead(w.db);
    hide After, Minted, SwitchesOn, AuthoriseExecution, TryMove, SwitchedOff;
  }

  lemma StartsUnderSwitch(db: Db, s: Step, id: Id)
    requires SwitchedOff(db) && id in After(db, s).rows && After(db, s).rows[id].startedAt.Some?
    ensures id in db.rows && db.rows[id].startedAt.Some?
  {
    SwitchIsRead(db);
    hide SwitchedOff;
    if id in db.rows {
      StepOnRow(db, s, id);
      if s.Authorise? {
        assert After(db, s) == db;
      }
    } else {
      StepMakesRow(db, s, id);
    }
  }

  /**
   While the platform's switch or the tenant's is on, no row is started and no call is let through. Whatever
   is still accepted, rollbacks included, was let through before: the switch is not read again at the target.
   */
  lemma {:induction false} NothingIsLetThroughUnderTheSwitch(w: World, steps: seq<Step>)
    requires StaysSwitchedOff(w, steps)
    ensures Run(w, steps).cleared == w.cleared && SentUnderCleared(w, Run(w, steps))
    ensures forall id | id in Run(w, steps).db.rows && Run(w, steps).db.rows[id].startedAt.Some? ::
              id in w.db.rows && w.db.rows[id].startedAt.Some?
    decreases |steps|
  {
    hide Apply, SwitchedOff;
    if steps != [] {
      StepUnderSwitch(w, steps[0]);
      NothingIsLetThroughUnderTheSwitch(Apply(w, steps[0]), steps[1..]);
    }
  }

  /** So no write is accepted later than the life of a grant after the switch went on. */
  lemma WritesEndAfterTheSwitch(w: World, steps: seq<Step>, k: nat)
    requires Inv(w) && StaysSwitchedOff(w, steps)
    requires |w.writes| <= k < |Run(w, steps).writes|
    ensures Run(w, steps).writes[k].sentAt < w.db.now + GRANT_SECONDS
  {
    hide TableInv, Apply, StaysSwitchedOff;
    NothingIsLetThroughUnderTheSwitch(w, steps);
    WritesFollowTheirGrant(w, steps, k);
  }

  /** Once the grants let through before the switch have expired, nothing is accepted at all. */
  lemma {:induction false} NothingIsSentOnceTheyExpired(w: World, steps: seq<Step>)
    requires StaysSwitchedOff(w, steps)
    requires forall g | g in w.cleared :: g < |w.grants| && w.grants[g].expires <= w.db.now
    ensures Run(w, steps).writes == w.writes
    decreases |steps|
  {
    hide Apply, SwitchedOff;
    if steps != [] {
      ExpiredStaySo(w, steps[0]);
      NothingIsSentOnceTheyExpired(Apply(w, steps[0]), steps[1..]);
    }
  }

  lemma ExpiredStaySo(w: World, s: Step)
    requires SwitchedOff(w.db)
    requires forall g | g in w.cleared :: g < |w.grants| && w.grants[g].expires <= w.db.now
    ensures var w' := Apply(w, s);
            && w'.cleared == w.cleared && w'.writes == w.writes
            && forall g | g in w'.cleared :: g < |w'.grants| && w'.grants[g].expires <= w'.db.now
  {
    StepUnderSwitch(w, s);
    StepKeepsGrants(w, s);
    TimeGoesOn(w, s);
    hide After, AuthoriseExecution, TryMove, SwitchedOff;
  }

  lemma TimeGoesOn(w: World, s: Step)
    ensures w.db.now <= Apply(w, s).db.now
  {
    hide Legal, DecisionRow, MovedRow, DecidedRow, SwitchesOn, Redeemable;
  }
}
