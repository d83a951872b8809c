/** Runs that reach what no proof can rule out: each is a concrete input at which a wished-for property fails. */
module ActionExamples {
  import opened Wrappers
  import opened Policy
  import opened ActionTable
  import opened ActionRuns
  import opened ActionSafety
  import opened ActionDriver
  import opened ActionHistory
  import opened ActionSteps
  import opened ActionCall
  import opened ActionSweep

  const CALL := CallDigest("restart", map[])
  const CHANGE := "CHG0000001"

  function Same(): Matcher {
    (target: string, pattern: string) => target == pattern
  }

  /** Restarts of one host go by this level; approval is asked for in ServiceNow too. */
  function RulesAt(level: Autonomy): Rules {
    NO_RULES.(sopAutonomy := map["sop" := (level, "h")], automatic := [TargetRule("restart", ["host"], "")],
              viaServiceNow := true)
  }

  /** The empty table of a tenant with such a policy, when the clock reads zero. */
  function Start(level: Autonomy): World {
    World(Db(map[], map[1 := 1], false, Some(StoredPolicy(Some(RulesAt(level)), Some(level), false)), 0),
          multiset{}, multiset{}, [], {}, [])
  }

  /** A decision on a restart of the host under the policy stored there. */
  function DraftOf(tier: Tier, level: Autonomy, author: string): Draft {
    var policy := ReadPolicy(Start(level).db.policy);
    Draft(
      "acme", 1, "step-1", "sys-1", author, map[],
      Request("sop", "h", "restart", true, Some(tier), ["host"], 0),
      Situation({}, policy.autonomy, policy.rules, T2, Automatic, 0, {}),
      Same())
  }

  lemma VerdictOfDraft(tier: Tier, level: Autonomy, author: string)
    requires tier != T0 && (level == Approval || (level == Automatic && tier == T1))
    ensures DraftOf(tier, level, author).Ruled().verdict == if level == Automatic then Allow else RequireApproval
    ensures DraftOf(tier, level, author).Ruled().tier == Some(tier)
  {
    var d := DraftOf(tier, level, author);
    var rule := TargetRule("restart", ["host"], "");
    assert rule.Covers(Same(), "host") by {
      assert "host" in rule.targets;
    }
    assert rule.Matches(Same(), "restart", ["host"], "sop");
    assert rule in d.situation.rules.automatic;
    assert OnAutomatic(Same(), d.request, d.situation.rules);
    assert !Raised(Same(), d.request, d.situation.rules);
    assert !Frozen(0, d.situation.rules.freeze);
  }

  /** The first action of an empty table. */
  function Recorded(tier: Tier, level: Autonomy, author: string): Row {
    DecisionRow(DraftOf(tier, level, author), 1, 0)
  }

  /** That action alone in its table. */
  function Only(level: Autonomy, row: Row): World {
    Start(level).(db := Start(level).db.(rows := map[0 := row]))
  }

  lemma FirstDecision(tier: Tier, level: Autonomy, author: string)
    requires tier != T0 && (level == Approval || (level == Automatic && tier == T1))
    ensures var row := Recorded(tier, level, author);
            && Apply(Start(level), Record(0, DraftOf(tier, level, author))) == Only(level, row)
            && row.what.tier == tier && row.what.author == author && row.what.callDigest == CALL
            && row.startedAt.None? && row.approver.None? && row.change == "" && row.requestedAt.None?
            && (level == Automatic ==> row.status == Allowed && row.validUntil == Some(900))
            && (level == Approval ==> row.status == Pending && row.expiresAt == Some(3600) && row.viaServiceNow)
  {
    hide Policy.Evaluate;
    VerdictOfDraft(tier, level, author);
    var db, row := Start(level).db, Recorded(tier, level, author);
    RecordedRowIsSound(DraftOf(tier, level, author), 1, 0);
    PutSucceedsExactlyWhen(db, 0, row);
  }

  lemma RunOne(w: World, s: Step, rest: seq<Step>)
    ensures Run(w, [s] + rest) == Run(Apply(w, s), rest)
  {
    assert ([s] + rest)[1..] == rest;
  }

  lemma TableOf(w: World)
    requires Inv(w)
    ensures TableInv(w.db)
  {
  }

  lemma ItIsOpened(level: Autonomy, row: Row)
    requires Inv(Only(level, row))
    ensures Apply(Only(level, row), Opened(0, CHANGE)) == Only(level, row.(change := CHANGE))
    ensures Inv(Only(level, row.(change := CHANGE)))
  {
    hide Inv, TableInv, Put, Apply;
    var w, noted := Only(level, row), row.(change := CHANGE);
    TableOf(w);
    NotesAreWritten(w.db, 0, noted);
    assert w.db.rows[0 := noted] == map[0 := noted];
    NoteIsAStep(w, Only(level, noted), Opened(0, CHANGE));
    EveryStepKeepsInv(w, Opened(0, CHANGE));
  }

  lemma ItIsAskedFor(level: Autonomy, row: Row)
    requires Inv(Only(level, row))
    ensures Apply(Only(level, row), Asked(0)) == Only(level, row.(requestedAt := Some(0)))
    ensures Inv(Only(level, row.(requestedAt := Some(0))))
  {
    hide Inv, TableInv, Put, Apply;
    var w, noted := Only(level, row), row.(requestedAt := Some(0));
    TableOf(w);
    NotesAreWritten(w.db, 0, noted);
    assert w.db.rows[0 := noted] == map[0 := noted];
    NoteIsAStep(w, Only(level, noted), Asked(0));
    EveryStepKeepsInv(w, Asked(0));
  }

  /** The decision is recorded and its change record opened. */
  function UntilReady(tier: Tier, level: Autonomy, author: string): seq<Step> {
    [Record(0, DraftOf(tier, level, author))] + ([Opened(0, CHANGE)] + [])
  }

  function Ready(tier: Tier, level: Autonomy, author: string): Row {
    Recorded(tier, level, author).(change := CHANGE)
  }

  lemma ItIsReady(tier: Tier, level: Autonomy, author: string)
    requires tier != T0 && (level == Approval || (level == Automatic && tier == T1))
    ensures Initial(Start(level)) && Inv(Only(level, Ready(tier, level, author)))
    ensures Run(Start(level), UntilReady(tier, level, author)) == Only(level, Ready(tier, level, author))
  {
    FirstDecision(tier, level, author);
    hide Recorded, DraftOf, Apply, Inv;
    var w, s := Start(level), Record(0, DraftOf(tier, level, author));
    var row := Recorded(tier, level, author);
    ReachableWorldsAreSound(w, [s] + []);
    RunOne(w, s, []);
    ItIsOpened(level, row);
    RunOne(w, s, [Opened(0, CHANGE)] + []);
    RunOne(Only(level, row), Opened(0, CHANGE), []);
  }

  // ── Before the write ──────────────────────────────────────────────────

  /** A T1 write decided on, authorised, held up for `stall` seconds, given its grant and let through. */
  function UntilLetThrough(stall: nat): seq<Step> {
    UntilReady(T1, Automatic, "")
    + ([Authorise(0, false)] + ([Tick(stall)] + ([Mint(0)] + ([Clear(0, false)] + []))))
  }

  function Restarting(): Row {
    Ready(T1, Automatic, "").(status := Executing, startedAt := Some(0))
  }

  function LetThrough(stall: nat): World {
    World(Db(map[0 := Restarting()], map[1 := 1], false, Start(Automatic).db.policy, stall),
          multiset{}, multiset{}, [Grant(0, false, CALL, stall + GRANT_SECONDS)], {0}, [])
  }

  lemma StartsAlone(level: Autonomy, row: Row)
    requires Inv(Only(level, row)) && row.status == Allowed && row.validUntil == Some(900) && row.startedAt.None?
    ensures var started := row.(status := Executing, startedAt := Some(0));
            Apply(Only(level, row), Authorise(0, false)) == Only(level, started).(tickets := multiset{0})
  {
    TableOf(Only(level, row));
    hide Inv, RowInv, Checks, Put, TableInv, Apply;
    var w, started := Only(level, row), row.(status := Executing, startedAt := Some(0));
    StartedIsPut(w.db, row);
    assert AuthoriseExecution(w.db, 0, false) == Started(Only(level, started).db);
    AuthorisationIsAStep(w, Only(level, started).(tickets := multiset{0}), 0, false);
  }

  lemma StartedIsPut(db: Db, row: Row)
    requires TableInv(db) && db.rows == map[0 := row] && db.now == 0
    requires row.status == Allowed && row.validUntil == Some(900) && row.startedAt.None?
    ensures var started := row.(status := Executing, startedAt := Some(0));
            Put(db, 0, started) == Ok(db.(rows := map[0 := started]))
  {
    var started := row.(status := Executing, startedAt := Some(0));
    assert RowInv(db.rows[0], 0);
    StartKeepsRow(row, 0);
    RowsMeetChecks(started, 0);
    RowsMeetChecks(row, 0);
    hide RowInv, Checks;
    assert Legal(db.rows);
    PutSucceedsExactlyWhen(db, 0, started);
    assert db.rows[0 := started] == map[0 := started];
  }

  lemma RowsMeetChecks(row: Row, now: Time)
    requires RowInv(row, now)
    ensures Checks(row)
  {
  }

  lemma GrantIsMinted(w: World, stall: nat)
    requires w == LetThrough(stall).(tickets := multiset{0}, grants := [], cleared := {})
    requires Restarting().what.callDigest == CALL
    ensures Apply(Apply(w, Mint(0)), Clear(0, false)) == LetThrough(stall)
  {
    hide Restarting;
    assert Apply(w, Mint(0)) == LetThrough(stall).(cleared := {});
  }

  /** The row that is started has its change record, as every row the driver starts. */
  lemma ItIsLetThrough(stall: nat)
    ensures Initial(Start(Automatic)) && Run(Start(Automatic), UntilLetThrough(stall)) == LetThrough(stall)
    ensures Restarting().change != "" && Restarting().startedAt == Some(0) && Restarting().validUntil == Some(900)
  {
    FirstDecision(T1, Automatic, "");
    ItIsReady(T1, Automatic, "");
    hide Recorded, Apply, Inv, UntilReady;
    var ready := Only(Automatic, Ready(T1, Automatic, ""));
    StartsAlone(Automatic, Ready(T1, Automatic, ""));
    var begun := Only(Automatic, Restarting()).(tickets := multiset{0});
    var late := begun.(db := begun.db.(now := stall));
    TickOnly(begun, stall);
    GrantIsMinted(late, stall);
    var rest := [Authorise(0, false)] + ([Tick(stall)] + ([Mint(0)] + ([Clear(0, false)] + [])));
    RunsCompose(Start(Automatic), UntilReady(T1, Automatic, ""), rest);
    RunOne(ready, Authorise(0, false), [Tick(stall)] + ([Mint(0)] + ([Clear(0, false)] + [])));
    RunOne(begun, Tick(stall), [Mint(0)] + ([Clear(0, false)] + []));
    RunOne(late, Mint(0), [Clear(0, false)] + []);
    RunOne(Apply(late, Mint(0)), Clear(0, false), []);
  }

  lemma TickOnly(w: World, n: nat)
    ensures Apply(w, Tick(n)) == w.(db := w.db.(now := w.db.now + n))
  {
  }

  function Sending(): Step {
    Send(0, 0, "restart", map[], false)
  }

  lemma ItIsSent(w: World)
    requires |w.grants| == 1 && w.grants[0].action == 0 && w.grants[0].digest == CALL
    requires w.cleared == {0} && w.writes == [] && w.db.now < w.grants[0].expires
    ensures Apply(w, Sending()) == w.(writes := [Write(0, "restart", map[], w.db.now)])
  {
  }

  lemma SwitchOnly(w: World)
    ensures Apply(w, SetGlobalSwitch(true)) == w.(db := w.db.(globalSwitch := true))
  {
  }

  /** A write let through before the global switch is accepted after it, for as long as its grant lives. */
  lemma AWriteCanFollowTheSwitch(later: nat)
    requires later < GRANT_SECONDS
    ensures var steps := UntilLetThrough(0) + ([SetGlobalSwitch(true)] + ([Tick(later)] + ([Sending()] + [])));
            var w := Run(Start(Automatic), steps);
            && Initial(Start(Automatic)) && w.db.globalSwitch && 0 in w.db.rows && w.db.rows[0].change != ""
            && w.writes == [Write(0, "restart", map[], later)]
  {
    ItIsLetThrough(0);
    hide Restarting, UntilLetThrough, Apply;
    var v := LetThrough(0);
    var on := v.(db := v.db.(globalSwitch := true));
    var after := on.(db := on.db.(now := later));
    SwitchOnly(v);
    TickOnly(on, later);
    ItIsSent(after);
    RunsCompose(Start(Automatic), UntilLetThrough(0), [SetGlobalSwitch(true)] + ([Tick(later)] + ([Sending()] + [])));
    RunOne(v, SetGlobalSwitch(true), [Tick(later)] + ([Sending()] + []));
    RunOne(on, Tick(later), [Sending()] + []);
    RunOne(after, Sending(), []);
  }

  /**
   The time to begin bounds when the row is started, not when the write is sent: a worker that stalls
   between the two mints a fresh grant whenever it goes on.
   */
  lemma AWriteCanBeLate(stall: nat)
    ensures var w := Run(Start(Automatic), UntilLetThrough(stall) + ([Sending()] + []));
            && Initial(Start(Automatic)) && 0 in w.db.rows && w.db.rows[0].change != ""
            && w.db.rows[0].startedAt == Some(0) && w.db.rows[0].validUntil == Some(15 * MINUTE)
            && w.writes == [Write(0, "restart", map[], stall)]
  {
    ItIsLetThrough(stall);
    hide UntilLetThrough, Restarting, Apply;
    ItIsSent(LetThrough(stall));
    RunsCompose(Start(Automatic), UntilLetThrough(stall), [Sending()] + []);
    RunOne(LetThrough(stall), Sending(), []);
  }

  // ── Two drivers of one action ─────────────────────────────────────────

  /**
   One worker found the row allowed and then read a switch that went on; another had authorised the write in
   between. The first one's compare-and-set misses, and the row it reads again has no entry in the result table.
   */
  lemma TwoDriversMeetNoEntry()
    ensures var found := Run(Start(Automatic), UntilReady(T1, Automatic, ""));
            var steps := [Authorise(0, false)] + ([SetGlobalSwitch(true)] + ([Make(0, Abort)] + []));
            var w := Run(found, steps);
            && Initial(Start(Automatic)) && 0 in found.db.rows && found.db.rows[0].status == Allowed
            && w.db.globalSwitch && 0 in w.db.rows && w.db.rows[0].status == Executing
            && Conclude(0, w.db.rows[0]) == NoSuchEntry
  {
    FirstDecision(T1, Automatic, "");
    ItIsReady(T1, Automatic, "");
    hide Recorded, Apply, Inv, UntilReady, Conclude;
    var ready := Only(Automatic, Ready(T1, Automatic, ""));
    StartsAlone(Automatic, Ready(T1, Automatic, ""));
    var begun := Only(Automatic, Restarting()).(tickets := multiset{0});
    var on := begun.(db := begun.db.(globalSwitch := true));
    SwitchOnly(begun);
    AbortMisses(on);
    ExecutingHasNoEntry(Restarting());
    RunOne(ready, Authorise(0, false), [SetGlobalSwitch(true)] + ([Make(0, Abort)] + []));
    RunOne(begun, SetGlobalSwitch(true), [Make(0, Abort)] + []);
    RunOne(on, Make(0, Abort), []);
  }

  lemma ExecutingHasNoEntry(row: Row)
    requires row.status == Executing
    ensures Conclude(0, row) == NoSuchEntry
  {
  }

  lemma AbortMisses(w: World)
    requires 0 in w.db.rows && w.db.rows[0].status == Executing
    ensures Apply(w, Make(0, Abort)) == w
  {
  }

  // ── The two-person rule ───────────────────────────────────────────────

  /** A T2 action that waits for approval, asked for in ServiceNow too. */
  function UntilAsked(author: string): seq<Step> {
    UntilReady(T2, Approval, author) + ([Asked(0)] + [])
  }

  function Asking(author: string): Row {
    Ready(T2, Approval, author).(requestedAt := Some(0))
  }

  function Waiting(author: string): World {
    Only(Approval, Asking(author))
  }

  lemma ItWaits(author: string)
    ensures Initial(Start(Approval)) && Run(Start(Approval), UntilAsked(author)) == Waiting(author)
    ensures Inv(Waiting(author)) && Polls(Waiting(author).db, 0)
    ensures var row := Asking(author);
            && row.status == Pending && row.what.tier == T2 && row.what.author == author
            && row.expiresAt == Some(3600)
  {
    FirstDecision(T2, Approval, author);
    ItIsReady(T2, Approval, author);
    hide Recorded, Apply, Inv, UntilReady;
    var row := Ready(T2, Approval, author);
    ItIsAskedFor(Approval, row);
    RunsCompose(Start(Approval), UntilReady(T2, Approval, author), [Asked(0)] + []);
    RunOne(Only(Approval, row), Asked(0), []);
  }

  /** The author rejects their own T2 action, and the constraint refuses the rejection. */
  lemma TheAuthorCannotReject(author: string)
    ensures var w := Run(Start(Approval), UntilAsked(author));
            && Initial(Start(Approval)) && 0 in w.db.rows
            && Decide(w.db, 0, author, false, Some(w.db.rows[0].what.actionHash)) == Violation
  {
    ItWaits(author);
    hide Asking, Decide, TableInv;
    var db := Waiting(author).db;
    DecisionViolatesExactlyWhen(db, 0, author, false, Some(db.rows[0].what.actionHash));
  }

  // ── What the sweeper counts ───────────────────────────────────────────

  /** What ServiceNow answers when somebody agreed there. */
  function AgreedBy(name: string, email: string, hash: ActionHash): Found {
    Found(Agreed, Some(hash), name, email)
  }

  /** The entries of a sweep of `seen`, asked in the world as it was then. */
  function SweepEntries(w: World, author: string, found: Found, email: string): seq<Entry> {
    var silent := Answer(None, false, NotMade, None, None, "");
    [Entry(ChangeApproval(0), w, 0, silent.(found := Some(found))),
     Entry(AuthorEmail(author), w, 0, silent.(text := email))]
  }

  /** Those entries call for that step, in any sweep that read the action as waiting. */
  lemma TheSweeperWould(author: string, found: Found, email: string)
    requires author != "" && found.approver != "" && found.state == Agreed
    requires found.correlation == Some(Asking(author).what.actionHash)
    requires email != "" && found.email != "" && email != found.email
    ensures var w := Waiting(author);
            SweepStep(w.db, Applied(0, Asking(author), found, email), SweepEntries(w, author, found, email))
    ensures Applied(0, Asking(author), found, email) ==
              Decided(0, "user:servicenow|" + found.approver, true, Some(Asking(author).what.actionHash))
  {
    ItWaits(author);
    hide Asking, Inv;
    var w, row := Waiting(author), Asking(author);
    var es := SweepEntries(w, author, found, email);
    var s := Applied(0, row, found, email);
    assert es[0] in es && es[1] in es;
    assert EmailOf(row, es[1]) == email;
    assert LedTo(0, row, s, es, es[0]);
  }

  /** An approval in ServiceNow that someone in the product was quicker than: counted, and nothing moved. */
  lemma ALateAnswerIsCounted(author: string, approver: string, name: string, email: string, other: string)
    requires author != "" && approver != author && name != "" && email != "" && other != "" && email != other
    ensures var w := Waiting(author);
            var found := AgreedBy(name, other, w.db.rows[0].what.actionHash);
            var late := Applied(0, w.db.rows[0], found, email);
            var decided := Apply(w, Decided(0, approver, true, Some(w.db.rows[0].what.actionHash)));
            && Initial(Start(Approval)) && Run(Start(Approval), UntilAsked(author)) == w
            && SweepStep(w.db, late, SweepEntries(w, author, found, email))
            && 0 in decided.db.rows && decided.db.rows[0].status == Approved
            && Counts(decided.db, late) && !Moves(decided.db, late)
  {
    ItWaits(author);
    var w, row := Waiting(author), Asking(author);
    var found := AgreedBy(name, other, row.what.actionHash);
    TheSweeperWould(author, found, email);
    hide Asking, TableInv, After, Apply, Counts, Moves, SweepStep, Applied;
    var hash := Some(row.what.actionHash);
    WaitingRowIsDecided(w.db, row, approver);
    ApplyTable(w, Decided(0, approver, true, hash));
    DecidedRowIsCounted(After(w.db, Decided(0, approver, true, hash)), Applied(0, row, found, email));
  }

  lemma DecidedRowIsCounted(db: Db, s: Step)
    requires s.Decided? && s.id in db.rows && db.rows[s.id].status != Pending
    ensures Counts(db, s) && !Moves(db, s)
  {
  }

  lemma WaitingRowIsDecided(db: Db, row: Row, approver: string)
    requires db.rows == map[0 := row] && TableInv(db) && row.status == Pending && db.now == 0
    requires row.expiresAt == Some(3600) && row.what.author != "" && row.what.author != approver
    ensures var after := After(db, Decided(0, approver, true, Some(row.what.actionHash)));
            && 0 in after.rows && after.rows[0].status == Approved
            && after.rows[0].what == row.what
  {
    hide TableInv;
    DecisionViolatesExactlyWhen(db, 0, approver, true, Some(row.what.actionHash));
    hide Legal;
  }

  /**
   The author's own approval, refused, counted, and still pending. It takes an author whose account is from an
   identity provider called `servicenow`, and who agrees under another email than the one on record.
   */
  lemma ARefusedApprovalIsCounted(name: string, email: string, other: string)
    requires name != "" && email != "" && other != "" && email != other
    ensures var author := "user:servicenow|" + name;
            var w := Waiting(author);
            var found := AgreedBy(name, other, w.db.rows[0].what.actionHash);
            var own := Applied(0, w.db.rows[0], found, email);
            && Initial(Start(Approval)) && Run(Start(Approval), UntilAsked(author)) == w
            && SweepStep(w.db, own, SweepEntries(w, author, found, email))
            && Counts(w.db, own) && !Moves(w.db, own)
            && Apply(w, own).db.rows[0].status == Pending
  {
    var author := "user:servicenow|" + name;
    ItWaits(author);
    var w, row := Waiting(author), Asking(author);
    var found := AgreedBy(name, other, row.what.actionHash);
    TheSweeperWould(author, found, email);
    hide Asking, SweepStep, Applied, After, Apply, Counts, Moves;
    ApplyTable(w, Applied(0, row, found, email));
    TheAuthorIsRefused(w.db, row, Applied(0, row, found, email));
  }

  lemma TheAuthorIsRefused(db: Db, row: Row, s: Step)
    requires db.rows == map[0 := row] && row.status == Pending && row.what.tier == T2
    requires db.now == 0 && row.expiresAt == Some(3600)
    requires s == Decided(0, row.what.author, true, Some(row.what.actionHash))
    ensures Counts(db, s) && !Moves(db, s) && After(db, s) == db
  {
  }
}
