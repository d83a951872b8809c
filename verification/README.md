# Verification of the L1 agent's hard core

A Dafny project beside the repository. It models six parts of the system and proves what each is for:

1. **The action pipeline.** An action row moves through 18 statuses while workers, approvers, a sweeper and kill
   switches act in any order. `ActionTable` holds the table, its constraints and each database transaction as a
   function; `ActionStore` performs those transactions on a shared object; `ActionRuns` is every interleaving of any
   number of workers, with the grants minted and the writes accepted as history, and its inductive invariant;
   `ActionSafety` is what follows for every run, and `ActionExamples` the runs that show where it stops. `ActionColumns`
   says what each transaction, grant and result comes to in the columns of the table alone. `ActionDriver` says what
   everyone else may do to the action one worker is carrying; `ActionService` is the worker and the sweeper,
   method by method, with arbitrary interference between any two of their transactions. What connectors, ServiceNow and
   the switch file answer is a script fixed beforehand, and `ActionHistory` keeps what a worker did and asked: the trace
   of the whole system, which steps were its own, and each question with the world it was asked in and its answer.
   `ActionCall` says what those entries must show of one call: `PerformedAs`, the whole course of it, where what was
   asked and answered decides the status it leaves, and `Drove`, that every step it took rests on what it asked before.
   `ActionSweep` does the same for a sweep; `ActionSteps` ties each transaction of the class to a step of the runs.
2. **The policy decision** (`Policy`): the ordered decision, and exactly when it is monotone.
3. **The expression language** (`Expression*`): tokenizer, parser, evaluator; the lexemes (`ExpressionLexemes`) and the
   grammar stated independently of tokenizer and parser, as it is documented and as it is accepted; and text, tokens and
   trees read back.
4. **The audit hash chain** (`AuditChain`, `AuditLog`): append, verify, checkpoints, and all interleavings of the
   transactions that append.
5. **The model gateway** (`ModelBudget`, `ModelGateway`, `AnswerSchema`): budgets under concurrent requests, and the
   closed schema an answer is held to.
6. **Redaction and parameters** (`Redaction`, `Redactor`, `RedactionShapes`, `Parameters`): the placeholder table and
   its inverse, and template rendering with its static check.

Modules whose source changes state in place are classes with the source's fields, each method proved against a
function of the old state; the rest are functions and lemmas. A worker that stalls or dies at an `await` is one whose
next step comes late or never: `Interfere`, `Pause` and `Others` stand at every such point.

`dafny verify dfyconfig.toml` checks everything.

## What the proofs found

- **A rejection can trip a constraint.** `decide` compares author and approver only when approving, but the two-person
  CHECK also refuses a T2 row *rejected* by its author. `ActionSafety.DecisionViolatesExactlyWhen` gives the exact
  condition; approvals and authorisations never trip one other than once-per-incident.
- **The decision is not monotone for a read offered as a write.** A T0 capability is denied until a `raise_tier` rule
  names one of its targets, which turns it into a T2 write that may be approved (`Policy.MonotoneExactlyWhen`).
  Manifests keep writes at T1 or T2.
- **A write can follow the kill switch**, the platform's or the tenant's. A runner redeems a grant against a file of its
  own (`runner/agent.py:63-68`); the switches in the database were read when the call was handed out
  (`runner/dispatch.py:279-299`), and in process too they are read before the grant is redeemed. A write let through
  before the switch may be accepted after it (`ActionExamples.AWriteCanFollowTheSwitch`), but only one let through
  before, and not for longer than a grant lives (`ActionSafety.NothingIsLetThroughUnderTheSwitch`,
  `ActionSafety.WritesEndAfterTheSwitch`, `ActionSafety.NothingIsSentOnceTheyExpired`).
- **The time to execute bounds the recorded start, not the write.** The time recorded is read before the transaction
  that records it (`actions/store.py:594`), and a worker that stalls between the authorisation and the mint
  (`actions/service.py:558-571`) mints a fresh grant whenever it goes on (`ActionExamples.AWriteCanBeLate`). What bounds
  the write is its grant (`ActionSafety.WritesFollowTheirGrant`).
- **Two drivers of one action can end in no result.** One finds the row allowed and then reads a switch that went on;
  the other authorises the write in between. The first one's compare-and-set misses, and the result table has no entry
  for the row it reads again (`ActionExamples.TwoDriversMeetNoEntry`).
- **The documented expression grammar is not quite the accepted one.** The module comment of `engine/expressions.py`
  gives `literal := ... | [literal, ...]`; the parser takes scalars only, so a documented expression is accepted exactly
  when no list in it holds a list (`ExpressionGrammar.DocumentedIsAcceptedExactlyWhen`,
  `ExpressionGrammar.ANestedListIsRefused`). After a dot it also takes keywords as names
  (`ExpressionGrammar.AKeywordAfterADotIsAccepted`).
- **The budgets bound recorded use only up to requests under way.** With k requests at a time the bound is the budget
  plus k-1 estimates, and `ModelBudget.BoundIsReached` shows it is reached from every state where a request just fits.
- **`[[` can survive the escape** (`Redaction.BracketsCanSurvive`), and no placeholder can begin there all the same.
- **The sweeper does not count what moved.** It says it returns how many moved; it counts every answer it handed on
  without an error. An answer is counted and nothing moves when somebody else was quicker
  (`ActionExamples.ALateAnswerIsCounted`), and when the two-person rule refuses the approval; otherwise what is counted
  did move (`ActionSweep.CountedIsMovedExactlyWhen`). The second case is remote: an answer of ServiceNow is refused that
  way only to an author whose account is from an identity provider named `servicenow`
  (`ActionSweep.AnswersAreRefusedExactlyWhen`, `ActionExamples.ARefusedApprovalIsCounted`).

## Model

| member | source | states |
|---|---|---|
| ActionTable.PutSucceedsExactlyWhen | src/l1_agent/db/models.py:456-493 | A row can be written exactly when it meets every CHECK and clashes with no other row on the step or the once-per-incident index |
| ActionColumns.PutWritesExactlyWhen | src/l1_agent/db/models.py:456-493 | The same said in the columns, each CHECK and index on its own; and nothing but that row is written |
| ActionColumns.DecisionColumns | src/l1_agent/actions/store.py:466-502 | Every column of a decision's row: the status the verdict gives, the hash of what is to be done, and how long a request or an allowance stands |
| ActionColumns.DraftColumns | src/l1_agent/actions/service.py:238-266 | Which of the four reads each part of a decision comes from |
| ActionColumns.RecentExecutionsCount | src/l1_agent/actions/store.py:454-463 | The rate limit counts the rows started no longer ago than the window |
| ActionStore.Store.Commit | src/l1_agent/db/models.py:456-493 | One row is committed, or a broken constraint leaves the table as it was |
| ActionStore.Store.RecordDecision | src/l1_agent/actions/store.py:466-502 | The decision row is inserted for the run's incident; where the step has a row already nothing is written and that row is returned |
| ActionStore.Store.Find | src/l1_agent/actions/store.py:371-381 | The row of a step, which is unique, or none |
| ActionStore.Store.Transition | src/l1_agent/actions/store.py:505-559 | Compare-and-set: only from the given statuses, with completion time, result and late denial; otherwise nothing changes |
| ActionStore.Store.AuthoriseExecution | src/l1_agent/actions/store.py:584-634 | Switches, status and validity are read and the row is started in one transaction; refused for a switch exactly when the platform's, the tenant's or the installation's is on; a clash means already carried out |
| ActionTable.SwitchesOnExactlyWhen | src/l1_agent/actions/store.py:308-324 | Each of the three switches is read as on exactly when it is |
| ActionTable.RefusedUnderASwitchExactlyWhen | src/l1_agent/actions/store.py:597-601 | An authorisation is refused for a switch exactly when one of the three is on |
| ActionColumns.MovesLead | src/l1_agent/actions/service.py:162-836 | The statuses each compare-and-set starts from, and the one it leads to |
| ActionColumns.MoveColumns | src/l1_agent/actions/store.py:505-559 | What a compare-and-set writes besides the status, and that it is made exactly from its statuses |
| ActionStore.Store.Decide | src/l1_agent/actions/store.py:640-718 | Every outcome of a decision: wrong state, wrong hash, expired, refused to the author, recorded, constraint |
| ActionStore.Store.NoteChange | src/l1_agent/actions/store.py:562-581 | Only the change number of the row is written |
| ActionStore.Store.NoteRequested | src/l1_agent/actions/store.py:562-581 | Only the request time of the row is written |
| ActionRuns.EveryStepKeepsInv | src/l1_agent/actions/store.py:466-718 | Every transaction, mint and write of anyone keeps the invariant, and moves no row backwards |
| ActionRuns.EveryRunKeepsInv | src/l1_agent/actions/service.py:162-836 | So does every run |
| ActionSteps.RunAdvances | src/l1_agent/db/migrations/versions/0003_policy_and_actions.py:51-95 | Along every run the table's trigger never fires: no row goes, and what an action is, its decision once made and its start once recorded never change, nor a verdict except to a denial |
| ActionSafety.OneGrantPerIncidentAndCall | src/l1_agent/actions/service.py:519-571 | Any workers, any interleaving: at most one grant for a write per incident and call digest, across all runs of the incident |
| ActionSafety.OneWritePerIncidentAndCall | src/l1_agent/db/models.py:484-492 | And at most one accepted write; every accepted write has its grant |
| ActionSafety.OneRollbackPerAction | src/l1_agent/actions/service.py:573-597 | At most one rollback grant per action, whoever carries it |
| ActionSafety.GrantsAreForAuthorisedActions | src/l1_agent/actions/service.py:556-597 | Every grant is for an action whose execution was authorised; a rollback grant only once its rollback was recorded |
| ActionColumns.EarnsExactlyWhen | src/l1_agent/actions/service.py:556-597 | Only an authorisation that started the row, and only a row that began to be rolled back, earns a grant |
| ActionColumns.MintsExactlyWhen | src/l1_agent/actions/service.py:563-570 | One grant for each, for the call in the row, for sixty seconds |
| ActionColumns.MintsUndoExactlyWhen | src/l1_agent/actions/service.py:573-597 | The same for the rollback, for the call it is asked for |
| ActionColumns.LetsThroughExactlyWhen | src/l1_agent/runner/dispatch.py:279-299 | A call is let through exactly while none of the three switches is on |
| ActionColumns.AcceptsExactlyWhen | src/l1_agent/runner/agent.py:63-68 | A write is accepted exactly under a grant for this action and call that was let through, is in time and unused |
| ActionSafety.WritesAreTheDecidedActions | src/l1_agent/actions/service.py:74-87 | The capability and parameters sent are those hashed into the row, and into the approval where one was needed |
| ActionSafety.StartedMeansAuthorised | src/l1_agent/db/models.py:466-483 | Started rows are allowed at T1, or approved for exactly this action, at T2 by someone other than a known author; completion time exactly when final |
| ActionSafety.AlreadyCarriedOutExactlyWhen | src/l1_agent/actions/store.py:633-634 | The only constraint an authorisation can hit is once-per-incident, as its message says, and exactly when |
| ActionSafety.MovesNeverViolate | src/l1_agent/actions/store.py:505-559 | No compare-and-set of the service trips a constraint; it succeeds exactly when the status is one of those given |
| ActionSafety.DecisionViolatesExactlyWhen | src/l1_agent/actions/store.py:667-671 | Approvals never trip a constraint; a rejection does exactly when the author rejects their own pending T2 action |
| ActionSafety.AtMostFiveStatusChanges | src/l1_agent/actions/store.py:48-63 | Along any run a row changes status at most five times |
| ActionSafety.FinalIsForever | src/l1_agent/actions/store.py:48-63 | After a final status only the notes of a late worker can change |
| ActionSafety.StartIsBounded | src/l1_agent/actions/service.py:289-292 | No row records a start later than approval time plus execution time after its decision, or execution time alone when allowed by policy |
| ActionSafety.WritesFollowTheirGrant | src/l1_agent/actions/service.py:563-570 | Under a grant that exists no write is accepted later than the life of a grant from now |
| ActionExamples.AWriteCanBeLate | src/l1_agent/actions/service.py:556-571 | How long after the recorded start the write is sent is bounded by nothing: for every stall a run from an empty table, change record opened |
| ActionSafety.RunKeepsTimed | src/l1_agent/actions/store.py:676-685 | The deadlines on every row stay within the bounds of the policies in force, along every run |
| ActionSafety.NothingIsLetThroughUnderTheSwitch | src/l1_agent/runner/dispatch.py:279-299 | While the platform's or the tenant's switch stays on no row is started and no call let through; every write accepted meanwhile uses a grant let through before |
| ActionSafety.GlobalSwitchStays | src/l1_agent/actions/store.py:308-316 | The platform's switch stays on through every run that does not set it |
| ActionSafety.TenantSwitchStays | src/l1_agent/actions/store.py:317-323 | The tenant's stays on through every run whose changes of the policy leave it on |
| ActionSafety.WritesEndAfterTheSwitch | src/l1_agent/actions/service.py:145-158 | So no write is accepted later than the life of a grant after the switch went on, rollbacks included |
| ActionSafety.NothingIsSentOnceTheyExpired | src/l1_agent/runner/agent.py:63-68 | Once every grant let through before has expired, nothing more is accepted |
| ActionExamples.AWriteCanFollowTheSwitch | src/l1_agent/runner/agent.py:63-68 | Until then it may be: a run from an empty table, change record opened, with the write at any moment of the grant's life |
| ActionExamples.TheAuthorCannotReject | src/l1_agent/actions/store.py:667-671 | From an empty table to the constraint: an author rejects their own T2 action |
| ActionExamples.TwoDriversMeetNoEntry | src/l1_agent/actions/service.py:743-775 | From an empty table: with two drivers a missed compare-and-set reloads a row that has no result |
| ActionDriver.ForeignRunsRely | src/l1_agent/actions/service.py:162-234 | Any steps of others, a late send of the driver's own write among them, leave its row as it is, unless it was pending and was decided, expired or refused |
| ActionHistory.NewEntriesAreOfTheTrace | src/l1_agent/actions/service.py:162-234 | What a worker notes of the world was so at a moment of the run since it began |
| ActionCall.ResultsFollowTheRecord | src/l1_agent/actions/service.py:777-836 | The result table has an entry exactly for final statuses; success only for verified, skip only for shadowed |
| ActionColumns.StatusTellsTheRecord | src/l1_agent/actions/service.py:777-836 | The step status of every final row |
| ActionColumns.EventsTellTheRecord | src/l1_agent/actions/service.py:777-836 | The events of every final row: who let the action through and what came of it, or why it was not let through |
| ActionColumns.HeardExactlyWhen | src/l1_agent/actions/service.py:519-541 | A write is heard of as made exactly when it was accepted and the answer says so |
| ActionColumns.EndsUnbegun | src/l1_agent/actions/service.py:441-541 | How an approved or allowed action ends that is not begun: aborted for any of the three switches, invalid past its time, not done for a check, a rehearsal or the once-per-incident index |
| ActionColumns.UndoneExactlyWhen | src/l1_agent/actions/service.py:662-717 | A declared rollback is sent exactly while none of the three switches is on, and the status says whether it was accepted and heard of as made |
| ActionCall.UndoingTakes | src/l1_agent/actions/service.py:731-738 | A rollback is sent with exactly its fixed parameters and those of the action's that it declares, each with the action's own value |
| ActionCall.LookingTakes | src/l1_agent/actions/service.py:731-738 | So is every read of a verification |
| ActionCall.CheckingTakes | src/l1_agent/actions/service.py:731-738 | And every pre-check |
| ActionCall.DecisionsHeedWhatWasRead | src/l1_agent/actions/service.py:238-316 | Nothing is allowed or put up for approval with a switch on, at the rate limit or below approval level as these were read; a switch is a denial for that reason |
| ActionCall.ActedMeansCheckedAndSaw | src/l1_agent/actions/service.py:441-660 | A started action had every pre-check read and held; a verified one was read and shown |
| ActionService.Service.CompareAndSet | src/l1_agent/actions/store.py:505-559 | One transition of a driver, counted when it misses from approved or allowed onward |
| ActionService.Service.Finish | src/l1_agent/actions/service.py:743-775 | From the statuses named, the row is moved and its result stored; another attempt's status stands |
| ActionService.Service.Ask | src/l1_agent/actions/service.py:162-836 | One question is noted with the world it was asked in and the next answer of the script, and nothing else changes |
| ActionService.Service.EnsureChange | src/l1_agent/actions/service.py:333-386 | A row with a change record is left alone; otherwise one is asked for once, and its number is on the row, or the row is final; only an answer without a number makes the driver deny it |
| ActionService.Service.RequestApproval | src/l1_agent/actions/service.py:388-424 | ServiceNow is asked about this change exactly where that channel is on; then the time of the request is on the row, which is at most decided meanwhile |
| ActionService.Service.StartExecution | src/l1_agent/actions/store.py:584-634 | The result is that of the authorisation in a world of the trace; the row is executing with one grant due, or nothing changed |
| ActionService.Service.AuthoriseWrite | src/l1_agent/actions/service.py:556-571 | A grant for the row's own call is minted only after the row was moved to executing |
| ActionService.Service.AuthoriseRollback | src/l1_agent/actions/service.py:573-597 | The switches are read, and exactly when they are off is the row moved to rolling back and then a grant minted for this call |
| ActionService.Service.Invoke | src/l1_agent/actions/service.py:519-541 | One thing is heard of the call; at most one write is accepted, only if it is the call of the grant, and a write heard of as made was accepted |
| ActionService.Service.RollBack | src/l1_agent/actions/service.py:662-717 | Failed where no rollback is declared; otherwise the declared call with the parameters it declares is sent unless a switch was read on, and the status says what was heard of it |
| ActionService.Service.LookAtTarget | src/l1_agent/actions/service.py:613-645 | Between one read and one more than the retries; all but the last settle nothing, the last settles it or is the last allowed |
| ActionService.Service.VerifyAndFinish | src/l1_agent/actions/service.py:599-660 | Verified exactly when the last read shows the result; otherwise undone as declared, or when interrupted failed-unknown with nothing asked and nothing undone |
| ActionService.Service.Prepare | src/l1_agent/actions/service.py:441-503 | Switches, clock, pre-checks and dry run are asked in this order up to the first that says no, which is the one named; nothing is written |
| ActionService.Service.RunPreChecks | src/l1_agent/actions/service.py:465-486 | Every declared pre-check is read once, in order, and held, or the last one read did not |
| ActionService.Service.SendAndVerify | src/l1_agent/actions/service.py:519-554 | The step's own call is sent once; made: recorded as executed before the target is read, then verified or undone; not made: undone as declared; not heard of: looked at, never undone, verified or failed-unknown |
| ActionService.Service.Act | src/l1_agent/actions/service.py:441-554 | What was asked, in order, and the status that follows: the preparation, the authorisation as it was in its world, the write and what was heard of it; no compare-and-set misses |
| ActionService.Service.SeeTheTime | src/l1_agent/actions/service.py:206-212 | The driver expires a request only when the clock it read is at or past its time, and suspends only when it is before |
| ActionService.Service.AwaitApproval | src/l1_agent/actions/service.py:201-212 | What is asked while an action waits, in order: the change record, the approval, the clock; it suspends only on a pending row with its change opened and its approval asked for, before it expires |
| ActionService.Service.CarryOn | src/l1_agent/actions/service.py:213-234 | The status decides the course: an approved or allowed action is prepared, authorised and written, a started one looked at, a final one left |
| ActionService.Service.Continue | src/l1_agent/actions/service.py:201-234 | From any status, what was asked decides the status left; a started write is never sent again, one not heard of is never undone, an interrupted rollback ends failed-unknown |
| ActionColumns.CourseFollowsTheStatus | src/l1_agent/actions/service.py:201-234 | Which course a call takes, by the status the row was found in |
| ActionService.Service.GatherDraft | src/l1_agent/actions/service.py:238-266 | The draft has the policy, the recent executions, the time and the switches as each was read in the trace |
| ActionService.Service.DecideAction | src/l1_agent/actions/service.py:238-316 | The row is the decision those reads make, with the hash of what the step renders to; it is always recorded, and waits or is allowed only with no switch read on |
| ActionService.Service.FindOrDecide | src/l1_agent/actions/service.py:176-199 | A row that matches the step, or no longer waits, is left as it is; one that waits and does not match is voided; where there is none the decision is made on what was read |
| ActionService.Service.Perform | src/l1_agent/actions/service.py:162-199 | With one driver per action: the whole course of the call by what it asked (`PerformedAs`), every step it took resting on what it asked before (`Drove`); suspended on a pending unexpired row or a result from a final one, which the result table never misses; a grant only for the hashed action, with a change record, all pre-checks read and held; verified only when the target was read and showed it; a write not heard of is never undone; repeating a finished action writes nothing |
| ActionService.Service.ExpireRequest | src/l1_agent/actions/service.py:426-437 | Afterwards the request is not pending; it counts only if this step moved it |
| ActionService.Service.Answer | src/l1_agent/actions/service.py:924-965 | A ServiceNow answer decides only with the action's hash, a named approver and, for a T2 approval, two known different emails; otherwise the request is voided |
| ActionService.Service.Collect | src/l1_agent/actions/service.py:919-965 | ServiceNow is asked once and the author's email only when needed; then at most the one step that answer leads to |
| ActionService.Service.Sweep | src/l1_agent/actions/service.py:893-917 | Everything overdue when read is no longer pending; when it is time ServiceNow is asked about every other request asked for there, otherwise about none, and the time is noted exactly when something was asked; its own steps are only those expiries and what the answers lead to; the result is how many of those count, each in the world it was taken in |
| ActionColumns.AnswersDecideExactlyWhen | src/l1_agent/actions/service.py:924-965 | The step an answer of ServiceNow leads to, from what it and the row say, and when the author's email matters to it |
| ActionColumns.PollsExactlyWhen | src/l1_agent/actions/service.py:893-917 | ServiceNow is asked about a request exactly while it is pending, in time, put up there and on a change record |
| ActionSweep.CountedIsMovedExactlyWhen | src/l1_agent/actions/service.py:893-965 | A counted step moved its row exactly when the row was still pending and the step was not an approval the two-person rule refuses |
| ActionSweep.AnswersAreRefusedExactlyWhen | src/l1_agent/actions/service.py:926-965 | An answer leads to such an approval exactly when the approver's name there is the author's account |
| ActionExamples.ALateAnswerIsCounted | src/l1_agent/actions/service.py:952-965 | From an empty table, asked for in ServiceNow: the step its answer leads to is one a sweep takes, and counts, though somebody was quicker and nothing moves |
| ActionExamples.ARefusedApprovalIsCounted | src/l1_agent/actions/service.py:952-965 | The same with the approval of an author with an account of a provider named `servicenow`: refused and counted |
| Policy.Evaluate | src/l1_agent/actions/policy.py:367-430 | Unattended only at T1; anything but a denial is of a T1 or T2 write |
| Policy.TighterNeverPermitsMore | src/l1_agent/actions/policy.py:367-430 | A tighter situation never gives a more permissive verdict, for capabilities that are T1, T2 or unknown |
| Policy.MonotoneExactlyWhen | src/l1_agent/actions/policy.py:355-364 | Monotone exactly unless a read is offered as a write and some rule could name a target of it |
| Policy.UnattendedExactlyWhen | src/l1_agent/actions/policy.py:367-430 | Everything it takes for a write with no person asked: the named version of the SOP at automatic, a rule that covers every target, no raise of the tier, no freeze, permitted hours, and the rest |
| Policy.OnlyTheNamedVersion | src/l1_agent/actions/policy.py:146-149 | Anything but a denial or a shadow is for exactly the version of the SOP the policy names, at its level |
| Policy.TierIsRaisedExactlyWhen | src/l1_agent/actions/policy.py:102-106 | The tier is the manifest's, or T2 once a rule for the capability names one of the targets |
| Policy.ClockIsTheCalendar | src/l1_agent/actions/policy.py:122-129 | The minute of the day and the day of the week of any time |
| Policy.DeniedExactlyWhen | src/l1_agent/actions/policy.py:372-410 | Everything that denies a write, and the first of it is the reason |
| Policy.TheLowestLevelDecides | src/l1_agent/actions/policy.py:411-430 | Otherwise the lowest of the tenant's level, the level of exactly this version of the SOP and the installation's decides shadow, recommend, approval or automatic |
| Policy.HoursAreAnArc | src/l1_agent/actions/policy.py:122-129 | Permitted hours are one arc of the clock, across midnight too |
| Policy.UnreadablePolicyDoesNothing | src/l1_agent/actions/store.py:132-151 | Stored rules that do not parse give at most shadow; the kill switch still counts |
| Policy.ReadablePolicyIsItself | src/l1_agent/actions/store.py:132-151 | Rules that parse are taken as they are |
| ExpressionGrammar.ParserIsTheGrammar | src/l1_agent/engine/expressions.py:101-181 | The parser accepts exactly the grammar with scalar lists and any word after a dot, and returns the grammar's tree |
| ExpressionGrammar.DocumentedIsAcceptedExactlyWhen | src/l1_agent/engine/expressions.py:5-12 | What the documented grammar derives is accepted, with that tree, exactly when no list in it holds a list |
| ExpressionGrammar.ANestedListIsRefused | src/l1_agent/engine/expressions.py:11 | `[[1]]` is documented and refused |
| ExpressionGrammar.AKeywordAfterADotIsAccepted | src/l1_agent/engine/expressions.py:12 | `a.in` is accepted and not documented |
| ExpressionGrammar.OneTreePerSequence | src/l1_agent/engine/expressions.py:107-181 | The grammar is unambiguous |
| ExpressionGrammar.PrintedTreesReadBack | src/l1_agent/engine/expressions.py:101-181 | A printed tree parses to itself |
| ExpressionGrammar.TreesAreThePrintable | src/l1_agent/engine/expressions.py:149-163 | The trees of the language are exactly those whose lists hold scalars |
| ExpressionParser.Parser.Parse | src/l1_agent/engine/expressions.py:101-105 | The parser with its cursor returns what the grammar's parser functions give, and leaves nothing over |
| ExpressionParser.Parser.OrExpr | src/l1_agent/engine/expressions.py:107-111 | The loop over `or` is the function, cursor included |
| ExpressionParser.Parser.OperandExpr | src/l1_agent/engine/expressions.py:139-181 | Operands: literals, lists, parentheses, paths |
| ExpressionLexemes.NextTokenIsTheLongest | src/l1_agent/engine/expressions.py:31-42 | The next token is the longest stretch the token pattern describes, as stated character by character; there is none exactly when it describes none |
| ExpressionLexemes.TokenizerIsTheLexicalGrammar | src/l1_agent/engine/expressions.py:46-75 | A text has these tokens exactly when it is not blank, has at most 500 characters, and is white space and longest lexemes in turn |
| ExpressionText.TokenizeLoop | src/l1_agent/engine/expressions.py:46-75 | The loop over positions gives the tokens of the text, or refuses |
| ExpressionText.EscapesSurvive | src/l1_agent/engine/expressions.py:31-42 | A string written with escapes is read back as itself, whatever follows |
| ExpressionText.SpellingsReadBack | src/l1_agent/engine/expressions.py:46-75 | Tokens written as text tokenize to themselves, signed numbers and decimals included |
| ExpressionText.ScannedTokensSpell | src/l1_agent/engine/expressions.py:46-75 | And no other token is ever read |
| ExpressionText.TextReadsBack | src/l1_agent/engine/expressions.py:184-186 | A tree written as text parses to itself |
| ExpressionEval.RootNamesAreTheFootprint | src/l1_agent/engine/expressions.py:189-206 | Contexts that agree on the root names give the same value or both an error |
| ExpressionEval.ShortCircuitsAgree | src/l1_agent/engine/expressions.py:237-256 | Short-circuit evaluation agrees with strict evaluation wherever that has no error |
| ExpressionEval.PyEqIsTransitive | src/l1_agent/engine/expressions.py:262-273 | Equality as Python has it is transitive across booleans, integers and floats, deeply |
| ExpressionEval.PyEqIsSymmetric | src/l1_agent/engine/expressions.py:262-273 | And symmetric |
| ExpressionEval.MembershipAndEquality | src/l1_agent/engine/expressions.py:258-273 | `in` sees `true` in `[1]`, while `true == 1` is an error |
| ExpressionEval.NumbersCompare | src/l1_agent/engine/expressions.py:262-281 | The six comparisons of two numbers are those of their values, integer or not |
| ExpressionEval.TextsCompare | src/l1_agent/engine/expressions.py:262-281 | Those of two texts are those of one order of texts |
| ExpressionEval.BeforeExactlyWhen | src/l1_agent/engine/expressions.py:281 | Which is lexicographic |
| ExpressionEval.TextsAreOrdered | src/l1_agent/engine/expressions.py:281 | And total |
| ExpressionEval.OrderedExactlyWhen | src/l1_agent/engine/expressions.py:275-280 | Ordering is an error exactly unless both are numbers or both texts |
| ExpressionEval.EqualOrNotExactlyWhen | src/l1_agent/engine/expressions.py:262-273 | Equality is an error exactly unless one is null, both are numbers or both of one type |
| ExpressionEval.StructuresAreEqualExactlyWhen | src/l1_agent/engine/expressions.py:262-273 | Lists and objects are equal exactly when their parts are |
| ExpressionEval.MembershipExactlyWhen | src/l1_agent/engine/expressions.py:255-261 | What `in` finds in a list and in a text, and where it is an error |
| ExpressionEval.OppositesAreOpposite | src/l1_agent/engine/expressions.py:255-273 | `!=` and `not in` are the negations, errors alike |
| ExpressionEval.ComparisonsEvaluate | src/l1_agent/engine/expressions.py:253-281 | A comparison evaluates both sides and is an error where either is |
| ExpressionEval.ConnectivesEvaluate | src/l1_agent/engine/expressions.py:243-252 | What `not`, `and` and `or` give, and when the right side is not looked at |
| ExpressionEval.PathsRead | src/l1_agent/engine/expressions.py:209-224 | What a path reads, step by step, from either end of a list |
| ExpressionEval.HoldsExactlyWhen | src/l1_agent/actions/service.py:719-728 | An assertion holds exactly when it evaluates to true on the result and the parameters; an error is no |
| AuditChain.NoProblemExactlyForAChain | src/l1_agent/audit/log.py:198-230 | Verification finds nothing exactly when rows are numbered 1 to n, linked from the genesis hash and self-hashed |
| AuditChain.VerifiesExactlyWhen | src/l1_agent/audit/log.py:172-249 | With checkpoints: exactly for a chain that honours every checkpoint of the tenant |
| AuditChain.SameHashSameHistory | src/l1_agent/audit/log.py:68-92 | Chains with one hash at n agree up to n, or the place is given of two stored rows that differ and hash alike |
| AuditChain.CheckpointPinsHistory | src/l1_agent/audit/log.py:155-169 | Rows that verify against a checkpoint begin with exactly the events it was made of, field by field, or the place is given of a stored row that differs and hashes alike |
| AuditChain.GrownLogsPass | src/l1_agent/audit/log.py:155-169 | A log that only grew since verifies against its checkpoint |
| AuditChain.EditsAreReported | src/l1_agent/audit/log.py:212-226 | A changed event is reported unless every later hash was redone, or the place is given of a stored row that differs and hashes alike |
| AuditChain.PrefixesAreChains | src/l1_agent/audit/log.py:7-10 | The newest events can be removed unseen without a checkpoint |
| AuditChain.AppendingKeepsAChain | src/l1_agent/audit/log.py:110-148 | The row built from the head extends the chain with the next number |
| AuditChain.TwoFromOneHeadBreakIt | src/l1_agent/audit/log.py:103-109 | Two appends from one head break the chain: what the lock is for |
| AuditChain.EveryRunKeepsTheChain | src/l1_agent/audit/log.py:95-148 | In every interleaving of transactions that hold the lock, several appends each, commits and rollbacks, the committed rows are a chain and only grow |
| AuditChain.AnAppendIsCommitted | src/l1_agent/audit/log.py:95-148 | Undisturbed, an append is committed after the head; rolled back, it leaves nothing |
| AuditChain.OthersWait | src/l1_agent/audit/log.py:104-109 | While one transaction holds the lock, no other reads the head or inserts |
| AuditChain.CheckpointsHoldThroughRuns | src/l1_agent/audit/log.py:155-249 | A checkpoint made at any point of a run verifies at every later point |
| AuditLog.Log.Append | src/l1_agent/audit/log.py:95-148 | One row is added, numbered and linked after the head, and a chain stays one |
| AuditLog.Log.Verify | src/l1_agent/audit/log.py:172-249 | The two loops report exactly the problems specified; none exactly when the chain and checkpoints hold; the head |
| AuditLog.Log.MakeCheckpoint | src/l1_agent/audit/log.py:155-169 | Issued exactly for a chain, with its length and last hash |
| ModelBudget.AllowedExactlyWhen | src/l1_agent/ai/gateway.py:131-165 | A request goes ahead exactly when the policy is on and names its task, provider, region and retention, no budget ended the run, and every budget has room |
| ModelBudget.PermittedExactlyWhen | src/l1_agent/ai/policy.py:142-156 | Each reason the policy gives, in order, by its fields |
| ModelBudget.OverExactlyWhen | src/l1_agent/ai/gateway.py:140-165 | Where it permits, the first budget without room is the one named |
| ModelBudget.SpentIsTheSum | src/l1_agent/ai/policy.py:242-266 | What a run has spent is the sum over its calls, and what a day has, over those since midnight |
| ModelBudget.UseIsBounded | src/l1_agent/ai/gateway.py:232-310 | With at most k requests under way, recorded use of a run or a day, tokens or cost, stays within budget + (k-1) estimates + what calls used beyond their own estimates |
| ModelBudget.OneAtATimeStaysWithin | src/l1_agent/ai/gateway.py:232-310 | One at a time and within estimates: the budget is never passed |
| ModelBudget.BoundIsReached | src/l1_agent/ai/gateway.py:252-257 | The bound is reached from every state where a request just fits |
| ModelBudget.NothingIsSentAfterABudgetIsMet | src/l1_agent/ai/policy.py:268-280 | Once a run has an over-budget row no later request of it reaches the provider |
| ModelGateway.Gateway.Decide | src/l1_agent/ai/gateway.py:131-165 | The refusal, in the code's order, read in one transaction |
| ModelGateway.Gateway.Send | src/l1_agent/ai/gateway.py:272-310 | The provider is asked once; the request adds exactly one row, with what that completion reported or estimated; it is answered exactly when what came back conforms |
| ModelGateway.Gateway.AskModel | src/l1_agent/ai/gateway.py:202-310 | The request is checked at a moment of the trace since the call, by what policy and calls were then; it is sent only if that policy is on and names its task, provider, region and retention; refused: not asked and at most one over-budget row; allowed: asked once and exactly one row of its own; nothing at all without a provider or for a schema that is refused |
| ModelGateway.Gateway.LostRequestsStayWithinTheirEstimate | src/l1_agent/ai/gateway.py:272-310 | A request that was not heard of uses no more than its estimate, where prices are not negative |
| AnswerSchema.NoProblemExactlyWhenItConforms | src/l1_agent/ai/schema.py:58-106 | No problem exactly when every place inside the value has a schema that allows what is there |
| AnswerSchema.ReportedExactlyWhen | src/l1_agent/ai/schema.py:58-106 | Which problem is reported of a value, by the keywords of its schema |
| AnswerSchema.LookedIntoExactlyWhen | src/l1_agent/ai/schema.py:58-106 | Which of its parts are looked into |
| AnswerSchema.ConformingIsBounded | src/l1_agent/ai/schema.py:13-29 | A conforming value is at most as large as a bound computed from the schema |
| AnswerSchema.CheckSchema | src/l1_agent/ai/schema.py:32-55 | The walk accepts exactly the schemas that are supported at every level |
| AnswerSchema.SupportedExactlyWhen | src/l1_agent/ai/schema.py:32-55 | What a schema of each type may carry and what it cannot do without |
| AnswerSchema.CarriedExactlyWhen | src/l1_agent/ai/schema.py:37-39 | Which keywords a schema carries |
| AnswerSchema.Validate | src/l1_agent/ai/schema.py:58-106 | The walk finds exactly the problems specified, none exactly for a conforming value, which is then bounded |
| Redaction.EscapedTextHasNoPlaceholder | src/l1_agent/ai/redaction.py:191-192 | No escaped input contains text of placeholder form |
| Redaction.BracketsCanSurvive | src/l1_agent/ai/redaction.py:191-192 | Two opening brackets can survive the escape |
| Redaction.MatchesExactlyWhen | src/l1_agent/ai/redaction.py:33 | What has the form of a placeholder, character by character, and how long it is |
| Redaction.PlaceholdersAreDistinct | src/l1_agent/ai/redaction.py:151-158 | No two kinds and numbers share a placeholder |
| Redaction.PersonalIsPutBack | src/l1_agent/ai/redaction.py:31 | By default the placeholders of emails, phone numbers, persons and addresses are put back, and no others |
| Redaction.RestoringUndoes | src/l1_agent/ai/redaction.py:208-217 | Scanning redacted text puts back exactly the replacements of the given kinds, each its own value, and does not look at them again |
| Redaction.SwappingIsUndone | src/l1_agent/ai/redaction.py:160-177 | A replacement of input text by a kind that is put back changes nothing in what is restored |
| Redactor.OthersStayReplaced | src/l1_agent/ai/redaction.py:160-177 | A kind that is not put back stays as its placeholder, all else restored around it |
| Redactor.EarlierTextStillReads | src/l1_agent/ai/redaction.py:133-158 | A placeholder means the same for the whole run |
| Redactor.Redactor.TableIsABijection | src/l1_agent/ai/redaction.py:151-158 | Values and placeholders correspond one to one after any calls |
| Redactor.Redactor.Placeholder | src/l1_agent/ai/redaction.py:151-158 | A value gets its own number once, the next of its kind |
| Redactor.Redactor.Swap | src/l1_agent/ai/redaction.py:160-177 | Each stretch is replaced, numbered left to right |
| Redactor.Redactor.Redact | src/l1_agent/ai/redaction.py:186-206 | Each stage finds in what the one before left, from the escaped text on, and replaces what it found by numbers in order of first finding; where all that was found may be put back, restoring gives the escaped text itself |
| Redactor.Redactor.Restore | src/l1_agent/ai/redaction.py:208-217 | Exactly the given kinds are undone |
| RedactionShapes.CheckLuhn | src/l1_agent/ai/redaction.py:68-77 | The loop over the reversed digits is the checksum |
| RedactionShapes.OneWrongDigitIsCaught | src/l1_agent/ai/redaction.py:68-77 | No card number with one digit changed passes |
| RedactionShapes.ExchangedNeighboursPassExactlyWhen | src/l1_agent/ai/redaction.py:68-77 | Exchanged neighbours pass exactly when equal or 0 and 9 |
| RedactionShapes.IbanLength | src/l1_agent/ai/redaction.py:94-106 | The longest beginning that is an IBAN and ends where a word does, or none |
| RedactionShapes.IbanExactlyWhen | src/l1_agent/ai/redaction.py:85-91 | An IBAN is 15 to 34 characters, spaces aside, whose number, country and check digits last, leaves 1 when divided by 97 |
| RedactionShapes.OneWrongDigitIsNoIban | src/l1_agent/ai/redaction.py:85-91 | No IBAN with one digit after its check digits changed passes |
| Parameters.SplittingKeepsTheText | src/l1_agent/engine/parameters.py:15 | Text is its characters and placeholders, nothing lost |
| Parameters.LeadingExactlyWhen | src/l1_agent/engine/parameters.py:15 | What a placeholder is, character by character |
| Parameters.TextRendersExactlyWhen | src/l1_agent/engine/parameters.py:192-193 | Text renders exactly when its placeholders are bound, each filled where it stood and not expanded again |
| Parameters.RendersExactlyWhen | src/l1_agent/engine/parameters.py:181-202 | A structure renders exactly when every placeholder in it is bound |
| Parameters.RenderingKeepsPlaces | src/l1_agent/engine/parameters.py:181-198 | What stands at a place is what stood there, rendered |
| Parameters.RenderingKeepsShape | src/l1_agent/engine/parameters.py:184-198 | Keys, lengths and all that is not text stay; a whole placeholder keeps its value's type |
| Parameters.AWholePlaceholderKeepsItsType | src/l1_agent/engine/parameters.py:181-191 | Text that is one placeholder and nothing else becomes the value itself |
| Parameters.OtherTextBecomesText | src/l1_agent/engine/parameters.py:181-191 | All other text becomes text |
| Parameters.OnlyUsedValuesMatter | src/l1_agent/engine/parameters.py:181-202 | Two bindings that agree on the names used render alike |
| Parameters.BindsExactlyWhen | src/l1_agent/engine/parameters.py:111-116 | Binding succeeds exactly when every parameter binds, and then exactly the declared names have values |
| Parameters.SourcesYield | src/l1_agent/engine/parameters.py:78-89 | What each kind of source yields, and that text is searched only to its first 10000 characters |
| Parameters.LinesJoin | src/l1_agent/engine/parameters.py:82-86 | The fields searched are joined line by line |
| Parameters.ValidatesExactlyWhen | src/l1_agent/engine/parameters.py:92-108 | A value is taken exactly when it is there, is a number or a text of the length and pattern asked for, and is one of the choices |
| Parameters.ValuesAreTheirOwn | src/l1_agent/engine/parameters.py:111-116 | Each name has the value of the last parameter declared with it |
| Parameters.BindParameters | src/l1_agent/engine/parameters.py:111-116 | The loop stops at the first parameter that does not bind |
| Parameters.BindWhatCanBe | src/l1_agent/engine/parameters.py:119-138 | The values of the parameters that bind, the names that fail and what was not found; no failures exactly when `bind_parameters` returns, with equal values |
| Parameters.ThoseThatBind | src/l1_agent/engine/parameters.py:119-138 | Each name has the value of the last parameter of that name that binds, whatever else fails |
| Parameters.StaticCheckIsExact | src/l1_agent/engine/parameters.py:205-210 | Once bound, every step renders exactly when no placeholder is undeclared |
| Parameters.PlaceholdersIn | src/l1_agent/engine/parameters.py:166-178 | The walk collects exactly the names used |
| Parameters.AdvisedExactlyWhen | src/l1_agent/engine/parameters.py:141-163 | What a model located is taken exactly where the author allows it and the word stands in the ticket and is valid |
| Parameters.AdvisedTextStandsInTheTicket | src/l1_agent/engine/parameters.py:141-163 | What a model pointed at stands in the ticket as a whole word, and the value is that word or the integer it spells, validated as ever |
| Parameters.StandsInExactlyWhen | src/l1_agent/engine/parameters.py:141-163 | A word stands in a text exactly when neither what comes before nor what comes after continues it |
| Decimal.ReadingDigitsBack | src/l1_agent/ai/redaction.py:155 | A number written in decimal reads back, so numbered placeholders differ |

## Left out

- SQL and asyncio: each `db.tenant` block is one atomic step; row locks and the audit advisory lock are taken as given, and a database that fails is not modelled.
- Two drivers on one action: at-most-once and authorisation are proved for any number of them; that `perform` always ends in a final or suspended state is proved for one driver per action, and `ActionExamples.TwoDriversMeetNoEntry` shows it fails for two.
- Run queue, parking and wake-up: no liveness across a suspended run.
- Connectors, the runner and the ITSM system answer anything; a grant is redeemed in time, for exactly its call and by a process that remembers it, so once.
- The runner's queue, claims and results: a call is let through and later redeemed, or not; how long a runner may hold a call is only bounded by its grant.
- Grant signing: `mint` is called from the two places service.py calls it, and a grant expires a fixed time after it is minted.
- Signatures, HMAC and SHA-256: arbitrary functions; results about the audit chain give the stored rows that would collide.
- One tenant, and the digests of actions as free constructors: equal digests only for equal inputs.
- Writes are T1 or T2: manifests are checked elsewhere; `Policy.MonotoneExactlyWhen` says what happens otherwise.
- The rate limit is read when the decision is made, so no bound on executions per window is claimed.
- Verification after a step renders differently uses the new parameters: what was written is proved, what was verified is relative to the parameters of that call.
- The order requests are swept in, the group ServiceNow asks and how many approvals it opens.
- Notes on change records, closing them, announcements, metrics, logs and message texts: no effect on status.
- parse_rules and parse_model_policy: shape checks that only add members; a policy that does not parse is a case of its own.
- fnmatch, the redaction patterns and parameter patterns: arbitrary matchers, except the tokenizer, both placeholder forms and the check digits.
- Redactor.Redactor.Redact: patterns find stretches that do not cut a placeholder in two; a known name that spells the inside of a placeholder is outside the model. What restoring gives where a secret was found is `Redactor.OthersStayReplaced`, stage by stage.
- Entropy, IP address ranges and the separators inside card numbers.
- Floating point and NaN: numbers are integers or reals; `isfinite` always holds, and rounding of costs is an arbitrary price function.
- AnswerSchema.ConformingIsBounded: a number counts as one, however many digits it has.
- AnswerSchema.Validate: the order problems are listed in, because JSON objects are maps without an order here.
- Unicode white space, letters and digits beyond ASCII in the tokenizer, the placeholder forms and names.
- Python's recursion limit and the character limit's interaction with printing: expressions and answers nest without bound.
- spec_problems and the SOP validator, the executor and the run state machine are not part of this model.
