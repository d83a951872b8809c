/**
 What one worker did and was told: the steps of the whole system so far, which of them were its
 own, and everything it asked, each with the world it was asked in and the answer it got. What
 the outside answers is a script fixed beforehand, so no answer can be made up.
 */
module ActionHistory {
  import opened Wrappers
  import Json
  import opened Policy
  import opened ActionTable
  import opened ActionRuns
  import opened ActionDriver

  datatype Written = Done | NotMade | OutcomeUnknown

  /** The number of a change record that was opened. */
  type ChangeNumber = s: string | s != "" witness "CHG0000001"

  datatype ApprovalState = Agreed | TurnedDown | NoAnswer

  /** What the change record in ServiceNow says: the hash it carries, and who decided. */
  datatype Found = Found(state: ApprovalState, correlation: Option<ActionHash>, approver: string, email: string)

  /** One answer from outside; a question looks at the part that is about it. */
  datatype Answer = Answer(
    value: Option<Json.Value>, yes: bool, written: Written, number: Option<ChangeNumber>,
    found: Option<Found>, text: string)

  type Script = nat -> Answer

  /** What can be asked. The table itself is read in the world the entry names. */
  datatype Question =
    | Switches                                              // `yes`: the local file says on
    | Clock
    | PolicyRow
    | Executions
    | Target(capability: string, params: Params)            // `value`: what was read, if it could be
    | DryRun                                                // `yes`: it went through
    | Start                                                 // the authorisation; `yes`: the local file says on
    | Sent(grant: nat, capability: string, params: Params, rollback: bool, accepted: bool)  // `written`
    | ChangeRecord                                          // `number`
    | ApprovalRequest(change: string)                       // sent to ServiceNow
    | ChangeApproval(id: Id)                                // `found`
    | AuthorEmail(author: string)                           // `text`

  datatype Entry = Entry(asked: Question, world: World, at: nat, answer: Answer)

  /** `own` are the places in `trace` of the steps this worker took. */
  datatype History = History(start: World, trace: seq<Step>, own: seq<nat>, log: seq<Entry>)

  /** What the caller hears of a write. A write that was not accepted is never heard of as done. */
  function Heard(e: Entry): Written
    requires e.asked.Sent?
  {
    if e.answer.written == Done && !e.asked.accepted then NotMade else e.answer.written
  }

  predicate WasSent(e: Entry, g: nat, capability: string, params: Params, rollback: bool) {
    && e.asked.Sent?
    && e.asked.grant == g && e.asked.capability == capability && e.asked.params == params && e.asked.rollback == rollback
  }

  /** A switch was on when it was read: the platform's, the tenant's, or the local file the answer is about. */
  predicate On(e: Entry) {
    var db := e.world.db;
    db.globalSwitch || e.answer.yes || (db.policy.Some? && db.policy.value.killSwitch)
  }

  /** How many writes, rollbacks aside, were heard of this way. */
  function HeardAs(log: seq<Entry>, written: Written): nat {
    if log == [] then 0
    else
      var last := log[|log| - 1];
      HeardAs(log[..|log| - 1], written)
      + if last.asked.Sent? && !last.asked.rollback && Heard(last) == written then 1 else 0
  }

  /**
   What this driver did: rows committed, grants minted for the write and for a rollback, writes
   accepted, compare-and-sets from approved or allowed onward that found the row elsewhere, and
   writes heard of as made, as not made, and not heard of.
   */
  datatype Tally = Tally(
    commits: nat, mints: nat, undos: nat, sends: nat, missed: nat, made: nat, refused: nat, lost: nat)

  predicate Told(t: Tally, log: seq<Entry>) {
    t.made == HeardAs(log, Done) && t.refused == HeardAs(log, NotMade) && t.lost == HeardAs(log, OutcomeUnknown)
  }

  /** The tally once a write was heard of this way. */
  function Hearing(t: Tally, written: Written): Tally {
    match written
    case Done => t.(made := t.made + 1)
    case NotMade => t.(refused := t.refused + 1)
    case OutcomeUnknown => t.(lost := t.lost + 1)
  }

  /** Every entry is of a world the trace led through, in order, with the answer the script gives. */
  ghost predicate Truthful(h: History, script: Script) {
    && (forall i | 0 <= i < |h.log| ::
          && h.log[i].at <= |h.trace|
          && h.log[i].world == Run(h.start, h.trace[..h.log[i].at])
          && h.log[i].answer == script(i))
    && (forall i | 0 <= i < |h.own| :: h.own[i] < |h.trace|)
  }

  /** `b` goes on from `a`: what was asked since was asked in worlds the system has led through since. */
  ghost predicate Later(a: History, b: History) {
    && a.start == b.start
    && a.trace <= b.trace && a.own <= b.own && a.log <= b.log
    && (forall i | |a.log| <= i < |b.log| :: |a.trace| <= b.log[i].at)
    && (forall i | |a.own| <= i < |b.own| :: |a.trace| <= b.own[i])
  }

  /** What was asked since. */
  function New(a: History, b: History): seq<Entry> {
    if |a.log| <= |b.log| then b.log[|a.log|..] else []
  }

  /** The steps this worker took since. */
  function OwnSteps(a: History, b: History): seq<nat> {
    if |a.own| <= |b.own| then b.own[|a.own|..] else []
  }

  /** Nothing was asked since. */
  ghost predicate Silent(a: History, b: History) {
    Later(a, b) && b.log == a.log
  }

  /** Nothing was asked and no step taken since, by this worker. */
  ghost predicate Quiet(a: History, b: History) {
    Silent(a, b) && b.own == a.own
  }

  lemma LaterKeepsLog(a: History, b: History)
    requires Later(a, b)
    ensures |a.log| <= |b.log| && a.log <= b.log && a.start == b.start && a.trace <= b.trace
  {
  }

  lemma LaterOnce(a: History, b: History, c: History)
    requires Later(a, b) && Later(b, c)
    ensures Later(a, c)
    ensures New(a, c) == New(a, b) + New(b, c) && OwnSteps(a, c) == OwnSteps(a, b) + OwnSteps(b, c)
  {
    assert forall i | |a.log| <= i < |b.log| :: c.log[i] == b.log[i];
    assert forall i | |a.own| <= i < |b.own| :: c.own[i] == b.own[i];
  }

  lemma SilentThenLater(a: History, b: History, c: History)
    requires Silent(a, b) && Later(b, c)
    ensures Later(a, c) && New(a, c) == New(b, c)
  {
    LaterOnce(a, b, c);
  }

  lemma LaterThenSilent(a: History, b: History, c: History)
    requires Later(a, b) && Silent(b, c)
    ensures Later(a, c) && New(a, c) == New(a, b)
  {
    LaterOnce(a, b, c);
  }

  lemma SilentThenSilent(a: History, b: History, c: History)
    requires Silent(a, b) && Silent(b, c)
    ensures Silent(a, c)
  {
    LaterOnce(a, b, c);
  }

  lemma QuietIsSilent(a: History, b: History)
    requires Quiet(a, b)
    ensures Silent(a, b)
  {
  }

  lemma SilentIsLater(a: History, b: History)
    requires Silent(a, b)
    ensures Later(a, b) && New(a, b) == []
  {
  }

  lemma NothingYet(a: History)
    ensures Later(a, a) && Silent(a, a) && Quiet(a, a) && New(a, a) == []
  {
  }

  /** How histories go on; called where the predicates are hidden. */
  lemma LaterGoesOn()
    ensures forall a: History :: Quiet(a, a)
    ensures forall a: History :: Silent(a, a)
    ensures forall a: History, b: History {:trigger Quiet(a, b)} :: Quiet(a, b) ==> Silent(a, b)
    ensures forall a: History, b: History {:trigger Silent(a, b)} :: Silent(a, b) ==> Later(a, b) && New(a, b) == []
    ensures forall a: History, b: History, c: History {:trigger Later(a, b), Later(b, c)} ::
              Later(a, b) && Later(b, c) ==> Later(a, c)
    ensures forall a: History, b: History, c: History {:trigger Silent(a, b), Silent(b, c)} ::
              Silent(a, b) && Silent(b, c) ==> Silent(a, c)
    ensures forall a: History, b: History, c: History {:trigger Quiet(a, b), Quiet(b, c)} ::
              Quiet(a, b) && Quiet(b, c) ==> Quiet(a, c)
    ensures forall a: History, b: History, c: History {:trigger Silent(a, b), Later(b, c)} ::
              Silent(a, b) && Later(b, c) ==> New(a, c) == New(b, c)
    ensures forall a: History, b: History, c: History {:trigger Later(a, b), Silent(b, c)} ::
              Later(a, b) && Silent(b, c) ==> New(a, c) == New(a, b)
  {
    forall a: History, b: History, c: History | Later(a, b) && Later(b, c)
      ensures Later(a, c)
    {
      LaterOnce(a, b, c);
    }
  }

  /** One more step, of this worker. */
  function Stepping(h: History, s: Step): History {
    h.(trace := h.trace + [s], own := h.own + [|h.trace|])
  }

  function Asking(h: History, what: Question, world: World, answer: Answer): History {
    h.(log := h.log + [Entry(what, world, |h.trace|, answer)])
  }

  lemma SteppingIsLater(h: History, s: Step, script: Script)
    requires Truthful(h, script)
    ensures Truthful(Stepping(h, s), script) && Later(h, Stepping(h, s))
    ensures OwnSteps(h, Stepping(h, s)) == [|h.trace|] && New(h, Stepping(h, s)) == []
  {
    TraceGoesOn(h, [s], script);
  }

  lemma TraceGoesOn(h: History, steps: seq<Step>, script: Script)
    requires Truthful(h, script)
    ensures Truthful(h.(trace := h.trace + steps), script) && Later(h, h.(trace := h.trace + steps))
  {
    forall i | 0 <= i < |h.log|
      ensures (h.trace + steps)[..h.log[i].at] == h.trace[..h.log[i].at]
    {
    }
  }

  lemma AskingIsLater(h: History, what: Question, answer: Answer, script: Script, t: Tally)
    requires Truthful(h, script) && answer == script(|h.log|) && Told(t, h.log)
    ensures var h' := Asking(h, what, Run(h.start, h.trace), answer);
            var e := h'.log[|h.log|];
            && Truthful(h', script) && Later(h, h') && New(h, h') == [e] && OwnSteps(h, h') == []
            && Told(if what.Sent? && !what.rollback then Hearing(t, Heard(e)) else t, h'.log)
  {
    var h' := Asking(h, what, Run(h.start, h.trace), answer);
    assert h.trace[..|h.trace|] == h.trace;
    assert h'.log[..|h'.log| - 1] == h.log;
  }

  /** What an entry says of the world is so of a world the system led through since `a`. */
  lemma NewEntriesAreOfTheTrace(a: History, b: History, script: Script, e: Entry)
    requires Truthful(b, script) && Later(a, b) && e in New(a, b)
    ensures |a.trace| <= e.at <= |b.trace| && e.world == Run(b.start, b.trace[..e.at])
  {
    var i :| 0 <= i < |New(a, b)| && New(a, b)[i] == e;
    assert b.log[|a.log| + i] == e;
  }
}
