/** What the sweeper takes a request to be, what it does about it, and what it counts. */
module ActionSweep {
  import opened Wrappers
  import opened Policy
  import opened ActionTable
  import opened ActionRuns
  import opened ActionSafety
  import opened ActionHistory
  import opened ActionSteps

  /**
   The step a ServiceNow answer leads to. It decides the action only when the change carries the
   hash of this action and names an approver and, for a T2 approval, both emails are known and differ.
   */
  function Applied(id: Id, row: Row, found: Found, author: string): Step {
    if && found.correlation == Some(row.what.actionHash)
       && found.approver != ""
       && (found.state == Agreed && row.what.tier == T2 ==>
             author != "" && found.email != "" && author != found.email)
    then Decided(id, "user:servicenow|" + found.approver, found.state == Agreed, found.correlation)
    else Make(id, NotAccepted)
  }

  predicate Overdue(row: Row, now: Time) {
    row.status == Pending && row.expiresAt.Some? && now >= row.expiresAt.value
  }

  /** The email of the author matters, and is looked up, only for a T2 approval that is otherwise in order. */
  predicate EmailIsRead(row: Row, found: Found) {
    && found.correlation == Some(row.what.actionHash) && found.approver != ""
    && found.state == Agreed && row.what.tier == T2
  }

  function EmailOf(row: Row, e: Entry): string {
    if row.what.author == "" then "" else e.answer.text
  }

  /** The step is the one that an answer of ServiceNow about the request leads to, with the email that was read. */
  ghost predicate LedTo(id: Id, row: Row, s: Step, es: seq<Entry>, e: Entry) {
    && e in es && e.asked == ChangeApproval(id)
    && e.answer.found.Some? && e.answer.found.value.state != NoAnswer
    && var found := e.answer.found.value;
       if EmailIsRead(row, found) then
         exists f | f in es :: f.asked == AuthorEmail(row.what.author) && s == Applied(id, row, found, EmailOf(row, f))
       else s == Applied(id, row, found, "")
  }

  /**
   What the sweeper may do, judged by the table it read and what it asked: expire what was overdue; do what
   ServiceNow's answer leads to about what was asked for there too.
   */
  ghost predicate SweepStep(seen: Db, s: Step, es: seq<Entry>) {
    && About(s).Some? && About(s).value in seen.rows
    && var id := About(s).value;
       var row := seen.rows[id];
       && row.status == Pending
       && if Overdue(row, seen.now) then s == Make(id, Expire)
          else Collectable(row) && exists e | e in es :: LedTo(id, row, s, es, e)
  }

  /** Asked for in ServiceNow too, on a change record. */
  predicate Collectable(row: Row) {
    row.viaServiceNow && row.change != ""
  }

  /** The requests about which ServiceNow is asked, when it is time to ask. */
  predicate Polls(seen: Db, id: Id) {
    && id in seen.rows && seen.rows[id].status == Pending
    && !Overdue(seen.rows[id], seen.now) && Collectable(seen.rows[id])
  }

  ghost predicate AskedAbout(es: seq<Entry>, id: Id) {
    exists e | e in es :: e.asked == ChangeApproval(id)
  }

  /** ServiceNow was asked about nothing but these requests, and only when it was time to. */
  ghost predicate AskedOnly(seen: Db, due: bool, es: seq<Entry>) {
    forall e | e in es && e.asked.ChangeApproval? :: due && Polls(seen, e.asked.id)
  }

  lemma NothingAsked(seen: Db, due: bool)
    ensures AskedOnly(seen, due, [])
  {
  }

  lemma MoreAsked(seen: Db, due: bool, a: seq<Entry>, b: seq<Entry>)
    requires AskedOnly(seen, due, a) && AskedOnly(seen, due, b)
    ensures AskedOnly(seen, due, a + b)
    ensures forall id :: AskedAbout(a, id) || AskedAbout(b, id) ==> AskedAbout(a + b, id)
  {
    hide Polls;
    forall id | AskedAbout(a, id) || AskedAbout(b, id)
      ensures AskedAbout(a + b, id)
    {
      if AskedAbout(a, id) {
        var e :| e in a && e.asked == ChangeApproval(id);
        assert e in a + b;
      } else {
        var e :| e in b && e.asked == ChangeApproval(id);
        assert e in a + b;
      }
    }
  }

  /** Everything overdue in the table as read, except what is `left`, is no longer pending. */
  ghost predicate Cleared(seen: Db, db: Db, left: set<Id>) {
    forall id | id in seen.rows && id !in left && Overdue(seen.rows[id], seen.now) ::
      id in db.rows && db.rows[id].status != Pending
  }

  lemma NothingElseIsOverdue(db: Db, left: set<Id>)
    requires left == set id | id in db.rows && db.rows[id].status == Pending
    ensures Cleared(db, db, left)
  {
  }

  lemma SweepProceeds(seen: Db, was: Db, db: Db, left: set<Id>, id: Id)
    requires TableAdvances(was, db) && Cleared(seen, was, left)
    requires id in seen.rows && Overdue(seen.rows[id], seen.now) ==> id in db.rows && db.rows[id].status != Pending
    ensures Cleared(seen, db, left - {id})
  {
    hide TableAdvances;
    OthersRemain(was, db);
  }

  // ── What is counted ───────────────────────────────────────────────────

  /** Whether the sweeper counts a step of its own: an expiry when it moved the row, an answer when it did not raise. */
  predicate Counts(db: Db, s: Step) {
    match s
    case Make(id, Expire) => TryMove(db, id, Expire).Moved?
    case Make(_, NotAccepted) => true
    case Decided(id, actor, approve, seen) => !Decide(db, id, actor, approve, seen).Violation?
    case _ => false
  }

  /** Whether it moved the row. */
  predicate Moves(db: Db, s: Step) {
    && About(s).Some? && About(s).value in db.rows && About(s).value in After(db, s).rows
    && After(db, s).rows[About(s).value].status != db.rows[About(s).value].status
  }

  /** A T2 approval that the two-person rule refuses. */
  predicate RefusedToTheAuthor(row: Row, s: Step) {
    s.Decided? && s.approve && row.what.tier == T2 && (row.what.author == "" || row.what.author == s.actor)
  }

  /**
   An answer of ServiceNow is refused that way exactly when the approver's name there makes the author: an
   author with an account of an identity provider called `servicenow`.
   */
  lemma AnswersAreRefusedExactlyWhen(id: Id, row: Row, found: Found, email: string)
    requires row.what.author == "" ==> email == ""
    ensures var s := Applied(id, row, found, email);
            RefusedToTheAuthor(row, s) <==>
              && s.Decided? && found.state == Agreed && row.what.tier == T2
              && row.what.author == "user:servicenow|" + found.approver
  {
  }

  /** A counted step moved its row exactly when the row was still pending and the decision was not refused. */
  lemma CountedIsMovedExactlyWhen(db: Db, s: Step, id: Id)
    requires TableInv(db) && id in db.rows && About(s) == Some(id) && Counts(db, s)
    requires s.Decided? ==> s.seen == Some(db.rows[id].what.actionHash)
    ensures Moves(db, s) <==>
              db.rows[id].status == Pending && !(RefusedToTheAuthor(db.rows[id], s) && !Overdue(db.rows[id], db.now))
  {
    hide Legal;
    assert RowInv(db.rows[id], db.now);
    if s.Make? {
      MovesNeverViolate(db, id, s.move);
    }
  }

  /** How many of these steps of a history are counted, each in the world it was taken in. */
  function Tallied(h: History, own: seq<nat>): nat
    requires forall i | 0 <= i < |own| :: own[i] < |h.trace|
  {
    if own == [] then 0
    else
      var n := own[|own| - 1];
      Tallied(h, own[..|own| - 1]) + if Counts(Run(h.start, h.trace[..n]).db, h.trace[n]) then 1 else 0
  }

  lemma {:induction false} TalliedStays(h: History, h': History, own: seq<nat>)
    requires h.start == h'.start && h.trace <= h'.trace && forall i | 0 <= i < |own| :: own[i] < |h.trace|
    ensures (forall i | 0 <= i < |own| :: own[i] < |h'.trace|) && Tallied(h', own) == Tallied(h, own)
  {
    hide Counts;
    if own != [] {
      var n := own[|own| - 1];
      assert h'.trace[..n] == h.trace[..n];
      TalliedStays(h, h', own[..|own| - 1]);
    }
  }

  lemma {:induction false} TalliedSum(h: History, a: seq<nat>, b: seq<nat>)
    requires forall i | 0 <= i < |a| :: a[i] < |h.trace|
    requires forall i | 0 <= i < |b| :: b[i] < |h.trace|
    ensures forall i | 0 <= i < |a + b| :: (a + b)[i] < |h.trace|
    ensures Tallied(h, a + b) == Tallied(h, a) + Tallied(h, b)
    decreases |b|
  {
    hide Counts;
    if b == [] {
      assert a + b == a;
    } else {
      assert (a + b)[..|a + b| - 1] == a + b[..|b| - 1];
      TalliedSum(h, a, b[..|b| - 1]);
    }
  }

  // ── What a sweep leaves in the history ────────────────────────────────

  /** Since `a` this worker took one step, and it is the last of the trace. */
  ghost predicate TookOne(a: History, b: History, s: Step) {
    |a.trace| < |b.trace| && b.trace[|b.trace| - 1] == s && OwnSteps(a, b) == [|b.trace| - 1]
  }

  /** The last step is one that is counted, in the world it was taken in. */
  ghost predicate LastCounts(h: History) {
    h.trace != [] && Counts(Run(h.start, h.trace[..|h.trace| - 1]).db, h.trace[|h.trace| - 1])
  }

  lemma OneStepWasTaken(h: History, s: Step, w: World)
    requires w == Run(h.start, h.trace)
    ensures TookOne(h, Stepping(h, s), s) && (LastCounts(Stepping(h, s)) <==> Counts(w.db, s))
  {
    hide Counts, Run;
    assert (h.trace + [s])[..|h.trace|] == h.trace;
  }

  lemma OneAfterNone(a: History, b: History, c: History, s: Step)
    requires Later(a, b) && Later(b, c) && OwnSteps(a, b) == [] && TookOne(b, c, s)
    ensures Later(a, c) && New(a, c) == New(a, b) + New(b, c) && TookOne(a, c, s)
  {
    LaterOnce(a, b, c);
  }

  lemma QuietHasNoSteps(a: History, b: History)
    requires Quiet(a, b)
    ensures Later(a, b) && New(a, b) == [] && OwnSteps(a, b) == []
  {
  }

  /** ServiceNow was asked once, the email looked up if it matters, and the answer applied, if there was one. */
  ghost predicate Collected(a: History, b: History, id: Id, row: Row, counted: bool) {
    var es := New(a, b);
    && es != [] && es[0].asked == ChangeApproval(id)
    && match es[0].answer.found
       case None => |es| == 1 && OwnSteps(a, b) == [] && !counted
       case Some(found) =>
         if found.state == NoAnswer then |es| == 1 && OwnSteps(a, b) == [] && !counted
         else if EmailIsRead(row, found) then
           && |es| == 2 && es[1].asked == AuthorEmail(row.what.author)
           && TookOne(a, b, Applied(id, row, found, EmailOf(row, es[1]))) && (counted <==> LastCounts(b))
         else |es| == 1 && TookOne(a, b, Applied(id, row, found, "")) && (counted <==> LastCounts(b))
  }

  /** Where the email is not looked up it does not matter. */
  lemma EmailDoesNotMatter(id: Id, row: Row, found: Found, email: string)
    requires !EmailIsRead(row, found)
    ensures Applied(id, row, found, email) == Applied(id, row, found, "")
  {
  }

  /** Every one of these steps is one that a sweep of the table `seen` may take after these questions. */
  ghost predicate AllSweeps(seen: Db, es: seq<Entry>, h: History, own: seq<nat>) {
    forall i | 0 <= i < |own| :: own[i] < |h.trace| && SweepStep(seen, h.trace[own[i]], es)
  }

  lemma SweepStepStays(seen: Db, s: Step, es: seq<Entry>, all: seq<Entry>)
    requires SweepStep(seen, s, es) && forall e | e in es :: e in all
    ensures SweepStep(seen, s, all)
  {
    hide Overdue, Collectable, EmailIsRead, EmailOf, Applied;
    var id := About(s).value;
    var row := seen.rows[id];
    if !Overdue(row, seen.now) {
      var e :| e in es && LedTo(id, row, s, es, e);
      assert LedTo(id, row, s, all, e);
    }
  }

  /** What one more request adds to the count. */
  lemma OneMoreSwept(seen: Db, a: History, b: History, c: History, n: nat, m: nat)
    requires Later(a, b) && Later(b, c)
    requires AllSweeps(seen, New(a, b), b, OwnSteps(a, b)) && AllSweeps(seen, New(b, c), c, OwnSteps(b, c))
    requires n == Tallied(b, OwnSteps(a, b)) && m == Tallied(c, OwnSteps(b, c))
    ensures AllSweeps(seen, New(a, c), c, OwnSteps(a, c)) && Tallied(c, OwnSteps(a, c)) == n + m
  {
    hide SweepStep, Tallied;
    LaterOnce(a, b, c);
    LaterKeepsLog(b, c);
    TalliedStays(b, c, OwnSteps(a, b));
    TalliedSum(c, OwnSteps(a, b), OwnSteps(b, c));
    var own := OwnSteps(a, c);
    forall i | 0 <= i < |own|
      ensures own[i] < |c.trace| && SweepStep(seen, c.trace[own[i]], New(a, c))
    {
      if i < |OwnSteps(a, b)| {
        assert own[i] == OwnSteps(a, b)[i] && c.trace[own[i]] == b.trace[own[i]];
        SweepStepStays(seen, c.trace[own[i]], New(a, b), New(a, c));
      } else {
        assert own[i] == OwnSteps(b, c)[i - |OwnSteps(a, b)|];
        SweepStepStays(seen, c.trace[own[i]], New(b, c), New(a, c));
      }
    }
  }

  lemma OneSwept(seen: Db, es: seq<Entry>, a: History, b: History, s: Step)
    requires TookOne(a, b, s) && SweepStep(seen, s, es)
    ensures AllSweeps(seen, es, b, OwnSteps(a, b))
    ensures Tallied(b, OwnSteps(a, b)) == if LastCounts(b) then 1 else 0
  {
    hide SweepStep, Counts;
    assert OwnSteps(a, b)[..0] == [];
  }

  lemma NothingTaken(h: History)
    ensures OwnSteps(h, h) == []
  {
  }

  lemma CollectedIsSwept(seen: Db, a: History, b: History, id: Id, counted: bool)
    requires Polls(seen, id) && Collected(a, b, id, seen.rows[id], counted)
    ensures AllSweeps(seen, New(a, b), b, OwnSteps(a, b))
    ensures Tallied(b, OwnSteps(a, b)) == if counted then 1 else 0
    ensures AskedAbout(New(a, b), id) && AskedOnly(seen, true, New(a, b))
  {
    hide TookOne, LastCounts, AllSweeps, Tallied, Applied, EmailIsRead, EmailOf, OwnSteps, New, Overdue;
    var row, es := seen.rows[id], New(a, b);
    assert es[0] in es;
    if es[0].answer.found.None? || es[0].answer.found.value.state == NoAnswer {
      NothingSwept(seen, a, b);
    } else {
      var found := es[0].answer.found.value;
      var email := if EmailIsRead(row, found) then EmailOf(row, es[1]) else "";
      var s := Applied(id, row, found, email);
      AppliedIsAbout(id, row, found, email);
      assert EmailIsRead(row, found) ==> es[1] in es;
      assert LedTo(id, row, s, es, es[0]);
      OneSwept(seen, es, a, b, s);
    }
  }

  lemma AppliedIsAbout(id: Id, row: Row, found: Found, email: string)
    ensures About(Applied(id, row, found, email)) == Some(id)
  {
  }

  lemma NothingSwept(seen: Db, a: History, b: History)
    requires OwnSteps(a, b) == []
    ensures AllSweeps(seen, New(a, b), b, OwnSteps(a, b)) && Tallied(b, OwnSteps(a, b)) == 0
  {
  }
}
