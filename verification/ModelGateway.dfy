/**
 The only way to a model provider, as ai/gateway.py takes it: check the schema, check the policy
 and the budgets, call, validate, record. Between any two of these every other worker may act.
 What the provider answers, and whether it answers at all, is a script fixed beforehand.
 */
module ModelGateway {
  import opened Wrappers
  import Json
  import opened AnswerSchema
  import opened ModelBudget

  const CHARS_PER_TOKEN: nat := 3

  /** A deliberately high estimate of tokens from characters: more than three characters never make one token. */
  function EstimateTokens(chars: nat): (tokens: nat)
    ensures 3 * (tokens - 1) <= chars < 3 * tokens
  {
    chars / CHARS_PER_TOKEN + 1
  }

  /** What comes back: the arguments of the call, if there was one, their length as text, and the use reported. */
  datatype Completion = Completion(
    arguments: Option<Json.Value>, chars: nat, inputTokens: Option<nat>, outputTokens: Option<nat>)

  /** A step of some other request, or of the clock or the policy. */
  predicate Foreign(s: ModelBudget.Step, id: nat) {
    match s
    case Check(i, _) => i != id
    case Record(i, _, _, _) => i != id
    case RecordOver(i) => i != id
    case Die(i) => i != id
    case _ => true
  }

  /** Rows were only added, and none of them for this request. */
  predicate NoRow(before: seq<Call>, after: seq<Call>, id: nat) {
    before <= after && forall j | |before| <= j < |after| :: after[j].id != id
  }

  /** Rows were only added, and exactly one of them for this request. */
  predicate OneRow(before: seq<Call>, after: seq<Call>, id: nat, k: nat) {
    before <= after && |before| <= k < |after| && forall j | |before| <= j < |after| :: after[j].id == id <==> j == k
  }

  predicate SameRequest(w: World, w': World, id: nat) {
    && (id in w.flight <==> id in w'.flight) && (id in w.flight ==> w'.flight[id] == w.flight[id])
    && (id in w.over <==> id in w'.over) && (id in w.over ==> w'.over[id] == w.over[id])
    && NoRow(w.calls, w'.calls, id)
  }

  lemma OthersLeaveTheRequest(w: World, s: ModelBudget.Step, id: nat)
    requires Foreign(s, id)
    ensures SameRequest(w, ModelBudget.Apply(w, s), id)
  {
    hide Refuse, ReadPolicy;
  }

  lemma {:induction false} OthersLeaveTheRequestAlways(w: World, steps: seq<ModelBudget.Step>, id: nat)
    requires forall s | s in steps :: Foreign(s, id)
    ensures SameRequest(w, ModelBudget.Run(w, steps), id)
    decreases |steps|
  {
    hide ModelBudget.Apply, Foreign;
    if steps != [] {
      OthersLeaveTheRequest(w, steps[0], id);
      OthersLeaveTheRequestAlways(ModelBudget.Apply(w, steps[0]), steps[1..], id);
    }
  }

  lemma RowsCompose(a: seq<Call>, b: seq<Call>, c: seq<Call>, id: nat, k: nat)
    requires NoRow(a, b, id)
    ensures OneRow(b, c, id, k) ==> OneRow(a, c, id, k)
    ensures NoRow(b, c, id) ==> NoRow(a, c, id)
  {
    if b <= c {
      assert forall j | 0 <= j < |b| :: c[j] == b[j];
    }
  }

  class Gateway {
    const provider: Option<Provider>
    const price: (nat, nat) -> nat
    const fits: Fullmatch
    /** What the provider answers to the requests that reach it, in order; None: it fails or is too slow. */
    const script: nat -> Option<Completion>
    var calls: seq<Call>
    var policy: Option<ModelPolicy>
    var now: Time
    var flight: map<nat, Ask>
    var over: map<nat, Ask>
    var sent: seq<Ask>
    var asked: nat
    ghost var start: World
    ghost var trace: seq<ModelBudget.Step>

    constructor (
        provider: Option<Provider>, price: (nat, nat) -> nat, fits: Fullmatch, script: nat -> Option<Completion>,
        policy: Option<ModelPolicy>, now: Time)
      ensures Valid() && trace == [] && asked == 0
      ensures this.provider == provider && this.price == price && this.fits == fits && this.script == script
      ensures start == World([], map[], map[], [], policy, now)
    {
      this.provider, this.price, this.fits, this.script := provider, price, fits, script;
      this.policy, this.now := policy, now;
      calls, flight, over, sent, asked := [], map[], map[], [], 0;
      start := World([], map[], map[], [], policy, now);
      trace := [];
    }

    function W(): World
      reads this
    {
      World(calls, flight, over, sent, policy, now)
    }

    /** The world is one that the steps in `trace` lead to from an empty record. */
    ghost predicate Valid()
      reads this
    {
      ModelBudget.Initial(start) && W() == ModelBudget.Run(start, trace)
    }

    ghost method Stepped(w: World, s: ModelBudget.Step)
      requires ModelBudget.Initial(start) && w == ModelBudget.Run(start, trace) && W() == ModelBudget.Apply(w, s)
      modifies this`trace
      ensures Valid() && trace == old(trace) + [s]
    {
      hide ModelBudget.Apply;
      ModelBudget.RunsCompose(start, trace, [s]);
      assert [s][1..] == [];
      trace := trace + [s];
    }

    /** Any number of steps of others. */
    method Others(id: nat)
      requires Valid()
      modifies this
      ensures Valid() && SameRequest(old(W()), W(), id)
      ensures start == old(start) && old(trace) <= trace && asked == old(asked)
    {
      hide SameRequest, Foreign, ModelBudget.Apply;
      var steps: seq<ModelBudget.Step> := *;
      if forall s | s in steps :: Foreign(s, id) {
        OthersLeaveTheRequestAlways(W(), steps, id);
        ModelBudget.RunsCompose(start, trace, steps);
        var next := ModelBudget.Run(W(), steps);
        calls, flight, over, sent, policy, now := next.calls, next.flight, next.over, next.sent, next.policy, next.now;
        trace := trace + steps;
      } else {
        OthersLeaveTheRequestAlways(W(), [], id);
      }
    }

    /** Reads the policy and the record each time: no cache. A request that may go ahead is under way from here. */
    method Decide(id: nat, a: Ask) returns (verdict: Refusal)
      requires Valid() && id !in flight && id !in over
      modifies this
      ensures Valid() && start == old(start) && trace == old(trace) + [Check(id, a)] && asked == old(asked)
      ensures verdict == Refuse(ReadPolicy(old(policy)), old(calls), a, old(now))
      ensures W() == ModelBudget.Apply(old(W()), Check(id, a))
    {
      hide Permits, RunSpent, Spent;
      ghost var w := W();
      var inForce := ReadPolicy(policy);
      var reason := Permits(inForce, a.provider, a.task);
      if reason.Some? {
        verdict := NotPermitted(reason.value);
      } else if a.run.Some? && Stopped(calls, a.run.value) {
        verdict := AlreadyExceeded;
      } else {
        var runTokens, runCost := RunSpent(a.run, Tokens, calls, now), RunSpent(a.run, Cost, calls, now);
        var dayTokens, dayCost := Spent(OfDay(Tokens), calls, now), Spent(OfDay(Cost), calls, now);
        if runTokens + a.tokens > inForce.incidentTokens {
          verdict := Over(IncidentTokens);
        } else if dayTokens + a.tokens > inForce.dailyTokens {
          verdict := Over(DailyTokens);
        } else if inForce.incidentCost.Some? && runCost + a.cost > inForce.incidentCost.value {
          verdict := Over(IncidentCost);
        } else if inForce.dailyCost.Some? && dayCost + a.cost > inForce.dailyCost.value {
          verdict := Over(DailyCost);
        } else {
          verdict := Allowed;
        }
      }
      if verdict.Allowed? {
        flight := flight[id := a];
        sent := sent + [a];
      } else if verdict.Over? {
        over := over[id := a];
      }
      Stepped(w, Check(id, a));
    }

    /** Record what a request used. */
    method RecordCall(id: nat, tokens: nat, outcome: Outcome, cost: nat)
      requires Valid() && id in flight && outcome != OverBudget
      modifies this
      ensures Valid() && start == old(start) && old(trace) <= trace && asked == old(asked)
      ensures calls == old(calls) + [Call(id, old(flight)[id], tokens, cost, outcome, old(now))]
      ensures W() == ModelBudget.Apply(old(W()), Record(id, tokens, cost, outcome))
    {
      ghost var w := W();
      calls := calls + [Call(id, flight[id], tokens, cost, outcome, now)];
      flight := flight - {id};
      Stepped(w, Record(id, tokens, cost, outcome));
    }

    /** Record that a budget ended the run's part: no tokens, no cost. */
    method RecordOverBudget(id: nat)
      requires Valid() && id in over
      modifies this
      ensures Valid() && start == old(start) && old(trace) <= trace && asked == old(asked)
      ensures calls == old(calls) + [Call(id, old(over)[id], 0, 0, OverBudget, old(now))]
      ensures W() == ModelBudget.Apply(old(W()), RecordOver(id))
    {
      ghost var w := W();
      calls := calls + [Call(id, over[id], 0, 0, OverBudget, now)];
      over := over - {id};
      Stepped(w, RecordOver(id));
    }

    /** What a call is recorded as having used: what the provider reports, or the estimate. */
    function InputUsed(estimate: nat, c: Completion): nat {
      if c.inputTokens.Some? then c.inputTokens.value else estimate
    }

    function OutputUsed(c: Completion): nat {
      if c.outputTokens.Some? then c.outputTokens.value
      else EstimateTokens(if c.arguments.Some? then c.chars else 0)
    }

    /** The answer that is handed on: what came back, if it fits the schema everywhere. */
    ghost predicate Answers(parameters: Schema, back: Option<Completion>, answer: Option<Json.Value>)
      requires Checked(parameters)
    {
      && (answer.Some? <==>
            back.Some? && back.value.arguments.Some? && Conforms(fits, parameters, back.value.arguments.value))
      && (answer.Some? ==> answer == back.value.arguments && Size(answer.value) <= Bound(parameters))
    }

    /** What a request that was sent is recorded as: the use reported or estimated, and what became of it. */
    predicate Accounts(row: Call, a: Ask, estimate: nat, back: Option<Completion>, answered: bool) {
      && row.ask == a
      && match back
         case None =>
           row.outcome == Failed && row.tokens == estimate && row.cost == price(estimate, 0)
         case Some(c) =>
           && row.outcome == (if answered then Answered else Invalid)
           && var input := if c.inputTokens.Some? then c.inputTokens.value else estimate;
              var written := if c.arguments.Some? then c.chars else 0;
              var output := if c.outputTokens.Some? then c.outputTokens.value else EstimateTokens(written);
              row.tokens == input + output && row.cost == price(input, output)
    }

    /** Send a request that may go ahead, validate what comes back and record it. */
    method Send(id: nat, a: Ask, estimate: nat, parameters: Schema) returns (answer: Option<Json.Value>, ghost k: nat)
      requires Valid() && id in flight && flight[id] == a && Checked(parameters)
      modifies this
      ensures Valid() && start == old(start) && old(trace) <= trace
      ensures asked == old(asked) + 1 && Answers(parameters, script(old(asked)), answer)
      ensures OneRow(old(calls), calls, id, k) && Accounts(calls[k], a, estimate, script(old(asked)), answer.Some?)
    {
      hide ModelBudget.Apply, Checked, Conforms, Size, Bound, OneRow, NoRow;
      ghost var first := calls;
      var completion := script(asked);
      asked := asked + 1;
      Others(id);
      ghost var before := calls;
      k := |before|;
      match completion {
        case None =>
          RecordCall(id, estimate, Failed, price(estimate, 0));
          answer := None;
        case Some(c) =>
          answer := c.arguments;
          if answer.Some? {
            var found := Validate(fits, parameters, answer.value, []);
            if found != {} {
              answer := None;
            }
          }
          var input, output := InputUsed(estimate, c), OutputUsed(c);
          RecordCall(id, input + output, if answer.Some? then Answered else Invalid, price(input, output));
      }
      OneMoreRow(before, calls[k], id);
      RowsCompose(first, before, calls, id, k);
    }

    /** What a request leaves behind: exactly one row that says so when it was sent or over budget, else none. */
    ghost predicate Ended(
        verdict: Refusal, id: nat, a: Ask, estimate: nat, parameters: Schema, back: Option<Completion>,
        answer: Option<Json.Value>, before: seq<Call>, after: seq<Call>, k: nat)
      requires Checked(parameters)
    {
      match verdict
      case Allowed =>
        && Answers(parameters, back, answer)
        && OneRow(before, after, id, k) && Accounts(after[k], a, estimate, back, answer.Some?)
      case Over(_) =>
        && answer.None?
        && OneRow(before, after, id, k) && after[k].ask == a
        && after[k].outcome == OverBudget && after[k].tokens == 0 && after[k].cost == 0
      case _ => answer.None? && NoRow(before, after, id)
    }

    /**
     Ask the model one question: the validated answer, or None. The n-th step of the trace is this
     request's check, and what became of it follows from the world that step was taken in.
     */
    method AskModel(id: nat, run: Option<nat>, task: string, chars: nat, parameters: Schema, maxOutput: nat)
      returns (answer: Option<Json.Value>, ghost n: nat, ghost k: nat)
      requires Valid() && id !in flight && id !in over
      modifies this
      ensures Valid() && start == old(start) && old(trace) <= trace
      ensures provider.None? || !Checked(parameters) ==> answer.None? && W() == old(W()) && asked == old(asked)
      ensures provider.Some? && Checked(parameters) ==>
                var a := Request(run, task, chars, maxOutput);
                && a.run == run && a.task == task && a.provider == provider.value
                && a.tokens == EstimateTokens(chars) + maxOutput && a.cost == price(EstimateTokens(chars), maxOutput)
                && |old(trace)| <= n < |trace| && trace[n] == Check(id, a)
                && var at := ModelBudget.Run(start, trace[..n]);
                   var verdict := Refuse(ReadPolicy(at.policy), at.calls, a, at.now);
                   && asked == old(asked) + (if verdict.Allowed? then 1 else 0)
                   && (asked > old(asked) ==> IsPermitted(ReadPolicy(at.policy), provider.value, task))
                   && (!IsPermitted(ReadPolicy(at.policy), provider.value, task) ==> verdict.NotPermitted?)
                   && Ended(verdict, id, a, EstimateTokens(chars), parameters, script(old(asked)), answer,
                            old(calls), calls, k)
    {
      hide ModelBudget.Apply, Refuse, IsPermitted, ReadPolicy, Checked, Conforms, Size, Bound, Ended, NoRow;
      answer, n, k := None, 0, 0;
      if provider.None? {
        return;
      }
      var ok := CheckSchema(parameters);
      if !ok {
        return;
      }
      var estimate := EstimateTokens(chars);
      var a := Request(run, task, chars, maxOutput);
      ghost var first := calls;
      Others(id);
      ghost var at, until := W(), trace;
      n := |trace|;
      CheckOutcome(at, id, a);
      SentIsPermitted(ReadPolicy(at.policy), at.calls, a, at.now);
      var verdict := Decide(id, a);
      ghost var decided := calls;
      answer, k := Carry(id, a, estimate, parameters, verdict);
      EndedSince(verdict, id, a, estimate, parameters, script(old(asked)), answer, first, decided, calls, k);
      assert trace[..n] == until;
    }

    /** Send what may go ahead, and record what a budget stopped. */
    method Carry(id: nat, a: Ask, estimate: nat, parameters: Schema, verdict: Refusal)
      returns (answer: Option<Json.Value>, ghost k: nat)
      requires Valid() && Checked(parameters)
      requires verdict.Allowed? ==> id in flight && flight[id] == a
      requires verdict.Over? ==> id in over && over[id] == a
      modifies this
      ensures Valid() && start == old(start) && old(trace) <= trace
      ensures asked == old(asked) + (if verdict.Allowed? then 1 else 0)
      ensures Ended(verdict, id, a, estimate, parameters, script(old(asked)), answer, old(calls), calls, k)
    {
      hide ModelBudget.Apply, Refuse, Checked, Conforms, Size, Bound, OneRow, NoRow, Answers, Accounts;
      answer, k := None, 0;
      ghost var first := calls;
      if verdict.Over? {
        Others(id);
        ghost var before := calls;
        k := |calls|;
        RecordOverBudget(id);
        OneMoreRow(before, calls[k], id);
        RowsCompose(first, before, calls, id, k);
      } else if verdict.Allowed? {
        answer, k := Send(id, a, estimate, parameters);
      } else {
        NoMoreRows(calls, id);
      }
    }

    lemma EndedSince(
        verdict: Refusal, id: nat, a: Ask, estimate: nat, parameters: Schema, back: Option<Completion>,
        answer: Option<Json.Value>, first: seq<Call>, before: seq<Call>, after: seq<Call>, k: nat)
      requires Checked(parameters) && NoRow(first, before, id)
      requires Ended(verdict, id, a, estimate, parameters, back, answer, before, after, k)
      ensures Ended(verdict, id, a, estimate, parameters, back, answer, first, after, k)
    {
      hide Checked, Answers, Accounts;
      RowsCompose(first, before, after, id, k);
    }

    /** The request as it is estimated before anything is sent. */
    function Request(run: Option<nat>, task: string, chars: nat, maxOutput: nat): Ask
      requires provider.Some?
    {
      Ask(run, task, provider.value, EstimateTokens(chars) + maxOutput, price(EstimateTokens(chars), maxOutput))
    }

    /** A request that was not heard of uses no more than its estimate, where prices are not negative. */
    lemma LostRequestsStayWithinTheirEstimate(row: Call, run: Option<nat>, task: string, chars: nat, maxOutput: nat)
      requires provider.Some? && forall i, o :: price(i, 0) <= price(i, o)
      requires Accounts(row, Request(run, task, chars, maxOutput), EstimateTokens(chars), None, false)
      ensures row.tokens <= row.ask.tokens && row.cost <= row.ask.cost
    {
      assert price(EstimateTokens(chars), 0) <= price(EstimateTokens(chars), maxOutput);
    }
  }

  lemma OneMoreRow(before: seq<Call>, row: Call, id: nat)
    requires row.id == id
    ensures OneRow(before, before + [row], id, |before|)
  {
  }

  lemma NoMoreRows(calls: seq<Call>, id: nat)
    ensures NoRow(calls, calls, id)
  {
  }

  lemma CheckOutcome(w: World, id: nat, a: Ask)
    requires id !in w.flight && id !in w.over
    ensures var w' := ModelBudget.Apply(w, Check(id, a));
            && w'.calls == w.calls
            && match Refuse(ReadPolicy(w.policy), w.calls, a, w.now)
               case Allowed => id in w'.flight && w'.flight[id] == a
               case Over(_) => id in w'.over && w'.over[id] == a
               case _ => true
  {
    hide Refuse;
  }
}
