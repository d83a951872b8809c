/**
 The model budgets: who may ask, what is counted, and how far the record of use can go past a
 budget when several requests are under way at once. Checking, calling and recording are separate
 steps of any number of workers.
 */
module ModelBudget {
  import opened Wrappers

  type Time = nat
  const DAY: nat := 86400

  // ── The tenant's model policy ─────────────────────────────────────────

  datatype ModelPolicy = ModelPolicy(
    enabled: bool, providers: set<string>, tasks: set<string>, regions: set<string>, maxRetention: Option<nat>,
    incidentTokens: nat, dailyTokens: nat, incidentCost: Option<nat>, dailyCost: Option<nat>)

  const OFF: ModelPolicy := ModelPolicy(false, {}, {}, {}, None, 20000, 1000000, None, None)

  /** No stored policy, or one that this version cannot read, switches the model off. */
  function ReadPolicy(stored: Option<ModelPolicy>): ModelPolicy {
    if stored.Some? then stored.value else OFF
  }

  /** A provider as the operator declared it; the region in lower case, empty when not stated. */
  datatype Provider = Provider(id: string, region: string, retention: Option<nat>)

  datatype Reason = ModelOff | TaskNotEnabled | ProviderNotAllowed | RegionNotAllowed | RetentionNotAllowed

  /** Why this tenant may not use this provider for this task, or None when it may. */
  function Permits(policy: ModelPolicy, provider: Provider, task: string): Option<Reason> {
    if !policy.enabled then Some(ModelOff)
    else if task !in policy.tasks then Some(TaskNotEnabled)
    else if provider.id !in policy.providers then Some(ProviderNotAllowed)
    else if policy.regions != {} && provider.region !in policy.regions then Some(RegionNotAllowed)
    else if policy.maxRetention.Some? && (provider.retention.None? || provider.retention.value > policy.maxRetention.value)
    then Some(RetentionNotAllowed)
    else None
  }

  // ── The record of calls ───────────────────────────────────────────────

  datatype Outcome = Answered | Invalid | Failed | OverBudget

  /** What a request may use, estimated before it is sent. */
  datatype Ask = Ask(run: Option<nat>, task: string, provider: Provider, tokens: nat, cost: nat)

  /** One recorded call. `id` and `ask` are the request it was for, with its estimate. */
  datatype Call = Call(id: nat, ask: Ask, tokens: nat, cost: nat, outcome: Outcome, at: Time)

  datatype Unit = Tokens | Cost

  /** What is metered: one run or the tenant's day, in tokens or in money. */
  datatype Meter = OfRun(run: nat, what: Unit) | OfDay(what: Unit)
  {
    predicate Covers(run: Option<nat>) {
      OfRun? ==> run == Some(this.run)
    }

    predicate Counts(c: Call, now: Time) {
      Covers(c.ask.run) && (OfDay? ==> c.at >= StartOfDay(now))
    }

    function Used(c: Call): nat { if what.Tokens? then c.tokens else c.cost }

    function Needs(a: Ask): nat { if what.Tokens? then a.tokens else a.cost }

    /** How far a recorded call went past its own estimate. */
    function Excess(c: Call): nat { if Used(c) > Needs(c.ask) then Used(c) - Needs(c.ask) else 0 }

    function Limit(p: ModelPolicy): Option<nat> {
      match this
      case OfRun(_, Tokens) => Some(p.incidentTokens)
      case OfDay(Tokens) => Some(p.dailyTokens)
      case OfRun(_, Cost) => p.incidentCost
      case OfDay(Cost) => p.dailyCost
    }
  }

  /** Midnight UTC. */
  function StartOfDay(now: Time): Time { now - now % DAY }

  function Spent(m: Meter, calls: seq<Call>, now: Time): nat {
    if calls == [] then 0
    else
      var last := calls[|calls| - 1];
      Spent(m, calls[..|calls| - 1], now) + if m.Counts(last, now) then m.Used(last) else 0
  }

  function Overrun(m: Meter, calls: seq<Call>, now: Time): nat {
    if calls == [] then 0
    else
      var last := calls[|calls| - 1];
      Overrun(m, calls[..|calls| - 1], now) + if m.Counts(last, now) then m.Excess(last) else 0
  }

  predicate Stopped(calls: seq<Call>, run: nat) {
    exists c | c in calls :: c.ask.run == Some(run) && c.outcome == OverBudget
  }

  // ── The check before a request ────────────────────────────────────────

  datatype Budget = IncidentTokens | DailyTokens | IncidentCost | DailyCost

  datatype Refusal = Allowed | NotPermitted(reason: Reason) | AlreadyExceeded | Over(budget: Budget)

  function RunSpent(run: Option<nat>, what: Unit, calls: seq<Call>, now: Time): nat {
    if run.Some? then Spent(OfRun(run.value, what), calls, now) else 0
  }

  /** Why not, and which budget. A request outside any run is held to the incident budget alone. */
  function Refuse(policy: ModelPolicy, calls: seq<Call>, a: Ask, now: Time): Refusal {
    var reason := Permits(policy, a.provider, a.task);
    if reason.Some? then NotPermitted(reason.value)
    else if a.run.Some? && Stopped(calls, a.run.value) then AlreadyExceeded
    else if RunSpent(a.run, Tokens, calls, now) + a.tokens > policy.incidentTokens then Over(IncidentTokens)
    else if Spent(OfDay(Tokens), calls, now) + a.tokens > policy.dailyTokens then Over(DailyTokens)
    else if policy.incidentCost.Some? && RunSpent(a.run, Cost, calls, now) + a.cost > policy.incidentCost.value
    then Over(IncidentCost)
    else if policy.dailyCost.Some? && Spent(OfDay(Cost), calls, now) + a.cost > policy.dailyCost.value
    then Over(DailyCost)
    else Allowed
  }

  /** The policy permits the provider for the task: on, naming both, in a region and with a retention it accepts. */
  predicate IsPermitted(policy: ModelPolicy, provider: Provider, task: string) {
    && policy.enabled
    && task in policy.tasks
    && provider.id in policy.providers
    && (policy.regions == {} || provider.region in policy.regions)
    && (policy.maxRetention.Some? ==>
          provider.retention.Some? && provider.retention.value <= policy.maxRetention.value)
  }

  /** What the policy does not permit is refused, and the first thing it does not permit is the reason. */
  lemma PermittedExactlyWhen(policy: ModelPolicy, calls: seq<Call>, a: Ask, now: Time)
    ensures var refusal := Refuse(policy, calls, a, now);
            if !policy.enabled then refusal == NotPermitted(ModelOff)
            else if a.task !in policy.tasks then refusal == NotPermitted(TaskNotEnabled)
            else if a.provider.id !in policy.providers then refusal == NotPermitted(ProviderNotAllowed)
            else if policy.regions != {} && a.provider.region !in policy.regions
            then refusal == NotPermitted(RegionNotAllowed)
            else if policy.maxRetention.Some? && a.provider.retention.None?
            then refusal == NotPermitted(RetentionNotAllowed)
            else if policy.maxRetention.Some? && policy.maxRetention.value < a.provider.retention.value
            then refusal == NotPermitted(RetentionNotAllowed)
            else !refusal.NotPermitted? && IsPermitted(policy, a.provider, a.task)
    ensures !Refuse(policy, calls, a, now).NotPermitted? <==> IsPermitted(policy, a.provider, a.task)
    ensures !IsPermitted(ReadPolicy(None), a.provider, a.task) && ReadPolicy(Some(policy)) == policy
  {
    hide Spent, RunSpent, Stopped;
  }

  lemma SentIsPermitted(policy: ModelPolicy, calls: seq<Call>, a: Ask, now: Time)
    ensures Refuse(policy, calls, a, now) == Allowed ==> IsPermitted(policy, a.provider, a.task)
    ensures !IsPermitted(policy, a.provider, a.task) ==> Refuse(policy, calls, a, now).NotPermitted?
  {
    PermittedExactlyWhen(policy, calls, a, now);
    hide IsPermitted, Refuse;
  }

  /** A request goes ahead exactly when all this holds: the policy, a run no budget has ended, and every budget. */
  lemma AllowedExactlyWhen(policy: ModelPolicy, calls: seq<Call>, a: Ask, now: Time)
    ensures Refuse(policy, calls, a, now) == Allowed <==>
              && policy.enabled && a.task in policy.tasks && a.provider.id in policy.providers
              && (policy.regions == {} || a.provider.region in policy.regions)
              && (policy.maxRetention.Some? ==>
                    a.provider.retention.Some? && a.provider.retention.value <= policy.maxRetention.value)
              && (forall c | c in calls && c.outcome == OverBudget :: a.run.None? || c.ask.run != a.run)
              && a.tokens <= policy.incidentTokens
              && (policy.incidentCost.Some? ==> a.cost <= policy.incidentCost.value)
              && (a.run.Some? ==>
                    && Spent(OfRun(a.run.value, Tokens), calls, now) + a.tokens <= policy.incidentTokens
                    && (policy.incidentCost.Some? ==>
                          Spent(OfRun(a.run.value, Cost), calls, now) + a.cost <= policy.incidentCost.value))
              && Spent(OfDay(Tokens), calls, now) + a.tokens <= policy.dailyTokens
              && (policy.dailyCost.Some? ==> Spent(OfDay(Cost), calls, now) + a.cost <= policy.dailyCost.value)
  {
    hide Spent;
  }

  /** So it has room under every meter that covers it. */
  lemma AllowedHasRoom(policy: ModelPolicy, calls: seq<Call>, a: Ask, now: Time, m: Meter)
    requires Refuse(policy, calls, a, now) == Allowed && m.Covers(a.run) && m.Limit(policy).Some?
    ensures Spent(m, calls, now) + m.Needs(a) <= m.Limit(policy).value
  {
    AllowedExactlyWhen(policy, calls, a, now);
    hide Spent, Refuse;
  }

  /** The budget that is named is the first that has no room. */
  lemma OverExactlyWhen(policy: ModelPolicy, calls: seq<Call>, a: Ask, now: Time)
    requires IsPermitted(policy, a.provider, a.task)
    ensures var refusal := Refuse(policy, calls, a, now);
            var ended := exists c | c in calls :: c.outcome == OverBudget && a.run.Some? && c.ask.run == a.run;
            var tokens := if a.run.Some? then Spent(OfRun(a.run.value, Tokens), calls, now) else 0;
            var cost := if a.run.Some? then Spent(OfRun(a.run.value, Cost), calls, now) else 0;
            if ended then refusal == AlreadyExceeded
            else if tokens + a.tokens > policy.incidentTokens then refusal == Over(IncidentTokens)
            else if Spent(OfDay(Tokens), calls, now) + a.tokens > policy.dailyTokens then refusal == Over(DailyTokens)
            else if policy.incidentCost.Some? && cost + a.cost > policy.incidentCost.value
            then refusal == Over(IncidentCost)
            else if policy.dailyCost.Some? && Spent(OfDay(Cost), calls, now) + a.cost > policy.dailyCost.value
            then refusal == Over(DailyCost)
            else refusal == Allowed
  {
    hide Spent;
  }

  /**
   What a run has spent is the sum over its calls; what a day has, over the calls since its midnight.
   A call adds to the overrun what it used beyond its own estimate.
   */
  lemma SpentIsTheSum(calls: seq<Call>, c: Call, now: Time, run: nat, day: nat)
    requires day * 86400 <= now < (day + 1) * 86400
    ensures forall m: Meter :: Spent(m, [], now) == 0 && Overrun(m, [], now) == 0
    ensures Spent(OfRun(run, Tokens), calls + [c], now) ==
              Spent(OfRun(run, Tokens), calls, now) + if c.ask.run == Some(run) then c.tokens else 0
    ensures Spent(OfRun(run, Cost), calls + [c], now) ==
              Spent(OfRun(run, Cost), calls, now) + if c.ask.run == Some(run) then c.cost else 0
    ensures Spent(OfDay(Tokens), calls + [c], now) ==
              Spent(OfDay(Tokens), calls, now) + if c.at >= day * 86400 then c.tokens else 0
    ensures Spent(OfDay(Cost), calls + [c], now) ==
              Spent(OfDay(Cost), calls, now) + if c.at >= day * 86400 then c.cost else 0
    ensures Overrun(OfRun(run, Tokens), calls + [c], now) == Overrun(OfRun(run, Tokens), calls, now) +
              if c.ask.run == Some(run) && c.tokens > c.ask.tokens then c.tokens - c.ask.tokens else 0
    ensures Overrun(OfRun(run, Cost), calls + [c], now) == Overrun(OfRun(run, Cost), calls, now) +
              if c.ask.run == Some(run) && c.cost > c.ask.cost then c.cost - c.ask.cost else 0
    ensures Overrun(OfDay(Tokens), calls + [c], now) == Overrun(OfDay(Tokens), calls, now) +
              if c.at >= day * 86400 && c.tokens > c.ask.tokens then c.tokens - c.ask.tokens else 0
    ensures Overrun(OfDay(Cost), calls + [c], now) == Overrun(OfDay(Cost), calls, now) +
              if c.at >= day * 86400 && c.cost > c.ask.cost then c.cost - c.ask.cost else 0
  {
    MidnightIsTheStart(now, day);
    assert (calls + [c])[..|calls|] == calls;
  }

  lemma MidnightIsTheStart(now: Time, day: nat)
    requires day * 86400 <= now < (day + 1) * 86400
    ensures StartOfDay(now) == day * 86400
  {
  }

  // ── Any number of workers ─────────────────────────────────────────────

  /** The record, the requests under way, those found over budget and not recorded yet, and those sent so far. */
  datatype World = World(
    calls: seq<Call>, flight: map<nat, Ask>, over: map<nat, Ask>, sent: seq<Ask>,
    policy: Option<ModelPolicy>, now: Time)

  /** `Record` ends a request with what it used; `Die` is a worker that ends without recording. */
  datatype Step =
    | Tick(seconds: nat)
    | SetPolicy(policy: Option<ModelPolicy>)
    | Check(id: nat, ask: Ask)
    | Record(id: nat, tokens: nat, cost: nat, outcome: Outcome)
    | RecordOver(id: nat)
    | Die(id: nat)

  function Apply(w: World, s: Step): World {
    match s
    case Tick(n) => w.(now := w.now + n)
    case SetPolicy(p) => w.(policy := p)
    case Check(id, a) =>
      if id in w.flight || id in w.over then w
      else (
        match Refuse(ReadPolicy(w.policy), w.calls, a, w.now)
        case Allowed => w.(flight := w.flight[id := a], sent := w.sent + [a])
        case Over(_) => w.(over := w.over[id := a])
        case _ => w
      )
    case Record(id, tokens, cost, outcome) =>
      if id in w.flight && outcome != OverBudget
      then w.(calls := w.calls + [Call(id, w.flight[id], tokens, cost, outcome, w.now)], flight := w.flight - {id})
      else w
    case RecordOver(id) =>
      if id in w.over
      then w.(calls := w.calls + [Call(id, w.over[id], 0, 0, OverBudget, w.now)], over := w.over - {id})
      else w
    case Die(id) => w.(flight := w.flight - {id}, over := w.over - {id})
  }

  function Run(w: World, steps: seq<Step>): World
    decreases |steps|
  {
    if steps == [] then w else Run(Apply(w, steps[0]), steps[1..])
  }

  // ── What the requests under way may still use ─────────────────────────

  ghost function Pledged(m: Meter, flight: map<nat, Ask>): nat
    decreases |flight|
  {
    if flight == map[] then 0
    else
      var id :| id in flight;
      Pledged(m, flight - {id}) + if m.Covers(flight[id].run) then m.Needs(flight[id]) else 0
  }

  function Metered(m: Meter, flight: map<nat, Ask>): set<nat> {
    set id | id in flight && m.Covers(flight[id].run)
  }

  function UnderWay(m: Meter, flight: map<nat, Ask>): nat {
    |Metered(m, flight)|
  }

  lemma UnderWayWithout(m: Meter, flight: map<nat, Ask>, id: nat)
    requires id in flight
    ensures UnderWay(m, flight) == UnderWay(m, flight - {id}) + if m.Covers(flight[id].run) then 1 else 0
  {
    var rest := Metered(m, flight - {id});
    assert Metered(m, flight) == if m.Covers(flight[id].run) then rest + {id} else rest;
  }

  lemma {:induction false} PledgedWithout(m: Meter, flight: map<nat, Ask>, id: nat)
    requires id in flight
    ensures Pledged(m, flight) == Pledged(m, flight - {id}) + if m.Covers(flight[id].run) then m.Needs(flight[id]) else 0
    decreases |flight|
  {
    var j :| j in flight
             && Pledged(m, flight) == Pledged(m, flight - {j}) + if m.Covers(flight[j].run) then m.Needs(flight[j]) else 0;
    if j != id {
      PledgedWithout(m, flight - {j}, id);
      PledgedWithout(m, flight - {id}, j);
      assert flight - {j} - {id} == flight - {id} - {j};
    }
  }

  lemma {:induction false} PledgedAtMost(m: Meter, flight: map<nat, Ask>, each: nat)
    requires forall id | id in flight && m.Covers(flight[id].run) :: m.Needs(flight[id]) <= each
    ensures Pledged(m, flight) <= UnderWay(m, flight) * each
    decreases |flight|
  {
    hide Metered, UnderWay;
    if flight != map[] {
      var id :| id in flight;
      var rest := flight - {id};
      PledgedWithout(m, flight, id);
      PledgedAtMost(m, rest, each);
      UnderWayWithout(m, flight, id);
      OneMore(UnderWay(m, rest), UnderWay(m, flight), each);
    }
  }

  lemma OneMore(few: nat, more: nat, each: nat)
    requires few <= more <= few + 1
    ensures more * each == few * each + if more > few then each else 0
  {
    assert (few + 1) * each == few * each + each;
  }

  // ── The bound ─────────────────────────────────────────────────────────

  function Ceiling(budget: nat, k: nat, each: nat): nat
    requires k > 0
  {
    budget + (k - 1) * each
  }

  /** Recorded use and what is under way stay within the bound, but for calls that used more than they were estimated to. */
  ghost predicate MeterInv(w: World, m: Meter, budget: nat, k: nat, each: nat)
    requires k > 0
  {
    && (forall c | c in w.calls :: c.at <= w.now)
    && (forall id | id in w.flight && m.Covers(w.flight[id].run) ::
          m.Needs(w.flight[id]) <= each && m.Needs(w.flight[id]) <= budget)
    && Spent(m, w.calls, w.now) + Pledged(m, w.flight)
       <= Ceiling(budget, k, each) + Overrun(m, w.calls, w.now)
  }

  /** The policy in force sets this budget no higher; a new request is estimated at no more than `each`. */
  predicate Modest(w: World, s: Step, m: Meter, budget: nat, each: nat) {
    && m.Limit(ReadPolicy(w.policy)).Some? && m.Limit(ReadPolicy(w.policy)).value <= budget
    && (s.Check? && m.Covers(s.ask.run) ==> m.Needs(s.ask) <= each)
  }

  lemma RecordedBeforeToday(m: Meter, calls: seq<Call>, now: Time, later: Time)
    requires now <= later && forall c | c in calls :: c.at <= now
    ensures (Spent(m, calls, later) == Spent(m, calls, now) && Overrun(m, calls, later) == Overrun(m, calls, now))
            || Spent(m, calls, later) == 0
  {
    if m.OfRun? || StartOfDay(now) == StartOfDay(later) {
      SameDay(m, calls, now, later);
    } else {
      assert now < StartOfDay(later);
      NothingToday(m, calls, later);
    }
  }

  lemma {:induction false} SameDay(m: Meter, calls: seq<Call>, now: Time, later: Time)
    requires m.OfRun? || StartOfDay(now) == StartOfDay(later)
    ensures Spent(m, calls, later) == Spent(m, calls, now) && Overrun(m, calls, later) == Overrun(m, calls, now)
  {
    if calls != [] {
      SameDay(m, calls[..|calls| - 1], now, later);
    }
  }

  lemma {:induction false} NothingToday(m: Meter, calls: seq<Call>, now: Time)
    requires m.OfDay? && forall c | c in calls :: c.at < StartOfDay(now)
    ensures Spent(m, calls, now) == 0
  {
    if calls != [] {
      assert calls[|calls| - 1] in calls;
      NothingToday(m, calls[..|calls| - 1], now);
    }
  }

  /** Midnight: what was recorded no longer counts, and what is under way fits in the bound. */
  lemma TimePasses(w: World, n: nat, m: Meter, budget: nat, k: nat, each: nat)
    requires k > 0 && MeterInv(w, m, budget, k, each) && UnderWay(m, w.flight) <= k
    ensures MeterInv(w.(now := w.now + n), m, budget, k, each)
  {
    RecordedBeforeToday(m, w.calls, w.now, w.now + n);
    var most := if each < budget then each else budget;
    PledgedAtMost(m, w.flight, most);
    FewFit(UnderWay(m, w.flight), k, most, budget, each);
  }

  lemma FewerTimes(few: nat, k: nat, each: nat)
    requires few <= k
    ensures few * each <= k * each
  {
  }

  lemma TimesLess(k: nat, less: nat, more: nat)
    requires less <= more
    ensures k * less <= k * more
  {
  }

  lemma FewFit(few: nat, k: nat, most: nat, budget: nat, each: nat)
    requires 0 < k && few <= k && most <= budget && most <= each
    ensures few * most <= Ceiling(budget, k, each)
  {
    FewerTimes(few, k, most);
    OneMore(k - 1, k, most);
    TimesLess(k - 1, most, each);
  }

  lemma Sending(w: World, id: nat, a: Ask, m: Meter, budget: nat, k: nat, each: nat)
    requires k > 0 && MeterInv(w, m, budget, k, each) && Modest(w, Check(id, a), m, budget, each)
    requires id !in w.flight && Refuse(ReadPolicy(w.policy), w.calls, a, w.now) == Allowed
    requires UnderWay(m, w.flight[id := a]) <= k
    ensures MeterInv(w.(flight := w.flight[id := a], sent := w.sent + [a]), m, budget, k, each)
  {
    hide Refuse, UnderWay;
    var flight := w.flight[id := a];
    PledgedWithout(m, flight, id);
    assert flight - {id} == w.flight;
    if m.Covers(a.run) {
      AllowedHasRoom(ReadPolicy(w.policy), w.calls, a, w.now, m);
      PledgedAtMost(m, w.flight, each);
      UnderWayWithout(m, flight, id);
      FewLess(UnderWay(m, w.flight), k, each);
    }
  }

  lemma FewLess(few: nat, k: nat, each: nat)
    requires few + 1 <= k
    ensures few * each <= (k - 1) * each
  {
  }

  lemma SpentWith(m: Meter, calls: seq<Call>, c: Call, now: Time)
    ensures Spent(m, calls + [c], now) == Spent(m, calls, now) + if m.Counts(c, now) then m.Used(c) else 0
    ensures Overrun(m, calls + [c], now) == Overrun(m, calls, now) + if m.Counts(c, now) then m.Excess(c) else 0
  {
    var all := calls + [c];
    assert all[..|all| - 1] == calls;
  }

  lemma Recording(w: World, s: Step, m: Meter, budget: nat, k: nat, each: nat)
    requires k > 0 && MeterInv(w, m, budget, k, each) && s.Record? && s.id in w.flight && s.outcome != OverBudget
    ensures MeterInv(Apply(w, s), m, budget, k, each)
  {
    hide Spent, Overrun;
    var c := Call(s.id, w.flight[s.id], s.tokens, s.cost, s.outcome, w.now);
    SpentWith(m, w.calls, c, w.now);
    PledgedWithout(m, w.flight, s.id);
    assert StartOfDay(w.now) <= w.now;
  }

  lemma RecordingOver(w: World, s: Step, m: Meter, budget: nat, k: nat, each: nat)
    requires k > 0 && MeterInv(w, m, budget, k, each) && s.RecordOver? && s.id in w.over
    ensures MeterInv(Apply(w, s), m, budget, k, each)
  {
    hide Spent, Overrun;
    SpentWith(m, w.calls, Call(s.id, w.over[s.id], 0, 0, OverBudget, w.now), w.now);
  }

  lemma StepKeepsMeter(w: World, s: Step, m: Meter, budget: nat, k: nat, each: nat)
    requires k > 0 && MeterInv(w, m, budget, k, each) && Modest(w, s, m, budget, each)
    requires UnderWay(m, w.flight) <= k && UnderWay(m, Apply(w, s).flight) <= k
    ensures MeterInv(Apply(w, s), m, budget, k, each)
  {
    hide MeterInv, Modest, Refuse, UnderWay;
    match s
    case Tick(n) => TimePasses(w, n, m, budget, k, each);
    case Check(id, a) =>
      if id !in w.flight && id !in w.over {
        match Refuse(ReadPolicy(w.policy), w.calls, a, w.now)
        case Allowed => Sending(w, id, a, m, budget, k, each);
        case _ => Unmetered(w, Apply(w, s), m, budget, k, each);
      }
    case Record(id, _, _, outcome) =>
      if id in w.flight && outcome != OverBudget {
        Recording(w, s, m, budget, k, each);
      }
    case RecordOver(id) =>
      if id in w.over {
        RecordingOver(w, s, m, budget, k, each);
      }
    case Die(id) => Dying(w, id, m, budget, k, each);
    case SetPolicy(_) => Unmetered(w, Apply(w, s), m, budget, k, each);
  }

  lemma Unmetered(w: World, w': World, m: Meter, budget: nat, k: nat, each: nat)
    requires k > 0 && MeterInv(w, m, budget, k, each)
    requires w'.calls == w.calls && w'.flight == w.flight && w'.now == w.now
    ensures MeterInv(w', m, budget, k, each)
  {
  }

  lemma Dying(w: World, id: nat, m: Meter, budget: nat, k: nat, each: nat)
    requires k > 0 && MeterInv(w, m, budget, k, each)
    ensures MeterInv(Apply(w, Die(id)), m, budget, k, each)
  {
    if id in w.flight {
      PledgedWithout(m, w.flight, id);
    } else {
      assert w.flight - {id} == w.flight;
    }
  }

  /** Every step is modest, and at no point are more than k of the metered requests under way. */
  predicate Orderly(w: World, steps: seq<Step>, m: Meter, budget: nat, k: nat, each: nat)
    decreases |steps|
  {
    && UnderWay(m, w.flight) <= k
    && (steps != [] ==>
          Modest(w, steps[0], m, budget, each) && Orderly(Apply(w, steps[0]), steps[1..], m, budget, k, each))
  }

  lemma {:induction false} RunKeepsMeter(w: World, steps: seq<Step>, m: Meter, budget: nat, k: nat, each: nat)
    requires k > 0 && MeterInv(w, m, budget, k, each) && Orderly(w, steps, m, budget, k, each)
    ensures MeterInv(Run(w, steps), m, budget, k, each)
    decreases |steps|
  {
    hide MeterInv, Modest, Apply, UnderWay;
    if steps != [] {
      StepKeepsMeter(w, steps[0], m, budget, k, each);
      RunKeepsMeter(Apply(w, steps[0]), steps[1..], m, budget, k, each);
    }
  }

  predicate Initial(w: World) {
    w.calls == [] && w.flight == map[] && w.over == map[] && w.sent == []
  }

  /**
   With at most k metered requests under way, each estimated at no more than `each`, recorded use
   never passes the budget by more than k-1 estimates and what calls used beyond their own estimates.
   */
  lemma UseIsBounded(w: World, steps: seq<Step>, m: Meter, budget: nat, k: nat, each: nat)
    requires k > 0 && Initial(w) && Orderly(w, steps, m, budget, k, each)
    ensures Spent(m, Run(w, steps).calls, Run(w, steps).now)
            <= budget + (k - 1) * each + Overrun(m, Run(w, steps).calls, Run(w, steps).now)
  {
    RunKeepsMeter(w, steps, m, budget, k, each);
  }

  predicate WithinEstimates(m: Meter, calls: seq<Call>) {
    forall c | c in calls :: m.Used(c) <= m.Needs(c.ask)
  }

  lemma {:induction false} NoOverrun(m: Meter, calls: seq<Call>, now: Time)
    requires WithinEstimates(m, calls)
    ensures Overrun(m, calls, now) == 0
  {
    if calls != [] {
      assert calls[|calls| - 1] in calls;
      NoOverrun(m, calls[..|calls| - 1], now);
    }
  }

  /** One request at a time, each within its estimate: the budget is never passed. */
  lemma OneAtATimeStaysWithin(w: World, steps: seq<Step>, m: Meter, budget: nat, each: nat)
    requires Initial(w) && Orderly(w, steps, m, budget, 1, each)
    requires WithinEstimates(m, Run(w, steps).calls)
    ensures Spent(m, Run(w, steps).calls, Run(w, steps).now) <= budget
  {
    UseIsBounded(w, steps, m, budget, 1, each);
    NoOverrun(m, Run(w, steps).calls, Run(w, steps).now);
  }

  // ── The bound is reached ──────────────────────────────────────────────

  /** k requests checked one after another before the first of them is recorded. */
  function Together(a: Ask, k: nat): seq<Step> {
    if k == 0 then [] else [Check(k - 1, a)] + Together(a, k - 1) + [Record(k - 1, a.tokens, a.cost, Answered)]
  }

  lemma {:induction false} RunsCompose(w: World, a: seq<Step>, b: seq<Step>)
    ensures Run(w, a + b) == Run(Run(w, a), b)
    decreases |a|
  {
    if a == [] {
      assert a + b == b;
    } else {
      assert (a + b)[1..] == a[1..] + b;
      RunsCompose(Apply(w, a[0]), a[1..], b);
    }
  }

  lemma {:induction false} OrderlyComposes(w: World, a: seq<Step>, b: seq<Step>, m: Meter, budget: nat, k: nat, each: nat)
    requires Orderly(w, a, m, budget, k, each) && Orderly(Run(w, a), b, m, budget, k, each)
    ensures Orderly(w, a + b, m, budget, k, each)
    decreases |a|
  {
    if a == [] {
      assert a + b == b;
    } else {
      assert (a + b)[1..] == a[1..] + b;
      OrderlyComposes(Apply(w, a[0]), a[1..], b, m, budget, k, each);
    }
  }

  ghost predicate Free(w: World, k: nat) {
    forall id | 0 <= id < k :: id !in w.flight && id !in w.over
  }

  lemma {:induction false} AllPassTheCheck(w: World, a: Ask, m: Meter, k: nat, limit: nat)
    requires Free(w, k) && m.Covers(a.run) && m.Limit(ReadPolicy(w.policy)).Some?
    requires Refuse(ReadPolicy(w.policy), w.calls, a, w.now) == Allowed
    requires UnderWay(m, w.flight) + k <= limit
    ensures var w' := Run(w, Together(a, k));
            && w'.flight == w.flight && w'.over == w.over && w'.policy == w.policy && w'.now == w.now
            && Spent(m, w'.calls, w.now) == Spent(m, w.calls, w.now) + k * m.Needs(a)
            && Overrun(m, w'.calls, w.now) == Overrun(m, w.calls, w.now)
    ensures Orderly(w, Together(a, k), m, m.Limit(ReadPolicy(w.policy)).value, limit, m.Needs(a))
    decreases k
  {
    hide Refuse, Apply, Modest, UnderWay, Spent, Overrun;
    if k > 0 {
      var id := k - 1;
      var sent := Apply(w, Check(id, a));
      CheckSends(w, id, a, m);
      AllPassTheCheck(sent, a, m, k - 1, limit);
      var answered := Run(sent, Together(a, k - 1));
      var record := Record(id, a.tokens, a.cost, Answered);
      var budget := m.Limit(ReadPolicy(w.policy)).value;
      OneIsRecorded(answered, record, a, m);
      RunsCompose(sent, Together(a, k - 1), [record]);
      OrderlyComposes(sent, Together(a, k - 1), [record], m, budget, limit, m.Needs(a));
      var rest := Together(a, k - 1) + [record];
      assert Together(a, k) == [Check(id, a)] + rest;
      assert ([Check(id, a)] + rest)[1..] == rest;
      assert k * m.Needs(a) == (k - 1) * m.Needs(a) + m.Needs(a);
    }
  }

  lemma CheckSends(w: World, id: nat, a: Ask, m: Meter)
    requires id !in w.flight && id !in w.over && m.Covers(a.run) && m.Limit(ReadPolicy(w.policy)).Some?
    requires Refuse(ReadPolicy(w.policy), w.calls, a, w.now) == Allowed
    ensures Apply(w, Check(id, a)) == w.(flight := w.flight[id := a], sent := w.sent + [a])
    ensures w.flight[id := a] - {id} == w.flight
    ensures UnderWay(m, w.flight[id := a]) == UnderWay(m, w.flight) + 1
    ensures Modest(w, Check(id, a), m, m.Limit(ReadPolicy(w.policy)).value, m.Needs(a))
  {
    hide Refuse;
    assert w.flight[id := a] - {id} == w.flight;
    UnderWayWithout(m, w.flight[id := a], id);
  }

  lemma OneIsRecorded(w: World, s: Step, a: Ask, m: Meter)
    requires s.Record? && s.id in w.flight && w.flight[s.id] == a && m.Covers(a.run)
    requires s.tokens == a.tokens && s.cost == a.cost && s.outcome == Answered
    ensures var w' := Apply(w, s);
            && w' == w.(calls := w'.calls, flight := w.flight - {s.id})
            && Spent(m, w'.calls, w.now) == Spent(m, w.calls, w.now) + m.Needs(a)
            && Overrun(m, w'.calls, w.now) == Overrun(m, w.calls, w.now)
    ensures forall budget, each | m.Limit(ReadPolicy(w.policy)) == Some(budget) :: Modest(w, s, m, budget, each)
    ensures UnderWay(m, w.flight - {s.id}) <= UnderWay(m, w.flight)
  {
    var w' := Apply(w, s);
    UnderWayWithout(m, w.flight, s.id);
    assert w'.calls[..|w'.calls| - 1] == w.calls;
    assert StartOfDay(w.now) <= w.now;
  }

  /**
   The bound cannot be tightened. Wherever a request fits exactly, k such requests checked together
   are all sent, and each within its estimate takes recorded use to the bound, not to the budget.
   */
  lemma BoundIsReached(w: World, a: Ask, m: Meter, k: nat)
    requires k > 0 && w.flight == map[] && w.over == map[] && m.Covers(a.run)
    requires Refuse(ReadPolicy(w.policy), w.calls, a, w.now) == Allowed
    requires m.Limit(ReadPolicy(w.policy)) == Some(Spent(m, w.calls, w.now) + m.Needs(a))
    ensures var budget := m.Limit(ReadPolicy(w.policy)).value;
            var w' := Run(w, Together(a, k));
            && Orderly(w, Together(a, k), m, budget, k, m.Needs(a))
            && Spent(m, w'.calls, w'.now) == budget + (k - 1) * m.Needs(a)
            && Overrun(m, w'.calls, w'.now) == Overrun(m, w.calls, w.now)
  {
    hide Refuse;
    assert Metered(m, w.flight) == {};
    AllPassTheCheck(w, a, m, k, k);
    assert k * m.Needs(a) == (k - 1) * m.Needs(a) + m.Needs(a);
  }

  // ── A budget that was met ends the run's part ─────────────────────────

  predicate SentFor(sent: seq<Ask>, from: nat, run: nat) {
    exists i | from <= i < |sent| :: sent[i].run == Some(run)
  }

  lemma StoppedStays(w: World, s: Step, run: nat)
    requires Stopped(w.calls, run)
    ensures Stopped(Apply(w, s).calls, run)
    ensures w.sent <= Apply(w, s).sent && !SentFor(Apply(w, s).sent, |w.sent|, run)
  {
    hide ReadPolicy, Permits, RunSpent, Spent;
    assert w.calls <= Apply(w, s).calls;
    var c :| c in w.calls && c.ask.run == Some(run) && c.outcome == OverBudget;
    assert c in Apply(w, s).calls;
  }

  /** Once a run has met a budget, no later request of that run reaches the provider. */
  lemma {:induction false} NothingIsSentAfterABudgetIsMet(w: World, steps: seq<Step>, run: nat)
    requires Stopped(w.calls, run)
    ensures w.sent <= Run(w, steps).sent
    ensures !SentFor(Run(w, steps).sent, |w.sent|, run)
    decreases |steps|
  {
    hide Apply, Stopped;
    if steps != [] {
      StoppedStays(w, steps[0], run);
      NothingIsSentAfterABudgetIsMet(Apply(w, steps[0]), steps[1..], run);
    }
  }
}
