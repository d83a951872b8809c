/**
 The policy decision for a write (actions/policy.py). `Evaluate` is a pure, ordered decision:
 the first check that refuses decides. Shell-style pattern matching is a parameter, `covers`.
 */
module Policy {
  import opened Wrappers

  /** Seconds since 1970-01-01T00:00:00Z. */
  type Time = int

  const MINUTE: int := 60
  const MINUTES_A_DAY: int := 1440

  type Matcher = (string, string) -> bool

  datatype Tier = T0 | T1 | T2
  datatype Autonomy = Shadow | Recommend | Approval | Automatic
  datatype Verdict = Deny | ShadowOnly | RecommendOnly | RequireApproval | Allow

  datatype Reason =
    | KillSwitch
    | NotAWrite
    | AboveCeiling
    | ChangeFreeze
    | OutsideHours
    | NotOnAllowList
    | RateLimit
    | AutonomyLevel
    | TierNeedsApproval
    | NotOnAutomaticList
    | OnAutomaticList
    | ChangeUnavailable

  function TierRank(t: Tier): nat {
    match t case T0 => 0 case T1 => 1 case T2 => 2
  }

  function Rank(a: Autonomy): nat {
    match a case Shadow => 0 case Recommend => 1 case Approval => 2 case Automatic => 3
  }

  /** How permissive a verdict is. */
  function Permission(v: Verdict): nat {
    match v
    case Deny => 0
    case ShadowOnly => 1
    case RecommendOnly => 2
    case RequireApproval => 3
    case Allow => 4
  }

  datatype TargetRule = TargetRule(capability: string, targets: seq<string>, sopId: string)
  {
    predicate Covers(covers: Matcher, target: string) {
      exists p | p in targets :: covers(target, p)
    }

    /** The capability matches and every target is covered. An action with no targets never matches. */
    predicate Matches(covers: Matcher, capabilityId: string, actionTargets: seq<string>, sop: string) {
      && capability == capabilityId
      && (sopId == "" || sopId == sop)
      && |actionTargets| > 0
      && forall t | t in actionTargets :: Covers(covers, t)
    }

    /** The capability matches and any target is covered. Used to raise a tier. */
    predicate Touches(covers: Matcher, capabilityId: string, actionTargets: seq<string>) {
      && capability == capabilityId
      && exists t | t in actionTargets :: Covers(covers, t)
    }
  }

  datatype Freeze = Freeze(start: Time, end: Time)

  function MinuteOfDay(now: Time): int {
    (now / MINUTE) % MINUTES_A_DAY
  }

  /** Monday is 0; the epoch was a Thursday. */
  function Weekday(now: Time): int {
    (now / (MINUTE * MINUTES_A_DAY) + 3) % 7
  }

  datatype Hours = Hours(days: set<int>, start: int, end: int)
  {
    predicate Permits(now: Time) {
      && Weekday(now) in days
      && var minute := MinuteOfDay(now);
         if start <= end then start <= minute < end
         else minute >= start || minute < end
    }
  }

  datatype Rules = Rules(
    sopAutonomy: map<string, (Autonomy, string)>,
    raiseTier: seq<TargetRule>,
    automatic: seq<TargetRule>,
    freeze: seq<Freeze>,
    hours: Option<Hours>,
    rateMax: nat,
    rateMinutes: nat,
    approvalTtl: nat,
    executeWithin: nat,
    viaServiceNow: bool)
  {
    /** The level set for exactly this SOP version. Any other version is in shadow. */
    function SopLevel(sop: string, contentHash: string): Autonomy {
      if sop in sopAutonomy && sopAutonomy[sop].1 != "" && sopAutonomy[sop].1 == contentHash
      then sopAutonomy[sop].0
      else Shadow
    }
  }

  const NO_RULES := Rules(map[], [], [], [], None, 0, 60, 60, 15, false)

  datatype Request = Request(
    sopId: string,
    sopHash: string,
    capability: string,
    isDeclaredWrite: bool,
    baseTier: Option<Tier>,
    targets: seq<string>,
    now: Time)

  datatype Situation = Situation(
    killSwitches: set<string>,
    autonomy: Autonomy,
    rules: Rules,
    maxTier: Tier,
    maxAutonomy: Autonomy,
    recentActions: nat,
    refusals: set<string>)

  datatype Ruling = Ruling(verdict: Verdict, reason: Reason, tier: Option<Tier>, level: Autonomy)

  predicate Raised(covers: Matcher, req: Request, rules: Rules) {
    exists r | r in rules.raiseTier :: r.Touches(covers, req.capability, req.targets)
  }

  function EffectiveTier(covers: Matcher, req: Request, rules: Rules): Option<Tier> {
    if req.baseTier.None? then None
    else if Raised(covers, req, rules) then Some(T2)
    else req.baseTier
  }

  function Lower(a: Autonomy, b: Autonomy): Autonomy {
    if Rank(b) < Rank(a) then b else a
  }

  predicate Frozen(now: Time, windows: seq<Freeze>) {
    exists w | w in windows :: w.start <= now < w.end
  }

  predicate OnAutomatic(covers: Matcher, req: Request, rules: Rules) {
    exists r | r in rules.automatic :: r.Matches(covers, req.capability, req.targets, req.sopId)
  }

  function EffectiveLevel(req: Request, s: Situation): Autonomy {
    Lower(Lower(s.autonomy, s.rules.SopLevel(req.sopId, req.sopHash)), s.maxAutonomy)
  }

  /** The decision. The order of the checks is fixed and the first refusal wins. */
  function Evaluate(covers: Matcher, req: Request, s: Situation): (r: Ruling)
    ensures r.verdict.Allow? ==> r.tier == Some(T1) && req.baseTier == Some(T1)
    ensures r.verdict != Deny ==> r.tier == Some(T1) || r.tier == Some(T2)
    ensures r.tier.None? <==> req.baseTier.None?
    ensures r.tier == Some(T0) ==> req.baseTier == Some(T0)
  {
    var tier := EffectiveTier(covers, req, s.rules);
    if s.killSwitches != {} then
      Ruling(Deny, KillSwitch, tier, Shadow)
    else if !req.isDeclaredWrite || (tier != Some(T1) && tier != Some(T2)) then
      Ruling(Deny, NotAWrite, tier, Shadow)
    else if tier == Some(T2) && s.maxTier != T2 then
      Ruling(Deny, AboveCeiling, tier, Shadow)
    else if s.maxTier == T0 then
      Ruling(Deny, AboveCeiling, tier, Shadow)
    else if Frozen(req.now, s.rules.freeze) then
      Ruling(Deny, ChangeFreeze, tier, Shadow)
    else if s.rules.hours.Some? && !s.rules.hours.value.Permits(req.now) then
      Ruling(Deny, OutsideHours, tier, Shadow)
    else if s.refusals != {} then
      Ruling(Deny, NotOnAllowList, tier, Shadow)
    else if s.rules.rateMax != 0 && s.recentActions >= s.rules.rateMax then
      Ruling(Deny, RateLimit, tier, Shadow)
    else
      var level := EffectiveLevel(req, s);
      match level
      case Shadow => Ruling(ShadowOnly, AutonomyLevel, tier, level)
      case Recommend => Ruling(RecommendOnly, AutonomyLevel, tier, level)
      case Approval => Ruling(RequireApproval, AutonomyLevel, tier, level)
      case Automatic =>
        if tier != Some(T1) then Ruling(RequireApproval, TierNeedsApproval, tier, level)
        else if OnAutomatic(covers, req, s.rules) then Ruling(Allow, OnAutomaticList, tier, level)
        else Ruling(RequireApproval, NotOnAutomaticList, tier, level)
  }

  /** `s` gives `req` at most the freedom that `t` gives it. */
  ghost predicate AtLeastAsStrict(req: Request, s: Situation, t: Situation) {
    && t.killSwitches <= s.killSwitches
    && t.refusals <= s.refusals
    && TierRank(s.maxTier) <= TierRank(t.maxTier)
    && Rank(s.maxAutonomy) <= Rank(t.maxAutonomy)
    && Rank(s.autonomy) <= Rank(t.autonomy)
    && Rank(s.rules.SopLevel(req.sopId, req.sopHash)) <= Rank(t.rules.SopLevel(req.sopId, req.sopHash))
    && (forall w | w in t.rules.freeze :: w in s.rules.freeze)
    && (forall r | r in t.rules.raiseTier :: r in s.rules.raiseTier)
    && (forall r | r in s.rules.automatic :: r in t.rules.automatic)
    && (t.rules.hours.Some? ==>
          s.rules.hours.Some? && (s.rules.hours.value.Permits(req.now) ==> t.rules.hours.value.Permits(req.now)))
    && t.recentActions <= s.recentActions
    && (t.rules.rateMax != 0 ==> 0 < s.rules.rateMax <= t.rules.rateMax)
  }

  /** Whether some tenant rule could name a target of this request, and so raise its tier. */
  predicate CouldBeRaised(covers: Matcher, req: Request, pattern: string) {
    exists t | t in req.targets :: covers(t, pattern)
  }

  /** A tighter situation never gives a more permissive verdict, for any capability that is a write. */
  lemma TighterNeverPermitsMore(covers: Matcher, req: Request, s: Situation, t: Situation)
    requires AtLeastAsStrict(req, s, t)
    requires req.baseTier != Some(T0)
    ensures Permission(Evaluate(covers, req, s).verdict) <= Permission(Evaluate(covers, req, t).verdict)
  {
    if Evaluate(covers, req, t).verdict == Deny {
      DenialSurvivesTightening(covers, req, s, t);
    } else if Evaluate(covers, req, s).verdict != Deny {
      assert Raised(covers, req, t.rules) ==> Raised(covers, req, s.rules);
      assert OnAutomatic(covers, req, s.rules) ==> OnAutomatic(covers, req, t.rules);
      assert Rank(EffectiveLevel(req, s)) <= Rank(EffectiveLevel(req, t));
    }
  }

  lemma DenialSurvivesTightening(covers: Matcher, req: Request, s: Situation, t: Situation)
    requires AtLeastAsStrict(req, s, t) && req.baseTier != Some(T0)
    requires Evaluate(covers, req, t).verdict == Deny
    ensures Evaluate(covers, req, s).verdict == Deny
  {
    assert Raised(covers, req, t.rules) ==> Raised(covers, req, s.rules);
    assert Frozen(req.now, t.rules.freeze) ==> Frozen(req.now, s.rules.freeze);
    assert t.killSwitches != {} ==> s.killSwitches != {};
    assert t.refusals != {} ==> s.refusals != {};
    assert req.baseTier.Some? ==> req.baseTier.value.T1? || req.baseTier.value.T2?;
  }

  ghost predicate Monotone(covers: Matcher, req: Request) {
    forall s, t | AtLeastAsStrict(req, s, t) ::
      Permission(Evaluate(covers, req, s).verdict) <= Permission(Evaluate(covers, req, t).verdict)
  }

  /**
   Exactly when monotonicity holds. A read (T0) offered as a declared write is denied as "not a
   write" until a raise_tier rule names one of its targets; the rule then makes it a T2 write that
   may be approved. Manifests are linted so that a write is T1 or T2, which rules this out.
   */
  lemma MonotoneExactlyWhen(covers: Matcher, req: Request)
    ensures Monotone(covers, req) <==>
              !(req.baseTier == Some(T0) && req.isDeclaredWrite && exists p :: CouldBeRaised(covers, req, p))
  {
    if req.baseTier != Some(T0) {
      forall s, t | AtLeastAsStrict(req, s, t)
        ensures Permission(Evaluate(covers, req, s).verdict) <= Permission(Evaluate(covers, req, t).verdict)
      {
        TighterNeverPermitsMore(covers, req, s, t);
      }
    } else if req.isDeclaredWrite && exists p :: CouldBeRaised(covers, req, p) {
      var p :| CouldBeRaised(covers, req, p);
      RaisingAReadIsNotMonotone(covers, req, p);
    } else {
      forall s, t | AtLeastAsStrict(req, s, t)
        ensures Evaluate(covers, req, s).verdict == Deny
      {
        if req.isDeclaredWrite && Raised(covers, req, s.rules) {
          var r :| r in s.rules.raiseTier && r.Touches(covers, req.capability, req.targets);
          var target :| target in req.targets && r.Covers(covers, target);
          var p :| p in r.targets && covers(target, p);
          assert CouldBeRaised(covers, req, p);
        }
      }
    }
  }

  lemma RaisingAReadIsNotMonotone(covers: Matcher, req: Request, p: string)
    requires req.baseTier == Some(T0) && req.isDeclaredWrite && CouldBeRaised(covers, req, p)
    ensures !Monotone(covers, req)
  {
    var rule := TargetRule(req.capability, [p], "");
    var loose := Situation({}, Automatic, NO_RULES, T2, Automatic, 0, {});
    var tight := loose.(rules := NO_RULES.(raiseTier := [rule]));
    var target :| target in req.targets && covers(target, p);
    assert p in rule.targets;
    assert rule.Covers(covers, target);
    assert rule.Touches(covers, req.capability, req.targets);
    assert rule in tight.rules.raiseTier;
    assert Raised(covers, req, tight.rules);
    assert !Raised(covers, req, loose.rules);
    assert Evaluate(covers, req, loose).verdict == Deny;
    assert Evaluate(covers, req, tight).verdict != Deny;
    assert AtLeastAsStrict(req, tight, loose);
  }

  // ── In the terms of the policy itself ─────────────────────────────────

  /** The clock as a calendar reads it: days begin at midnight, and the first was a Thursday. */
  lemma ClockIsTheCalendar(day: int, hour: int, minute: int, second: int)
    requires 0 <= hour < 24 && 0 <= minute < 60 && 0 <= second < 60
    ensures var now := ((day * 24 + hour) * 60 + minute) * 60 + second;
            && MinuteOfDay(now) == hour * 60 + minute
            && 0 <= Weekday(now) < 7
            && (day == 0 ==> Weekday(now) == 3)
            && Weekday(now + 24 * 60 * 60) == if Weekday(now) == 6 then 0 else Weekday(now) + 1
  {
    var now := ((day * 24 + hour) * 60 + minute) * 60 + second;
    WholeMinutes((day * 24 + hour) * 60 + minute, second);
    MinutesOfADay(day, hour * 60 + minute);
    WholeDays(day, (hour * 60 + minute) * 60 + second);
    WholeDays(day + 1, (hour * 60 + minute) * 60 + second);
    assert now + 24 * 60 * 60 == (day + 1) * 86400 + ((hour * 60 + minute) * 60 + second);
    TheDayAfter(day);
  }

  lemma WholeMinutes(minutes: int, second: int)
    requires 0 <= second < 60
    ensures (minutes * 60 + second) / MINUTE == minutes
  {
  }

  lemma MinutesOfADay(day: int, minute: int)
    requires 0 <= minute < 1440
    ensures (day * 1440 + minute) % MINUTES_A_DAY == minute
  {
  }

  lemma WholeDays(day: int, second: int)
    requires 0 <= second < 86400
    ensures (day * 86400 + second) / (MINUTE * MINUTES_A_DAY) == day
  {
  }

  lemma TheDayAfter(day: int)
    ensures (day + 1 + 3) % 7 == if (day + 3) % 7 == 6 then 0 else (day + 3) % 7 + 1
  {
  }

  lemma RaisedExactlyWhen(covers: Matcher, req: Request, rules: Rules)
    ensures Raised(covers, req, rules) <==>
              exists r, t, p | r in rules.raiseTier && t in req.targets && p in r.targets ::
                r.capability == req.capability && covers(t, p)
  {
    if Raised(covers, req, rules) {
      var r :| r in rules.raiseTier && r.Touches(covers, req.capability, req.targets);
      var t :| t in req.targets && r.Covers(covers, t);
      var p :| p in r.targets && covers(t, p);
    }
    if r, t, p :| r in rules.raiseTier && t in req.targets && p in r.targets
                  && r.capability == req.capability && covers(t, p)
    {
      assert r.Covers(covers, t);
      assert r.Touches(covers, req.capability, req.targets);
    }
  }

  /** The tier of a write is that of its manifest, or T2 once a rule for it names one of its targets. */
  lemma TierIsRaisedExactlyWhen(covers: Matcher, req: Request, s: Situation)
    ensures Evaluate(covers, req, s).tier ==
              if req.baseTier.Some? && exists r, t, p | r in s.rules.raiseTier && t in req.targets && p in r.targets ::
                   r.capability == req.capability && covers(t, p)
              then Some(T2) else req.baseTier
  {
    RaisedExactlyWhen(covers, req, s.rules);
    hide Raised, OnAutomatic, Frozen, Hours.Permits, Rules.SopLevel;
  }

  /** Anything but a denial or a shadow is for exactly the version of the SOP that the policy names, at its level. */
  lemma OnlyTheNamedVersion(covers: Matcher, req: Request, s: Situation)
    ensures var verdict := Evaluate(covers, req, s).verdict;
            verdict == RecommendOnly || verdict == RequireApproval || verdict == Allow ==>
              && req.sopId in s.rules.sopAutonomy
              && s.rules.sopAutonomy[req.sopId].1 == req.sopHash && req.sopHash != ""
              && var level := s.rules.sopAutonomy[req.sopId].0;
                 && level != Shadow
                 && (verdict != RecommendOnly ==> level != Recommend)
                 && (verdict == Allow ==> level == Automatic)
  {
  }

  /** What it takes for a write to go ahead with no person asked. */
  lemma UnattendedExactlyWhen(covers: Matcher, req: Request, s: Situation)
    ensures Evaluate(covers, req, s).verdict == Allow <==>
              && req.isDeclaredWrite
              && req.baseTier == Some(T1)
              && (forall r, t, p | r in s.rules.raiseTier && t in req.targets && p in r.targets ::
                    r.capability == req.capability ==> !covers(t, p))
              && s.killSwitches == {} && s.refusals == {}
              && s.maxTier != T0
              && s.autonomy == Automatic && s.maxAutonomy == Automatic
              && req.sopId in s.rules.sopAutonomy && req.sopHash != ""
              && s.rules.sopAutonomy[req.sopId] == (Automatic, req.sopHash)
              && (forall w | w in s.rules.freeze :: req.now < w.start || w.end <= req.now)
              && (s.rules.hours.Some? ==>
                    var h := s.rules.hours.value;
                    var minute := MinuteOfDay(req.now);
                    && Weekday(req.now) in h.days
                    && (h.start <= h.end ==> h.start <= minute < h.end)
                    && (h.end < h.start ==> h.start <= minute || minute < h.end))
              && (s.rules.rateMax != 0 ==> s.recentActions < s.rules.rateMax)
              && req.targets != []
              && (exists r | r in s.rules.automatic ::
                    && r.capability == req.capability && (r.sopId == "" || r.sopId == req.sopId)
                    && forall t | t in req.targets :: exists p | p in r.targets :: covers(t, p))
  {
    RaisedExactlyWhen(covers, req, s.rules);
    ListedExactlyWhen(covers, req, s.rules);
    hide Raised, OnAutomatic;
  }

  lemma ListedExactlyWhen(covers: Matcher, req: Request, rules: Rules)
    ensures OnAutomatic(covers, req, rules) <==>
              && req.targets != []
              && (exists r | r in rules.automatic ::
                    && r.capability == req.capability && (r.sopId == "" || r.sopId == req.sopId)
                    && forall t | t in req.targets :: exists p | p in r.targets :: covers(t, p))
  {
    if OnAutomatic(covers, req, rules) {
      var r :| r in rules.automatic && r.Matches(covers, req.capability, req.targets, req.sopId);
      forall t | t in req.targets
        ensures exists p | p in r.targets :: covers(t, p)
      {
        assert r.Covers(covers, t);
      }
    }
    if r :| && r in rules.automatic && req.targets != []
            && r.capability == req.capability && (r.sopId == "" || r.sopId == req.sopId)
            && forall t | t in req.targets :: exists p | p in r.targets :: covers(t, p)
    {
      assert r.Matches(covers, req.capability, req.targets, req.sopId);
    }
  }

  /** What denies a write. The first thing that does is the reason given. */
  lemma DeniedExactlyWhen(covers: Matcher, req: Request, s: Situation)
    ensures var raised := exists r, t, p | r in s.rules.raiseTier && t in req.targets && p in r.targets ::
              r.capability == req.capability && covers(t, p);
            var notAWrite := !req.isDeclaredWrite || req.baseTier.None? || (req.baseTier == Some(T0) && !raised);
            var aboveCeiling := s.maxTier == T0 || (s.maxTier == T1 && (req.baseTier == Some(T2) || raised));
            var frozen := exists w | w in s.rules.freeze :: w.start <= req.now < w.end;
            var minute := MinuteOfDay(req.now);
            var outside :=
              && s.rules.hours.Some?
              && var h := s.rules.hours.value;
                 || Weekday(req.now) !in h.days
                 || (h.start <= h.end && !(h.start <= minute < h.end))
                 || (h.end < h.start && h.end <= minute < h.start);
            var tooMany := s.rules.rateMax != 0 && s.recentActions >= s.rules.rateMax;
            var r := Evaluate(covers, req, s);
            if s.killSwitches != {} then r.verdict == Deny && r.reason == KillSwitch
            else if notAWrite then r.verdict == Deny && r.reason == NotAWrite
            else if aboveCeiling then r.verdict == Deny && r.reason == AboveCeiling
            else if frozen then r.verdict == Deny && r.reason == ChangeFreeze
            else if outside then r.verdict == Deny && r.reason == OutsideHours
            else if s.refusals != {} then r.verdict == Deny && r.reason == NotOnAllowList
            else if tooMany then r.verdict == Deny && r.reason == RateLimit
            else r.verdict != Deny
  {
    RaisedExactlyWhen(covers, req, s.rules);
    assert s.maxTier == T0 || s.maxTier == T1 || s.maxTier == T2;
    assert req.baseTier.None? || req.baseTier.value == T0 || req.baseTier.value == T1 || req.baseTier.value == T2;
    hide Raised, OnAutomatic, Rules.SopLevel;
  }

  /** Short of a denial, the lowest of the three autonomy levels decides how far the action goes, and the reason. */
  lemma TheLowestLevelDecides(covers: Matcher, req: Request, s: Situation)
    requires Evaluate(covers, req, s).verdict != Deny
    ensures var named := req.sopId in s.rules.sopAutonomy && req.sopHash != ""
                         && s.rules.sopAutonomy[req.sopId].1 == req.sopHash;
            var sop := if named then s.rules.sopAutonomy[req.sopId].0 else Shadow;
            var levels := {s.autonomy, sop, s.maxAutonomy};
            var r := Evaluate(covers, req, s);
            && (r.verdict == ShadowOnly <==> Shadow in levels)
            && (r.verdict == RecommendOnly <==> Shadow !in levels && Recommend in levels)
            && (r.verdict == RequireApproval || r.verdict == Allow <==> Shadow !in levels && Recommend !in levels)
            && (r.reason == AutonomyLevel <==> levels != {Automatic})
            && (r.reason == TierNeedsApproval <==> levels == {Automatic} && r.tier == Some(T2))
            && (r.reason == OnAutomaticList <==> r.verdict == Allow)
            && (r.verdict == Allow ==> levels == {Automatic} && r.tier == Some(T1))
            && (r.reason == NotOnAutomaticList <==>
                  levels == {Automatic} && r.tier == Some(T1) && r.verdict == RequireApproval)
  {
    hide Raised, OnAutomatic, Frozen, Hours.Permits;
    var sop := s.rules.SopLevel(req.sopId, req.sopHash);
    var level := EffectiveLevel(req, s);
    assert Rank(level) <= Rank(s.autonomy) && Rank(level) <= Rank(sop) && Rank(level) <= Rank(s.maxAutonomy);
    assert level in {s.autonomy, sop, s.maxAutonomy};
    if level == Automatic {
      assert {s.autonomy, sop, s.maxAutonomy} == {Automatic};
    }
  }

  /** Permitted hours are one arc of the 24-hour clock, whether or not it crosses midnight. */
  lemma HoursAreAnArc(h: Hours, now: Time)
    requires 0 <= h.start < MINUTES_A_DAY && 0 <= h.end < MINUTES_A_DAY
    ensures h.Permits(now) <==>
              && Weekday(now) in h.days
              && (MinuteOfDay(now) - h.start) % MINUTES_A_DAY < (h.end - h.start) % MINUTES_A_DAY
  {
    var m := MinuteOfDay(now);
    assert 0 <= m < MINUTES_A_DAY;
    assert (m - h.start) % MINUTES_A_DAY == if m < h.start then m - h.start + MINUTES_A_DAY else m - h.start;
    assert (h.end - h.start) % MINUTES_A_DAY ==
           if h.end < h.start then h.end - h.start + MINUTES_A_DAY else h.end - h.start;
  }

  /** The row of `policies`: its rules are None when they no longer parse. */
  datatype StoredPolicy = StoredPolicy(rules: Option<Rules>, autonomy: Option<Autonomy>, killSwitch: bool)

  datatype TenantPolicy = TenantPolicy(autonomy: Autonomy, rules: Rules, killSwitch: bool)

  const DEFAULT_POLICY := TenantPolicy(Shadow, NO_RULES, false)

  /** How a stored policy is read. Rules that do not parse must not be read as "no rules". */
  function ReadPolicy(row: Option<StoredPolicy>): TenantPolicy {
    if row.None? then DEFAULT_POLICY
    else if row.value.rules.Some? && row.value.autonomy.Some? then
      TenantPolicy(row.value.autonomy.value, row.value.rules.value, row.value.killSwitch)
    else TenantPolicy(Shadow, NO_RULES, row.value.killSwitch)
  }

  /** A policy that parses is read as it is stored. */
  lemma ReadablePolicyIsItself(row: StoredPolicy)
    requires row.rules.Some? && row.autonomy.Some?
    ensures ReadPolicy(Some(row)).rules == row.rules.value && ReadPolicy(Some(row)).autonomy == row.autonomy.value
    ensures ReadPolicy(Some(row)).killSwitch == row.killSwitch
  {
  }

  /** A tenant with no policy, or one that cannot be read, gets at most shadow; its switch still counts. */
  lemma UnreadablePolicyDoesNothing(covers: Matcher, req: Request, row: Option<StoredPolicy>, s: Situation)
    requires row.None? || row.value.rules.None? || row.value.autonomy.None?
    requires s.autonomy == ReadPolicy(row).autonomy && s.rules == ReadPolicy(row).rules
    ensures Permission(Evaluate(covers, req, s).verdict) <= Permission(ShadowOnly)
    ensures ReadPolicy(row).killSwitch <==> row.Some? && row.value.killSwitch
  {
  }
}
