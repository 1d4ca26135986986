/** One routing decision: first turns, later turns, pins, escalation and hysteresis. */
module Strategies {
  import opened Wrappers
  import opened Catalogs
  import opened Selection
  import opened Sessions

  const UPSTREAM_FAILURES := "upstream_failures"
  const OUTPUT_TRUNCATED := "output_truncated"
  const BUDGET_PRESSURE := "budget_pressure"
  const EMPTY_TAG_DEFAULT := "empty_tag_default"

  datatype Request = Request(facts: Facts, session: Option<Session>, manual: Option<Profile>, turnIndex: int, now: real)

  datatype Outcome = Outcome(
    model: string, tier: string, reason: Reason, manual: bool,
    switchedFrom: Option<string>, blockedBy: Option<string>, defaulted: bool)

  /** A constraint the current model cannot satisfy; the model is always excluded. */
  datatype Hard = Hard(reason: string, minContext: Option<int>)

  /** A quality reason to change models. */
  datatype Quality = Quality(tier: string, reason: string, excludeCurrent: bool)

  datatype Continued = Continued(choice: Choice, reason: string, blockedBy: Option<string>)

  predicate IsQuality(reason: string) {
    reason == UPSTREAM_FAILURES || reason == OUTPUT_TRUNCATED || reason == BUDGET_PRESSURE
  }

  // Labels and tiers

  predicate KnownTier(s: Strategy, tier: string) {
    HasLabel(s.policy.labels, tier) || tier == "default"
  }

  function Rank(s: Strategy, tier: string): (rank: nat)
    requires s.policy.labels != [] && KnownTier(s, tier)
    ensures rank < |s.policy.labels|
  {
    if IsGlobalDefault(s, tier) then 0 else IndexOf(s.policy.labels, tier)
  }

  function RaiseTier(s: Strategy, tier: string): (raised: string)
    requires s.policy.labels != [] && KnownTier(s, tier)
    ensures HasLabel(s.policy.labels, raised)
  {
    var i := Rank(s, tier) + 1;
    s.policy.labels[if i < |s.policy.labels| then i else |s.policy.labels| - 1].name
  }

  function LowerTier(s: Strategy, tier: string): (lowered: string)
    requires s.policy.labels != [] && KnownTier(s, tier)
    ensures HasLabel(s.policy.labels, lowered)
  {
    var i := Rank(s, tier);
    s.policy.labels[if i > 0 then i - 1 else 0].name
  }

  function RequestLabel(s: Strategy, facts: Facts): (name: string)
    requires s.policy.labels != []
    ensures KnownTier(s, name)
  {
    if facts.routeLabel.Some? && KnownTier(s, facts.routeLabel.value) then facts.routeLabel.value
    else s.policy.labels[0].name
  }

  predicate Serves(s: Strategy, entry: Label, p: Profile) {
    p.name in entry.route.models || (entry.route.models == [] && RouteTag(s.name, entry.name, entry.route) in p.tags)
  }

  function TierForProfile(s: Strategy, p: Profile, fallback: string, i: nat): (tier: string)
    requires i <= |s.policy.labels|
    ensures tier == fallback || HasLabel(s.policy.labels, tier)
    decreases |s.policy.labels| - i
  {
    if i == |s.policy.labels| then fallback
    else if Serves(s, s.policy.labels[i], p) then s.policy.labels[i].name
    else TierForProfile(s, p, fallback, i + 1)
  }

  function EffectiveTier(s: Strategy, choice: Choice): string {
    if choice.defaulted then "default"
    else if !choice.relaxed then choice.tier
    else TierForProfile(s, choice.profile, choice.tier, 0)
  }

  // Conditions

  predicate Larger(a: Option<int>, b: Option<int>) {
    b.Some? && (a.None? || a.value > b.value)
  }

  predicate OverPressure(s: Strategy, p: Profile, required: int) {
    p.contextWindow.Some? && required as real > p.contextWindow.value as real * s.policy.budget.pressureRatio
  }

  function HardRequirement(s: Strategy, current: Profile, facts: Facts): Option<Hard> {
    var required := RequiredContext(facts);
    if !Supports(current, facts) then Some(Hard(CAPABILITY_GAP, None))
    else if !FitsContext(current, required) || OverPressure(s, current, required) then Some(Hard(CONTEXT_PRESSURE, Some(required)))
    else if !FitsOutput(current, OutputRequirement(facts)) then Some(Hard(OUTPUT_LIMIT, None))
    else None
  }

  predicate OverBudget(s: Strategy, session: Session) {
    s.policy.budget.maxCost.Some? && session.cost >= s.policy.budget.maxCost.value
  }

  function QualityReason(s: Strategy, session: Session): (quality: Option<Quality>)
    requires s.policy.labels != [] && KnownTier(s, session.tier)
    ensures quality.Some? ==> IsQuality(quality.value.reason) && KnownTier(s, quality.value.tier)
  {
    if session.failures as real >= s.policy.escalation.maxFailures then Some(Quality(session.tier, UPSTREAM_FAILURES, true))
    else if session.truncations as real >= s.policy.escalation.maxTruncations then
      Some(Quality(RaiseTier(s, session.tier), OUTPUT_TRUNCATED, false))
    else if OverBudget(s, session) && Rank(s, session.tier) > 0 then
      Some(Quality(LowerTier(s, session.tier), BUDGET_PRESSURE, false))
    else None
  }

  /** Damps repeated switching; a session's first change is never blocked. */
  predicate HysteresisAllows(s: Strategy, session: Session, turnIndex: int, now: real) {
    && (session.switchCount as real) < s.policy.hysteresis.maxSwitches
    && (session.switchCount == 0
        || ((turnIndex - session.switchedAtTurn) as real >= s.policy.hysteresis.minTurns
            && now - session.switchedAt >= s.policy.hysteresis.cooldown))
  }

  /** A switch for a hard reason must help, except that a capability gap counts as helped by any other model. */
  predicate Improves(candidate: Profile, current: Profile, reason: string) {
    if reason == CONTEXT_PRESSURE then Larger(candidate.contextWindow, current.contextWindow)
    else if reason == OUTPUT_LIMIT then Larger(candidate.maxOutputTokens, current.maxOutputTokens)
    else true
  }

  predicate MentionsEmptyTag(event: Event) {
    event.Decided? && (event.reason.emptyTag || event.reason.base == EMPTY_TAG_DEFAULT)
  }

  /** Keeping the session's model keeps how it came by it; sessions from before that was recorded are read from their events. */
  function CurrentChoice(s: Strategy, current: Profile, session: Session): Choice {
    var defaulted :=
      if session.defaulted.Some? then session.defaulted.value
      else session.tier == "default"
           && (!HasLabel(s.policy.labels, "default") || exists e :: e in session.events && MentionsEmptyTag(e));
    Choice(current, session.tier, false, defaulted, FromSession, [current.name])
  }

  // Escalation

  function Excluding(current: Profile, exclude: bool): Option<string> {
    if exclude then Some(current.name) else None
  }

  /** How many tiers are left above one. */
  function Above(s: Strategy, tier: string): (left: nat)
    requires s.policy.labels != [] && KnownTier(s, tier)
  {
    if IsGlobalDefault(s, tier) then |s.policy.labels| + 1 else |s.policy.labels| - 1 - IndexOf(s.policy.labels, tier)
  }

  lemma RaiseClimbs(s: Strategy, tier: string)
    requires s.policy.labels != [] && UniqueLabels(s.policy.labels) && KnownTier(s, tier)
    ensures RaiseTier(s, tier) != tier ==> Above(s, RaiseTier(s, tier)) < Above(s, tier)
    ensures RaiseTier(s, tier) == tier ==> Above(s, tier) == 0
  {
    var labels := s.policy.labels;
    var i := Rank(s, tier) + 1;
    var j := if i < |labels| then i else |labels| - 1;
    var k := IndexOf(labels, labels[j].name);
    assert k == j;
  }

  /** The first model other than the current one, climbing from a tier to the top one. */
  function EscalationChoice(s: Strategy, c: Catalog, current: Profile, q: Query): Result<Option<Choice>, SetupIncomplete>
    requires s.policy.labels != [] && UniqueLabels(s.policy.labels) && KnownTier(s, q.tier)
    decreases Above(s, q.tier)
  {
    match Select(s, c, q)
    case Err(e) => Err(e)
    case Ok(choice) =>
      if choice.profile.name != current.name then Ok(Some(choice.(tier := EffectiveTier(s, choice))))
      else
        RaiseClimbs(s, q.tier);
        var next := RaiseTier(s, q.tier);
        if next == q.tier then Ok(None) else EscalationChoice(s, c, current, q.(tier := next))
  }

  /** The climb as it runs, with the set of tiers it has been to. */
  method EscalationCandidate(s: Strategy, c: Catalog, current: Profile, quality: Quality, facts: Facts)
    returns (r: Result<Option<Choice>, SetupIncomplete>)
    requires s.policy.labels != [] && UniqueLabels(s.policy.labels) && KnownTier(s, quality.tier)
    ensures r == EscalationChoice(s, c, current, Query(quality.tier, facts, Excluding(current, quality.excludeCurrent), None))
  {
    var tier := quality.tier;
    var visited := {tier};
    ghost var first := Query(tier, facts, Excluding(current, quality.excludeCurrent), None);
    while true
      invariant KnownTier(s, tier) && tier in visited
      invariant forall t :: t in visited ==> KnownTier(s, t) && (t == tier || Above(s, t) > Above(s, tier))
      invariant EscalationChoice(s, c, current, first) == EscalationChoice(s, c, current, first.(tier := tier))
      decreases Above(s, tier)
    {
      var candidate := SelectModel(s, c, Query(tier, facts, Excluding(current, quality.excludeCurrent), None));
      if candidate.Err? {
        return Err(candidate.error);
      }
      if candidate.value.profile.name != current.name {
        return Ok(Some(candidate.value.(tier := EffectiveTier(s, candidate.value))));
      }
      var next := RaiseTier(s, tier);
      RaiseClimbs(s, tier);
      if next in visited {
        return Ok(None);
      }
      visited := visited + {next};
      tier := next;
    }
  }

  // Later turns

  /** What a hard requirement leads to: another model when that helps. */
  function HardChoice(s: Strategy, c: Catalog, current: Profile, session: Session, facts: Facts, hard: Hard): Result<Option<Continued>, SetupIncomplete>
    requires KnownTier(s, session.tier)
  {
    match Select(s, c, Query(session.tier, facts, Some(current.name), hard.minContext))
    case Err(e) => Err(e)
    case Ok(choice) =>
      if choice.profile.name != current.name && Improves(choice.profile, current, hard.reason)
      then Ok(Some(Continued(choice, hard.reason, None))) else Ok(None)
  }

  function QualityChoice(s: Strategy, c: Catalog, current: Profile, facts: Facts, quality: Quality): Result<Option<Continued>, SetupIncomplete>
    requires s.policy.labels != [] && UniqueLabels(s.policy.labels) && KnownTier(s, quality.tier)
  {
    match EscalationChoice(s, c, current, Query(quality.tier, facts, Excluding(current, quality.excludeCurrent), None))
    case Err(e) => Err(e)
    case Ok(None) => Ok(None)
    case Ok(Some(choice)) => Ok(Some(Continued(choice, quality.reason, None)))
  }

  predicate IsPinned(mode: Mode) {
    mode.Sticky? || mode.Cached?
  }

  /** Whether a reason may move a session in this mode. */
  predicate Breaks(s: Strategy, reason: string) {
    !IsPinned(s.policy.mode) || reason in s.policy.breakOn
  }

  /** Where a hard reason takes the session, when it may move it at all. */
  function HardMove(s: Strategy, c: Catalog, current: Profile, session: Session, facts: Facts): Result<Option<Continued>, SetupIncomplete>
    requires KnownTier(s, session.tier)
  {
    var hard := HardRequirement(s, current, facts);
    if hard.Some? && Breaks(s, hard.value.reason) then HardChoice(s, c, current, session, facts, hard.value) else Ok(None)
  }

  /** Where a quality reason takes the session; otherwise it keeps its model. */
  function QualityMove(s: Strategy, c: Catalog, current: Profile, session: Session, r: Request): Result<Continued, SetupIncomplete>
    requires s.policy.labels != [] && UniqueLabels(s.policy.labels) && KnownTier(s, session.tier)
  {
    var keep := CurrentChoice(s, current, session);
    var stay := if IsPinned(s.policy.mode) then "session_pinned" else "session_sticky";
    var quality := QualityReason(s, session);
    if quality.None? || !Breaks(s, quality.value.reason) then Ok(Continued(keep, stay, None))
    else if !HysteresisAllows(s, session, r.turnIndex, r.now) then
      Ok(Continued(keep, stay, if IsPinned(s.policy.mode) then None else Some("hysteresis")))
    else
      match QualityChoice(s, c, current, r.facts, quality.value)
      case Err(e) => Err(e)
      case Ok(None) => Ok(Continued(keep, stay, None))
      case Ok(Some(continued)) => Ok(continued)
  }

  /** A later turn in any mode but the one that reroutes every turn. */
  function KeptOrMoved(s: Strategy, c: Catalog, current: Profile, session: Session, r: Request): Result<Continued, SetupIncomplete>
    requires s.policy.labels != [] && UniqueLabels(s.policy.labels) && KnownTier(s, session.tier)
  {
    var moved := HardMove(s, c, current, session, r.facts);
    if moved.Err? then Err(moved.error)
    else if moved.value.Some? then Ok(moved.value.value)
    else QualityMove(s, c, current, session, r)
  }

  function ContinuationChoice(s: Strategy, c: Catalog, current: Profile, session: Session, r: Request): Result<Continued, SetupIncomplete>
    requires s.policy.labels != [] && UniqueLabels(s.policy.labels) && KnownTier(s, session.tier)
  {
    if s.policy.mode.Fresh? then
      match Select(s, c, Query(RequestLabel(s, r.facts), r.facts, None, None))
      case Err(e) => Err(e)
      case Ok(choice) => Ok(Continued(choice, "per_turn_policy", None))
    else KeptOrMoved(s, c, current, session, r)
  }

  function ManualOutcome(s: Strategy, r: Request, manual: Profile, from: Option<string>): Outcome
    requires s.policy.labels != []
  {
    Outcome(manual.name, TierForProfile(s, manual, RequestLabel(s, r.facts), 0), Reason("", "manual_override", false), true, from, None, false)
  }

  function InitialDecision(s: Strategy, c: Catalog, r: Request): Result<Outcome, SetupIncomplete>
    requires s.policy.labels != []
  {
    if r.manual.Some? then Ok(ManualOutcome(s, r, r.manual.value, None))
    else
      match Select(s, c, Query(RequestLabel(s, r.facts), r.facts, None, None))
      case Err(e) => Err(e)
      case Ok(choice) =>
        var tier := EffectiveTier(s, choice);
        var base := if choice.defaulted then EMPTY_TAG_DEFAULT else if choice.relaxed then "tier_fallback_" + tier else "first_turn_" + tier;
        Ok(Outcome(choice.profile.name, tier, Reason("", base, false), false, None, None, choice.defaulted))
  }

  function ContinuedOutcome(s: Strategy, current: Profile, session: Session, k: Continued): Outcome {
    var from := if k.choice.profile.name != current.name then Some(current.name) else None;
    var tier := if k.choice.defaulted || from.Some? || s.policy.mode.Fresh? then EffectiveTier(s, k.choice) else session.tier;
    var noted := k.choice.defaulted && k.reason != "session_pinned" && k.reason != "session_sticky";
    Outcome(k.choice.profile.name, tier, Reason("", k.reason, noted), false, from, k.blockedBy, k.choice.defaulted)
  }

  function ContinuationDecision(s: Strategy, c: Catalog, r: Request, session: Session): Result<Outcome, SetupIncomplete>
    requires s.policy.labels != [] && UniqueLabels(s.policy.labels) && KnownTier(s, session.tier)
  {
    var current := ByName(c.profiles, session.route);
    if current.None? || !Eligible(s.policy, current.value) then InitialDecision(s, c, r)
    else if r.manual.Some? && r.manual.value.name != current.value.name then
      Ok(ManualOutcome(s, r, r.manual.value, Some(current.value.name)))
    else
      match ContinuationChoice(s, c, current.value, session, r)
      case Err(e) => Err(e)
      case Ok(continued) => Ok(ContinuedOutcome(s, current.value, session, continued))
  }

  /** One decision. A session left behind by another strategy, at a tier this one does not know, starts over. */
  function Decide(s: Strategy, c: Catalog, r: Request): Result<Outcome, SetupIncomplete>
    requires s.policy.labels != [] && UniqueLabels(s.policy.labels)
  {
    if r.manual.Some? && !Selected(s.policy, r.manual.value.name) then Err(ModelNotSelected)
    else if r.session.None? || !KnownTier(s, r.session.value.tier) then InitialDecision(s, c, r)
    else ContinuationDecision(s, c, r, r.session.value)
  }

  // What one decision guarantees

  /** The label a request carries, if any, is one of the strategy's own. */
  predicate OwnLabel(s: Strategy, facts: Facts) {
    facts.routeLabel.Some? ==> HasLabel(s.policy.labels, facts.routeLabel.value)
  }

  predicate NoDefaultLabel(s: Strategy) {
    !HasLabel(s.policy.labels, "default")
  }

  /** The tier is a label or "default", and without a label of that name "default" means defaulted. */
  ghost predicate TierOk(s: Strategy, tier: string, defaulted: bool) {
    KnownTier(s, tier) && (NoDefaultLabel(s) ==> (tier == "default" <==> defaulted))
  }

  lemma SelectTier(s: Strategy, c: Catalog, q: Query)
    requires s.policy.labels != [] && KnownTier(s, q.tier) && Select(s, c, q).Ok?
    ensures var choice := Select(s, c, q).value;
      && TierOk(s, EffectiveTier(s, choice), choice.defaulted)
      && (!choice.defaulted ==> HasLabel(s.policy.labels, choice.tier) && choice.tier == q.tier)
  {
  }

  lemma {:induction false} EscalationTier(s: Strategy, c: Catalog, current: Profile, q: Query)
    requires s.policy.labels != [] && UniqueLabels(s.policy.labels) && KnownTier(s, q.tier)
    ensures var r := EscalationChoice(s, c, current, q); r.Ok? && r.value.Some? ==>
      && r.value.value.profile.name != current.name
      && TierOk(s, EffectiveTier(s, r.value.value), r.value.value.defaulted)
    decreases Above(s, q.tier)
  {
    var selected := Select(s, c, q);
    if selected.Ok? {
      SelectTier(s, c, q);
      if selected.value.profile.name == current.name {
        RaiseClimbs(s, q.tier);
        var next := RaiseTier(s, q.tier);
        if next != q.tier {
          EscalationTier(s, c, current, q.(tier := next));
        }
      }
    }
  }

  /** A later turn keeps the session's choice, or takes another model with a tier of its own. */
  ghost predicate KeepsOrMoves(s: Strategy, current: Profile, session: Session, k: Continued) {
    || k.choice == CurrentChoice(s, current, session)
    || (k.choice.profile.name != current.name && TierOk(s, EffectiveTier(s, k.choice), k.choice.defaulted))
  }

  lemma HardMoves(s: Strategy, c: Catalog, current: Profile, session: Session, facts: Facts)
    requires s.policy.labels != [] && KnownTier(s, session.tier)
    ensures var r := HardMove(s, c, current, session, facts); r.Ok? && r.value.Some? ==> KeepsOrMoves(s, current, session, r.value.value)
  {
    var hard := HardRequirement(s, current, facts);
    if hard.Some? {
      var q := Query(session.tier, facts, Some(current.name), hard.value.minContext);
      if Select(s, c, q).Ok? { SelectTier(s, c, q); }
    }
  }

  /** A switch for a hard reason helps: a larger window under context pressure, a larger output limit when that was short. */
  lemma HardMovesHelp(s: Strategy, c: Catalog, current: Profile, session: Session, facts: Facts)
    requires s.policy.labels != [] && KnownTier(s, session.tier)
    requires HardMove(s, c, current, session, facts).Ok? && HardMove(s, c, current, session, facts).value.Some?
    ensures var k := HardMove(s, c, current, session, facts).value.value;
      && k.choice.profile.name != current.name && Breaks(s, k.reason)
      && (k.reason == CAPABILITY_GAP || k.reason == CONTEXT_PRESSURE || k.reason == OUTPUT_LIMIT)
      && (k.reason == CAPABILITY_GAP <==> !Supports(current, facts))
      && (k.reason == CONTEXT_PRESSURE ==> Larger(k.choice.profile.contextWindow, current.contextWindow))
      && (k.reason == OUTPUT_LIMIT ==> Larger(k.choice.profile.maxOutputTokens, current.maxOutputTokens))
  {
    assert |CAPABILITY_GAP| == 14 && |CONTEXT_PRESSURE| == 16 && |OUTPUT_LIMIT| == 12;
  }

  lemma QualityMoves(s: Strategy, c: Catalog, current: Profile, session: Session, r: Request)
    requires s.policy.labels != [] && UniqueLabels(s.policy.labels) && KnownTier(s, session.tier)
    ensures var k := QualityMove(s, c, current, session, r); k.Ok? ==> KeepsOrMoves(s, current, session, k.value)
  {
    var quality := QualityReason(s, session);
    if quality.Some? {
      EscalationTier(s, c, current, Query(quality.value.tier, r.facts, Excluding(current, quality.value.excludeCurrent), None));
    }
  }

  lemma ContinuedKeepsOrMoves(s: Strategy, c: Catalog, current: Profile, session: Session, r: Request)
    requires s.policy.labels != [] && UniqueLabels(s.policy.labels) && KnownTier(s, session.tier)
    requires !s.policy.mode.Fresh? && ContinuationChoice(s, c, current, session, r).Ok?
    ensures KeepsOrMoves(s, current, session, ContinuationChoice(s, c, current, session, r).value)
  {
    HardMoves(s, c, current, session, r.facts);
    QualityMoves(s, c, current, session, r);
  }

  lemma ContinuedTier(s: Strategy, c: Catalog, current: Profile, session: Session, r: Request)
    requires s.policy.labels != [] && UniqueLabels(s.policy.labels) && TierOk(s, session.tier, session.defaulted == Some(true))
    requires session.defaulted.Some? && ContinuationChoice(s, c, current, session, r).Ok?
    ensures var o := ContinuedOutcome(s, current, session, ContinuationChoice(s, c, current, session, r).value);
      TierOk(s, o.tier, o.defaulted)
  {
    if s.policy.mode.Fresh? {
      SelectTier(s, c, Query(RequestLabel(s, r.facts), r.facts, None, None));
    } else {
      ContinuedKeepsOrMoves(s, c, current, session, r);
    }
  }

  lemma ContinuedTierKnown(s: Strategy, c: Catalog, current: Profile, session: Session, r: Request)
    requires s.policy.labels != [] && UniqueLabels(s.policy.labels) && KnownTier(s, session.tier)
    requires ContinuationChoice(s, c, current, session, r).Ok?
    ensures KnownTier(s, ContinuedOutcome(s, current, session, ContinuationChoice(s, c, current, session, r).value).tier)
  {
    if s.policy.mode.Fresh? {
      SelectTier(s, c, Query(RequestLabel(s, r.facts), r.facts, None, None));
    } else {
      ContinuedKeepsOrMoves(s, c, current, session, r);
    }
  }

  /** Every committed tier is a configured label or "default". */
  lemma DecisionTierKnown(s: Strategy, c: Catalog, r: Request)
    requires s.policy.labels != [] && UniqueLabels(s.policy.labels) && Decide(s, c, r).Ok?
    ensures KnownTier(s, Decide(s, c, r).value.tier)
  {
    if Select(s, c, Query(RequestLabel(s, r.facts), r.facts, None, None)).Ok? {
      SelectTier(s, c, Query(RequestLabel(s, r.facts), r.facts, None, None));
    }
    if r.session.Some? && KnownTier(s, r.session.value.tier) {
      var current := ByName(c.profiles, r.session.value.route);
      if current.Some? && ContinuationChoice(s, c, current.value, r.session.value, r).Ok? {
        ContinuedTierKnown(s, c, current.value, r.session.value, r);
      }
    }
  }

  /** When no label is named "default", a committed tier is "default" exactly when the outcome is marked defaulted. */
  lemma DecisionTier(s: Strategy, c: Catalog, r: Request)
    requires s.policy.labels != [] && UniqueLabels(s.policy.labels) && OwnLabel(s, r.facts)
    requires r.session.Some? ==> r.session.value.defaulted.Some?
    requires r.session.Some? && KnownTier(s, r.session.value.tier) ==>
      TierOk(s, r.session.value.tier, r.session.value.defaulted == Some(true))
    requires Decide(s, c, r).Ok?
    ensures TierOk(s, Decide(s, c, r).value.tier, Decide(s, c, r).value.defaulted)
  {
    assert HasLabel(s.policy.labels, s.policy.labels[0].name);
    if Select(s, c, Query(RequestLabel(s, r.facts), r.facts, None, None)).Ok? {
      SelectTier(s, c, Query(RequestLabel(s, r.facts), r.facts, None, None));
    }
    if r.session.Some? && KnownTier(s, r.session.value.tier) {
      var current := ByName(c.profiles, r.session.value.route);
      if current.Some? && ContinuationChoice(s, c, current.value, r.session.value, r).Ok? {
        ContinuedTier(s, c, current.value, r.session.value, r);
      }
    }
  }

  lemma OtherReasons()
    ensures !IsQuality(CAPABILITY_GAP) && !IsQuality(CONTEXT_PRESSURE) && !IsQuality(OUTPUT_LIMIT)
    ensures !IsQuality("manual_override") && !IsQuality("session_pinned") && !IsQuality("session_sticky")
  {
    assert UPSTREAM_FAILURES[0] == 'u' && OUTPUT_TRUNCATED[0] == 'o' && BUDGET_PRESSURE[0] == 'b';
    assert |OUTPUT_TRUNCATED| == 16 && |OUTPUT_LIMIT| == 12;
  }

  lemma QualityIsAllowed(s: Strategy, c: Catalog, current: Profile, session: Session, r: Request)
    requires s.policy.labels != [] && UniqueLabels(s.policy.labels) && KnownTier(s, session.tier)
    requires KeptOrMoved(s, c, current, session, r).Ok? && IsQuality(KeptOrMoved(s, c, current, session, r).value.reason)
    ensures HysteresisAllows(s, session, r.turnIndex, r.now)
  {
    OtherReasons();
  }

  /** A decision that moves a session for a quality reason was allowed by hysteresis. */
  lemma QualityMovesAreAllowed(s: Strategy, c: Catalog, r: Request)
    requires s.policy.labels != [] && UniqueLabels(s.policy.labels) && !s.policy.mode.Fresh?
    requires Decide(s, c, r).Ok? && Decide(s, c, r).value.switchedFrom.Some? && IsQuality(Decide(s, c, r).value.reason.base)
    ensures r.session.Some? && HysteresisAllows(s, r.session.value, r.turnIndex, r.now)
  {
    OtherReasons();
    if r.session.Some? && Continues(s, c, r.session.value) {
      var current := ByName(c.profiles, r.session.value.route).value;
      if KeptOrMoved(s, c, current, r.session.value, r).Ok? && IsQuality(KeptOrMoved(s, c, current, r.session.value, r).value.reason) {
        QualityIsAllowed(s, c, current, r.session.value, r);
      }
    }
  }

  /** Whether the session goes on with the model it has. */
  predicate Continues(s: Strategy, c: Catalog, session: Session) {
    var current := ByName(c.profiles, session.route);
    KnownTier(s, session.tier) && current.Some? && Eligible(s.policy, current.value)
  }

  /** A request that names a model is served by it, unless the session is already on that model. */
  lemma ManualModelServes(s: Strategy, c: Catalog, r: Request)
    requires s.policy.labels != [] && UniqueLabels(s.policy.labels) && r.manual.Some? && Decide(s, c, r).Ok?
    requires r.session.None? || !Continues(s, c, r.session.value) || r.session.value.route != r.manual.value.name
    ensures Decide(s, c, r).value.model == r.manual.value.name && Decide(s, c, r).value.manual
  {
  }

  /** Naming the model the session is already on is the same as naming none. */
  lemma ManualCurrentIsAutomatic(s: Strategy, c: Catalog, r: Request)
    requires s.policy.labels != [] && UniqueLabels(s.policy.labels) && r.manual.Some? && Selected(s.policy, r.manual.value.name)
    requires r.session.Some? && Continues(s, c, r.session.value) && r.session.value.route == r.manual.value.name
    ensures Decide(s, c, r) == Decide(s, c, r.(manual := None))
  {
  }

  /** A capability gap is answered by whatever the selection finds once the current model is excluded. */
  lemma GapIsAnswered(s: Strategy, c: Catalog, current: Profile, session: Session, facts: Facts)
    requires HasLabel(s.policy.labels, session.tier) && !Supports(current, facts) && Breaks(s, CAPABILITY_GAP)
    requires var q := Query(session.tier, facts, Some(current.name), None);
      Select(s, c, q).Ok? && Select(s, c, q).value.profile.name != current.name
    ensures HardMove(s, c, current, session, facts) ==
            Ok(Some(Continued(Select(s, c, Query(session.tier, facts, Some(current.name), None)).value, CAPABILITY_GAP, None)))
  {
    assert CAPABILITY_GAP != CONTEXT_PRESSURE && CAPABILITY_GAP != OUTPUT_LIMIT by {
      assert |CAPABILITY_GAP| == 14 && |CONTEXT_PRESSURE| == 16 && |OUTPUT_LIMIT| == 12;
    }
  }

  /**
   A capability gap always moves the session when another eligible model is left, capable or
   not, and hysteresis has no say in it.
   */
  lemma GapAlwaysMoves(s: Strategy, c: Catalog, r: Request, other: Profile)
    requires s.policy.labels != [] && UniqueLabels(s.policy.labels) && PositiveWindows(c.profiles)
    requires r.manual.None? && r.session.Some? && Continues(s, c, r.session.value) && !s.policy.mode.Fresh?
    requires HasLabel(s.policy.labels, r.session.value.tier) && TierPool(s.name, s.policy, c, r.session.value.tier) != []
    requires !Supports(ByName(c.profiles, r.session.value.route).value, r.facts) && Breaks(s, CAPABILITY_GAP)
    requires other in c.profiles && Eligible(s.policy, other) && other.name != r.session.value.route
    ensures Decide(s, c, r).Ok?
    ensures var o := Decide(s, c, r).value;
      && o.switchedFrom == Some(r.session.value.route) && o.model != r.session.value.route
      && exists p :: p in c.profiles && Eligible(s.policy, p) && p.name == o.model
    ensures HasLabel(s.policy.labels, Decide(s, c, r).value.tier)
  {
    var q := Query(r.session.value.tier, r.facts, Some(r.session.value.route), None);
    SelectFailsIff(s, c, q);
    ChosenFits(s, c, q);
    SelectTier(s, c, q);
    GapIsAnswered(s, c, ByName(c.profiles, r.session.value.route).value, r.session.value, r.facts);
    var choice := Select(s, c, q).value;
    assert choice.profile in c.profiles && Eligible(s.policy, choice.profile);
  }
}
