/**
 Capability gaps: what a switch for one leads to, when it helps, and what it does to a session
 that no model can serve.
 */
module Gaps {
  import opened Wrappers
  import opened Catalogs
  import opened Selection
  import opened Sessions
  import opened Strategies
  import opened Matrix
  import opened Engine

  // One switch

  /** An eligible model other than the current one. */
  ghost predicate Other(s: Strategy, c: Catalog, current: Profile, p: Profile) {
    p in c.profiles && Eligible(s.policy, p) && p.name != current.name
  }

  ghost predicate OtherExists(s: Strategy, c: Catalog, current: Profile) {
    exists p :: Other(s, c, current, p)
  }

  ghost predicate CapableOtherExists(s: Strategy, c: Catalog, current: Profile, facts: Facts) {
    exists p :: Other(s, c, current, p) && Supports(p, facts)
  }

  /** The label has no usable model: only the global default can be asked. */
  predicate AtDefault(s: Strategy, c: Catalog, tier: string)
    requires KnownTier(s, tier)
  {
    IsGlobalDefault(s, tier) || TierPool(s.name, s.policy, c, tier) == []
  }

  lemma CapableIsFit(q: Query, p: Profile)
    ensures Supports(p, q.facts) <==> Fitness(q, p) >= 1
  {
  }

  /** What excluding the current model selects, when the label has a usable model. */
  lemma GapSelection(s: Strategy, c: Catalog, current: Profile, tier: string, facts: Facts)
    requires KnownTier(s, tier) && !AtDefault(s, c, tier) && PositiveWindows(c.profiles)
    ensures var r := Select(s, c, Query(tier, facts, Some(current.name), None));
      && (r.Ok? <==> OtherExists(s, c, current))
      && (r.Ok? ==> Other(s, c, current, r.value.profile))
      && (r.Ok? ==> (Supports(r.value.profile, facts) <==> CapableOtherExists(s, c, current, facts)))
  {
    var q := Query(tier, facts, Some(current.name), None);
    SelectFailsIff(s, c, q);
    if Select(s, c, q).Ok? {
      var chosen := Select(s, c, q).value.profile;
      ChosenFits(s, c, q);
      assert Other(s, c, current, chosen);
      if p :| Other(s, c, current, p) && Supports(p, facts) {
        NeverPassesOverBetter(s, c, q, p);
        CapableIsFit(q, p);
        CapableIsFit(q, chosen);
      }
    } else if p :| Other(s, c, current, p) {
      assert NotExcluded(q, p);
    }
  }

  /**
   With a usable model in the session's label, a capability gap moves the session exactly when
   another eligible model is left, and to one that supports the request if and only if some
   other eligible model does.
   */
  lemma GapMoveHelpsIff(s: Strategy, c: Catalog, current: Profile, session: Session, facts: Facts)
    requires KnownTier(s, session.tier) && !AtDefault(s, c, session.tier) && PositiveWindows(c.profiles)
    requires !Supports(current, facts) && Breaks(s, CAPABILITY_GAP)
    ensures var moved := HardMove(s, c, current, session, facts);
      && (moved.Ok? <==> OtherExists(s, c, current))
      && (moved.Ok? ==> moved.value.Some? && Other(s, c, current, moved.value.value.choice.profile))
      && (moved.Ok? ==> (Supports(moved.value.value.choice.profile, facts) <==> CapableOtherExists(s, c, current, facts)))
  {
    GapSelection(s, c, current, session.tier, facts);
    if OtherExists(s, c, current) {
      GapIsAnswered(s, c, current, session, facts);
    } else {
      GapErrs(s, c, current, session, facts);
    }
  }

  lemma GapErrs(s: Strategy, c: Catalog, current: Profile, session: Session, facts: Facts)
    requires KnownTier(s, session.tier) && !Supports(current, facts) && Breaks(s, CAPABILITY_GAP)
    requires Select(s, c, Query(session.tier, facts, Some(current.name), None)).Err?
    ensures HardMove(s, c, current, session, facts).Err?
  {
  }

  /**
   Without one, the session can only go to the global default, which the exclusion does not
   apply to: it moves exactly when that is usable and another model, and the move helps exactly
   when the default supports the request, whatever else is eligible.
   */
  lemma GapMoveAtDefaultIff(s: Strategy, c: Catalog, current: Profile, session: Session, facts: Facts)
    requires KnownTier(s, session.tier) && AtDefault(s, c, session.tier)
    requires !Supports(current, facts) && Breaks(s, CAPABILITY_GAP)
    ensures var moved := HardMove(s, c, current, session, facts); var usable := DefaultModel(s, c);
      && (moved.Ok? <==> usable.Ok?)
      && (moved.Ok? ==> (moved.value.Some? <==> usable.value.profile.name != current.name))
      && (moved.Ok? && moved.value.Some? ==> moved.value.value.choice.profile == usable.value.profile)
  {
    assert CAPABILITY_GAP != CONTEXT_PRESSURE && CAPABILITY_GAP != OUTPUT_LIMIT by {
      assert |CAPABILITY_GAP| == 14 && |CONTEXT_PRESSURE| == 16 && |OUTPUT_LIMIT| == 12;
    }
  }

  /** The same at the level of a decision: the model a gap turn commits supports the request if and only if some other eligible one does. */
  lemma GapDecisionHelpsIff(s: Strategy, c: Catalog, r: Request)
    requires s.policy.labels != [] && UniqueLabels(s.policy.labels) && PositiveWindows(c.profiles) && UniqueNames(c.profiles)
    requires r.manual.None? && r.session.Some? && Continues(s, c, r.session.value) && !s.policy.mode.Fresh?
    requires !AtDefault(s, c, r.session.value.tier) && Breaks(s, CAPABILITY_GAP)
    requires var current := ByName(c.profiles, r.session.value.route).value;
      !Supports(current, r.facts) && OtherExists(s, c, current)
    ensures var current := ByName(c.profiles, r.session.value.route).value; var o := Decide(s, c, r);
      && o.Ok? && o.value.switchedFrom == Some(current.name) && o.value.model != current.name
      && ByName(c.profiles, o.value.model).Some?
      && (Supports(ByName(c.profiles, o.value.model).value, r.facts) <==> CapableOtherExists(s, c, current, r.facts))
  {
    var current := ByName(c.profiles, r.session.value.route).value;
    GapMoveHelpsIff(s, c, current, r.session.value, r.facts);
    var k := HardMove(s, c, current, r.session.value, r.facts).value.value;
    ByNameOfMember(c.profiles, k.choice.profile);
    MovedOutcome(s, c, r, k);
  }

  lemma MovedOutcome(s: Strategy, c: Catalog, r: Request, k: Continued)
    requires s.policy.labels != [] && UniqueLabels(s.policy.labels)
    requires r.manual.None? && r.session.Some? && Continues(s, c, r.session.value) && !s.policy.mode.Fresh?
    requires var current := ByName(c.profiles, r.session.value.route).value;
      HardMove(s, c, current, r.session.value, r.facts) == Ok(Some(k)) && k.choice.profile.name != current.name
    ensures Decide(s, c, r).Ok? && Decide(s, c, r).value.model == k.choice.profile.name
    ensures Decide(s, c, r).value.switchedFrom == Some(r.session.value.route)
    ensures Decide(s, c, r).value.tier == EffectiveTier(s, k.choice)
  {
  }

  // Runs that no model can serve

  /**
   One strategy that answers gaps, with or without a matrix in front of it, at least two eligible
   models, and no label with an explicitly empty list.
   */
  ghost predicate Restless(e: Setup) {
    && SetupOk(e) && OneStrategy(e)
    && PositiveWindows(e.catalog.profiles) && UniqueNames(e.catalog.profiles)
    && var s := e.runners[0].s;
       && !s.policy.mode.Fresh? && Breaks(s, CAPABILITY_GAP)
       && (forall i :: 0 <= i < |s.policy.labels| ==> ListsSome(s.policy.labels[i].route))
       && (forall p :: p in e.catalog.profiles ==> OtherExists(s, e.catalog, p))
  }

  predicate ListsSome(r: Route) {
    r.explicitModels ==> r.models != []
  }

  predicate LabelUsable(s: Strategy, c: Catalog, name: string) {
    HasLabel(s.policy.labels, name) && TierPool(s.name, s.policy, c, name) != []
  }

  /** No eligible model supports the request. */
  ghost predicate Unservable(e: Setup, facts: Facts)
    requires OneStrategy(e)
  {
    forall p :: p in e.catalog.profiles && Eligible(e.runners[0].s.policy, p) ==> !Supports(p, facts)
  }

  /** Between two turns, on an eligible model and a label with a usable model; the other labels need not have one. */
  ghost predicate Settled(e: Setup, w: World)
    requires OneStrategy(e)
  {
    && w.inflight.None? && w.session.Some?
    && Continues(e.runners[0].s, e.catalog, w.session.value)
    && LabelUsable(e.runners[0].s, e.catalog, w.session.value.tier)
  }

  /** The session has gone to another model, with one more switch counted. */
  ghost predicate Switched(w: World, v: World) {
    && w.session.Some? && v.session.Some?
    && v.session.value.route != w.session.value.route
    && v.session.value.switchCount == w.session.value.switchCount + 1
  }

  /** One automatic turn that no model can serve, and the write of its decision. */
  ghost predicate IsGapRound(e: Setup, w: World, v: World) {
    SetupOk(e) && OneStrategy(e) && exists answers: Option<Answers>, facts: Facts, turnIndex: int, decidedAt: real, now: real ::
      Unservable(e, facts) && v == AfterTurn(e, w, answers, facts, turnIndex, decidedAt, now)
  }

  ghost function AfterTurn(
      e: Setup, w: World, answers: Option<Answers>, facts: Facts, turnIndex: int, decidedAt: real, now: real): World
    requires SetupOk(e)
  {
    Do(e, Do(e, w, Turn(0, answers, facts, None, turnIndex, decidedAt)), Write(now))
  }

  // What such a turn decides

  /** A label that serves an eligible model has a usable one. */
  lemma ServedIsUsable(s: Strategy, c: Catalog, i: nat, p: Profile)
    requires UniqueLabels(s.policy.labels) && UniqueNames(c.profiles) && i < |s.policy.labels|
    requires p in c.profiles && Eligible(s.policy, p)
    requires Serves(s, s.policy.labels[i], p) && ListsSome(s.policy.labels[i].route)
    ensures LabelUsable(s, c, s.policy.labels[i].name)
  {
    var entry := s.policy.labels[i];
    assert IndexOf(s.policy.labels, entry.name) == i;
    if p.name in entry.route.models {
      ByNameOfMember(c.profiles, p);
      ListedIsNamed(s.policy, c, entry.route.models, p);
    } else {
      assert p in Tagged(Candidates(s.policy, c), RouteTag(s.name, entry.name, entry.route));
    }
  }

  lemma {:induction false} ListedIsNamed<N>(p: Policy<N>, c: Catalog, models: seq<string>, profile: Profile)
    requires profile.name in models && ByName(c.profiles, profile.name) == Some(profile) && Eligible(p, profile)
    ensures Named(p, c, models) != []
  {
    if models[0] != profile.name {
      ListedIsNamed(p, c, models[1..], profile);
    }
  }

  lemma {:induction false} FoundTierIsUsable(s: Strategy, c: Catalog, p: Profile, fallback: string, i: nat)
    requires UniqueLabels(s.policy.labels) && UniqueNames(c.profiles) && i <= |s.policy.labels|
    requires p in c.profiles && Eligible(s.policy, p) && LabelUsable(s, c, fallback)
    requires forall j :: 0 <= j < |s.policy.labels| ==> ListsSome(s.policy.labels[j].route)
    ensures LabelUsable(s, c, TierForProfile(s, p, fallback, i))
    decreases |s.policy.labels| - i
  {
    if i < |s.policy.labels| {
      if Serves(s, s.policy.labels[i], p) {
        ServedIsUsable(s, c, i, p);
      } else {
        FoundTierIsUsable(s, c, p, fallback, i + 1);
      }
    }
  }

  /** The policy of a strategy that is left, or gone to, for a gap: all that `Restless` asks of it. */
  ghost predicate AnswersGaps(s: Strategy, c: Catalog) {
    && s.policy.labels != [] && UniqueLabels(s.policy.labels) && PositiveWindows(c.profiles) && UniqueNames(c.profiles)
    && !s.policy.mode.Fresh? && Breaks(s, CAPABILITY_GAP)
    && forall i :: 0 <= i < |s.policy.labels| ==> ListsSome(s.policy.labels[i].route)
  }

  lemma UsableGapMove(s: Strategy, c: Catalog, r: Request)
    requires AnswersGaps(s, c) && r.manual.None? && r.session.Some? && Continues(s, c, r.session.value)
    requires LabelUsable(s, c, r.session.value.tier)
    requires var current := ByName(c.profiles, r.session.value.route).value;
      !Supports(current, r.facts) && OtherExists(s, c, current)
    ensures var o := Decide(s, c, r);
      && o.Ok? && o.value.switchedFrom.Some? && o.value.model != r.session.value.route && LabelUsable(s, c, o.value.tier)
      && ByName(c.profiles, o.value.model).Some? && Eligible(s.policy, ByName(c.profiles, o.value.model).value)
  {
    var current := ByName(c.profiles, r.session.value.route).value;
    var q := Query(r.session.value.tier, r.facts, Some(current.name), None);
    GapSelection(s, c, current, r.session.value.tier, r.facts);
    var choice := Select(s, c, q).value;
    GapIsAnswered(s, c, current, r.session.value, r.facts);
    MovedOutcome(s, c, r, Continued(choice, CAPABILITY_GAP, None));
    ByNameOfMember(c.profiles, choice.profile);
    assert !choice.defaulted && choice.tier == r.session.value.tier;
    FoundTierIsUsable(s, c, choice.profile, choice.tier, 0);
  }

  /** A strategy with another ordering has the same pools. */
  lemma ReorderedIsUsable(s: Strategy, t: Strategy, c: Catalog, name: string)
    requires t.name == s.name && t.policy == s.policy.(selection := t.policy.selection)
    ensures LabelUsable(t, c, name) <==> LabelUsable(s, c, name)
  {
    if HasLabel(s.policy.labels, name) {
      SamePool(s.name, s.policy, t.policy, c, name);
    }
  }

  /** What a runner asks the policy to decide is asked of a strategy that answers gaps as its own does. */
  lemma AskedAnswersGaps(s: Strategy, t: Strategy, c: Catalog, session: Session, current: Profile)
    requires t.name == s.name && t.policy == s.policy.(selection := t.policy.selection)
    requires AnswersGaps(s, c) && Continues(s, c, session) && LabelUsable(s, c, session.tier) && OtherExists(s, c, current)
    ensures AnswersGaps(t, c) && Continues(t, c, session) && LabelUsable(t, c, session.tier) && OtherExists(t, c, current)
  {
    ReorderedIsUsable(s, t, c, session.tier);
    var other :| Other(s, c, current, other);
    assert Other(t, c, current, other);
  }

  lemma RestlessAnswers(e: Setup, w: World, facts: Facts)
    requires Restless(e) && Settled(e, w) && Unservable(e, facts)
    ensures var s, c := e.runners[0].s, e.catalog; var current := ByName(c.profiles, w.session.value.route).value;
      && AnswersGaps(s, c) && !Supports(current, facts) && OtherExists(s, c, current) && Candidates(s.policy, c) != []
  {
    var current := ByName(e.catalog.profiles, w.session.value.route).value;
    assert current in Candidates(e.runners[0].s.policy, e.catalog);
  }

  lemma GapTurn(e: Setup, w: World, answers: Option<Answers>, facts: Facts, turnIndex: int, decidedAt: real)
    requires Restless(e) && Settled(e, w) && Unservable(e, facts)
    ensures var s := e.runners[0].s;
      var o := RunnerDecide(e.runners[0], e.catalog, answers, Request(facts, w.session, None, turnIndex, decidedAt));
      && o.Ok? && o.value.switchedFrom.Some? && o.value.model != w.session.value.route && LabelUsable(s, e.catalog, o.value.tier)
      && ByName(e.catalog.profiles, o.value.model).Some? && Eligible(s.policy, ByName(e.catalog.profiles, o.value.model).value)
  {
    RestlessAnswers(e, w, facts);
    RunnerGapMove(e.runners[0], e.catalog, answers, Request(facts, w.session, None, turnIndex, decidedAt));
  }

  lemma RunnerGapMove(runner: Runner, c: Catalog, answers: Option<Answers>, r: Request)
    requires AnswersGaps(runner.s, c) && Candidates(runner.s.policy, c) != []
    requires r.manual.None? && r.session.Some? && Continues(runner.s, c, r.session.value) && LabelUsable(runner.s, c, r.session.value.tier)
    requires var current := ByName(c.profiles, r.session.value.route).value;
      !Supports(current, r.facts) && OtherExists(runner.s, c, current)
    ensures var s := runner.s; var o := RunnerDecide(runner, c, answers, r);
      && o.Ok? && o.value.switchedFrom.Some? && o.value.model != r.session.value.route && LabelUsable(s, c, o.value.tier)
      && ByName(c.profiles, o.value.model).Some? && Eligible(s.policy, ByName(c.profiles, o.value.model).value)
  {
    var asked := Asked(runner, answers, r);
    RunnerAsks(runner, c, answers, r);
    AskedAnswersGaps(runner.s, asked.0, c, r.session.value, ByName(c.profiles, r.session.value.route).value);
    UsableGapMove(asked.0, c, asked.1);
    ReorderedIsUsable(runner.s, asked.0, c, Decide(asked.0, c, asked.1).value.tier);
  }

  lemma AfterTurnIs(
      e: Setup, w: World, answers: Option<Answers>, facts: Facts, turnIndex: int, decidedAt: real, now: real, o: Outcome)
    requires SetupOk(e) && OneStrategy(e) && w.inflight.None? && w.session.Some?
    requires RunnerDecide(e.runners[0], e.catalog, answers, Request(facts, w.session, None, turnIndex, decidedAt)) == Ok(o)
    ensures var v := AfterTurn(e, w, answers, facts, turnIndex, decidedAt, now);
      v.inflight.None? && v.session == Some(Persisted(w.session.value, Decision(o, e.runners[0].s.name, turnIndex, decidedAt), now))
  {
    var d := Decision(o, e.runners[0].s.name, turnIndex, decidedAt);
    assert Do(e, w, Turn(0, answers, facts, None, turnIndex, decidedAt)) == w.(inflight := Some(d));
  }

  lemma GapRound(e: Setup, w: World, answers: Option<Answers>, facts: Facts, turnIndex: int, decidedAt: real, now: real)
    requires Restless(e) && Settled(e, w) && Unservable(e, facts)
    ensures var v := AfterTurn(e, w, answers, facts, turnIndex, decidedAt, now); Settled(e, v) && Switched(w, v)
  {
    var s := e.runners[0].s;
    GapTurn(e, w, answers, facts, turnIndex, decidedAt);
    var o := RunnerDecide(e.runners[0], e.catalog, answers, Request(facts, w.session, None, turnIndex, decidedAt)).value;
    AfterTurnIs(e, w, answers, facts, turnIndex, decidedAt, now, o);
    PersistedFields(w.session.value, Decision(o, s.name, turnIndex, decidedAt), now);
  }

  ghost function Rounding(e: Setup): (World, World) -> bool {
    (w, v) => IsGapRound(e, w, v)
  }

  ghost function Settling(e: Setup): World -> bool
    requires OneStrategy(e)
  {
    w => Settled(e, w)
  }

  /** Consecutive worlds are related. */
  ghost predicate Follows<W>(round: (W, W) -> bool, worlds: seq<W>) {
    forall i, j {:trigger round(worlds[i], worlds[j])} :: 0 <= i < |worlds| && j == i + 1 < |worlds| ==> round(worlds[i], worlds[j])
  }

  lemma {:induction false} Invariant<W(!new)>(round: (W, W) -> bool, good: W -> bool, link: (W, W) -> bool, worlds: seq<W>, n: nat)
    requires Follows(round, worlds) && n < |worlds| && good(worlds[0])
    requires forall w, v :: good(w) && round(w, v) ==> good(v) && link(w, v)
    ensures good(worlds[n])
    ensures n > 0 ==> link(worlds[n - 1], worlds[n])
  {
    if n > 0 {
      Invariant(round, good, link, worlds, n - 1);
      assert round(worlds[n - 1], worlds[n]);
    }
  }

  lemma EveryGapRoundSwitches(e: Setup)
    requires Restless(e)
    ensures forall w, v :: Settling(e)(w) && Rounding(e)(w, v) ==> Settling(e)(v) && Switched(w, v)
  {
    forall w, v | Settling(e)(w) && Rounding(e)(w, v) ensures Settling(e)(v) && Switched(w, v) {
      var answers: Option<Answers>, facts: Facts, turnIndex: int, decidedAt: real, now: real :|
        Unservable(e, facts) && v == AfterTurn(e, w, answers, facts, turnIndex, decidedAt, now);
      GapRound(e, w, answers, facts, turnIndex, decidedAt, now);
    }
  }

  /**
   Over any run of turns that no model can serve, each followed by the write of its decision, a
   session on a label with a usable model changes model on every turn, in every mode that answers
   gaps, whatever a matrix is answered: neither hysteresis nor the switch limit ends it.
   */
  lemma GapMovesEveryTurn(e: Setup, worlds: seq<World>, n: nat)
    requires Restless(e) && Follows(Rounding(e), worlds) && 0 < n < |worlds| && Settled(e, worlds[0])
    ensures Switched(worlds[n - 1], worlds[n])
  {
    EveryGapRoundSwitches(e);
    Invariant(Rounding(e), Settling(e), (w, v) => Switched(w, v), worlds, n);
  }

  lemma GapStaysSettled(e: Setup, worlds: seq<World>, n: nat)
    requires Restless(e) && Follows(Rounding(e), worlds) && n < |worlds| && Settled(e, worlds[0])
    ensures Settled(e, worlds[n])
  {
    EveryGapRoundSwitches(e);
    Invariant(Rounding(e), Settling(e), (w, v) => Switched(w, v), worlds, n);
  }

  ghost predicate OnlyThese(e: Setup, a: string, b: string)
    requires OneStrategy(e)
  {
    forall p :: p in e.catalog.profiles && Eligible(e.runners[0].s.policy, p) ==> p.name == a || p.name == b
  }

  lemma RouteIsOneOf(e: Setup, w: World, a: string, b: string)
    requires OneStrategy(e) && Settled(e, w) && OnlyThese(e, a, b)
    ensures RouteOn(w) == a || RouteOn(w) == b
  {
  }

  function RouteOn(w: World): string {
    if w.session.Some? then w.session.value.route else ""
  }

  /** With two eligible models it goes back and forth between them: from either, the next turn leads to the other. */
  lemma GapAlternates(e: Setup, worlds: seq<World>, a: string, b: string, n: nat)
    requires Restless(e) && Follows(Rounding(e), worlds) && n + 1 < |worlds| && Settled(e, worlds[0]) && OnlyThese(e, a, b)
    ensures RouteOn(worlds[n]) == a || RouteOn(worlds[n]) == b
    ensures RouteOn(worlds[n + 1]) == if RouteOn(worlds[n]) == a then b else a
  {
    GapStaysSettled(e, worlds, n);
    RouteIsOneOf(e, worlds[n], a, b);
    GapStaysSettled(e, worlds, n + 1);
    RouteIsOneOf(e, worlds[n + 1], a, b);
    GapMovesEveryTurn(e, worlds, n + 1);
  }

  // A gateway in which this happens

  const PLAIN_A := Profile("p/a", true, [], 0, 0.5, None, None, false, true, true, 0.0, 0.0)
  const PLAIN_B := Profile("p/b", true, [], 0, 0.5, None, None, false, true, true, 0.0, 0.0)
  const NEEDS_TOOLS := Facts(10, None, true, false, false, None)

  function ToollessStrategy(round: real -> real): Strategy {
    Strategy(
      "task_aware",
      Policy(Sticky, "balanced", [Label("work", Route(["p/a", "p/b"], true, None, "", None))],
             Escalation(2.0, 2.0), Hysteresis(2.0, 45.0, 8.0), [CAPABILITY_GAP], Budget(None, 0.75), None),
      round)
  }

  function Toolless(round: real -> real): Setup {
    Setup("s", Catalog([PLAIN_A, PLAIN_B], None), [Plain(ToollessStrategy(round))])
  }

  const ON_A := World(Some(Session("s", "p/a", "work", Some(false), None, 0.0, 0.0, None, 1, 0, 0.0, 0, 0, 0, 0.0, [])), None, [])

  lemma ToollessCatalog()
    ensures PLAIN_A.name != PLAIN_B.name && UniqueNames([PLAIN_A, PLAIN_B]) && PositiveWindows([PLAIN_A, PLAIN_B])
    ensures ByName([PLAIN_A, PLAIN_B], "p/a") == Some(PLAIN_A) && ByName([PLAIN_A, PLAIN_B], "p/b") == Some(PLAIN_B)
  {
    assert "p/a"[2] != "p/b"[2];
    assert [PLAIN_A, PLAIN_B][1..] == [PLAIN_B];
  }

  lemma ToollessPool(round: real -> real)
    ensures var e := Toolless(round); var s := ToollessStrategy(round);
      HasLabel(s.policy.labels, "work") && TierPool(s.name, s.policy, e.catalog, "work") != []
  {
    var s, c := ToollessStrategy(round), Toolless(round).catalog;
    ToollessCatalog();
    assert s.policy.labels[0].name == "work";
    assert PLAIN_A in Named(s.policy, c, ["p/a", "p/b"]) by {
      assert ByName(c.profiles, ["p/a", "p/b"][0]) == Some(PLAIN_A);
    }
  }

  lemma ToollessIsRestless(round: real -> real)
    ensures Restless(Toolless(round))
  {
    var e, s := Toolless(round), ToollessStrategy(round);
    ToollessCatalog();
    ToollessPool(round);
    assert Other(s, e.catalog, PLAIN_A, PLAIN_B) && Other(s, e.catalog, PLAIN_B, PLAIN_A);
  }

  lemma ToollessSession(round: real -> real)
    ensures Settled(Toolless(round), ON_A) && RouteOn(ON_A) == "p/a"
  {
    ToollessCatalog();
    ToollessPool(round);
  }

  lemma ToollessModels(round: real -> real)
    ensures Unservable(Toolless(round), NEEDS_TOOLS) && OnlyThese(Toolless(round), "p/a", "p/b")
  {
  }

  /** Two models without tools, a pinned session on the first, and requests that need tools. */
  lemma GapsAreReachable(round: real -> real)
    ensures var e := Toolless(round);
      && Restless(e) && Settled(e, ON_A) && Unservable(e, NEEDS_TOOLS)
      && OnlyThese(e, "p/a", "p/b") && RouteOn(ON_A) == "p/a"
  {
    ToollessIsRestless(round);
    ToollessSession(round);
    ToollessModels(round);
  }

  /** The first such turn takes it to the other model, which cannot serve the request either. */
  lemma GapMoveWithoutHelp(round: real -> real)
    ensures var e := Toolless(round);
      var v := AfterTurn(e, ON_A, None, NEEDS_TOOLS, 2, 0.0, 0.0);
      && RouteOn(v) == "p/b" && !Supports(PLAIN_B, NEEDS_TOOLS)
  {
    var e := Toolless(round);
    GapsAreReachable(round);
    GapRound(e, ON_A, None, NEEDS_TOOLS, 2, 0.0, 0.0);
    RouteIsOneOf(e, AfterTurn(e, ON_A, None, NEEDS_TOOLS, 2, 0.0, 0.0), "p/a", "p/b");
  }
}
