/**
 Hard requirements: exactly when one moves a session, what the move ends on, and whether the
 model it ends on can hold the request.
 */
module HardMoves {
  import opened Wrappers
  import opened Catalogs
  import opened Selection
  import opened Sessions
  import opened Strategies
  import opened FreshManual
  import opened Gaps

  // What a hard requirement asks for

  function HardQuery(current: Profile, tier: string, facts: Facts, hard: Hard): Query {
    Query(tier, facts, Some(current.name), hard.minContext)
  }

  /** The model a query ends on: the first in order, or the usable global default when the label has no usable model. */
  ghost predicate Leads(s: Strategy, c: Catalog, q: Query, p: Profile)
    requires KnownTier(s, q.tier)
  {
    if AtDefault(s, c, q.tier) then IsUsableDefault(s, c, p) else ComesFirst(s, c, q, p)
  }

  predicate IsUsableDefault(s: Strategy, c: Catalog, p: Profile) {
    c.defaultModel == Some(p.name) && ByName(c.profiles, p.name) == Some(p) && Eligible(s.policy, p)
  }

  lemma LeadsIff(s: Strategy, c: Catalog, q: Query, p: Profile)
    requires KnownTier(s, q.tier) && PositiveWindows(c.profiles)
    ensures (Select(s, c, q).Ok? && Select(s, c, q).value.profile == p) <==> Leads(s, c, q, p)
  {
    if !AtDefault(s, c, q.tier) {
      SelectsIff(s, c, q, p);
    }
  }

  /** Nothing is left to ask: no other eligible model, or no usable default where only that can be asked. */
  ghost predicate NoneLeft(s: Strategy, c: Catalog, current: Profile, tier: string)
    requires KnownTier(s, tier)
  {
    if AtDefault(s, c, tier) then forall p :: p in c.profiles ==> !IsUsableDefault(s, c, p) else !OtherExists(s, c, current)
  }

  lemma NoneLeftIff(s: Strategy, c: Catalog, current: Profile, tier: string, facts: Facts, hard: Hard)
    requires KnownTier(s, tier) && PositiveWindows(c.profiles)
    ensures Select(s, c, HardQuery(current, tier, facts, hard)).Err? <==> NoneLeft(s, c, current, tier)
  {
    var q := HardQuery(current, tier, facts, hard);
    if !AtDefault(s, c, tier) {
      SelectFailsIff(s, c, q);
      if p :| p in c.profiles && Eligible(s.policy, p) && NotExcluded(q, p) {
        assert Other(s, c, current, p);
      }
    } else if DefaultModel(s, c).Ok? {
      assert IsUsableDefault(s, c, DefaultModel(s, c).value.profile);
    }
  }

  /** A hard requirement that the mode lets move the session, and the model that takes it over. */
  ghost predicate Takes(s: Strategy, c: Catalog, current: Profile, tier: string, facts: Facts, p: Profile)
    requires KnownTier(s, tier)
  {
    var hard := HardRequirement(s, current, facts);
    && hard.Some? && Breaks(s, hard.value.reason)
    && Leads(s, c, HardQuery(current, tier, facts, hard.value), p)
    && p.name != current.name && Improves(p, current, hard.value.reason)
  }

  /** One that the mode lets move the session, with nothing left to move to. */
  ghost predicate Strands(s: Strategy, c: Catalog, current: Profile, tier: string, facts: Facts)
    requires KnownTier(s, tier)
  {
    var hard := HardRequirement(s, current, facts);
    hard.Some? && Breaks(s, hard.value.reason) && NoneLeft(s, c, current, tier)
  }

  /**
   A hard requirement moves a session to a model if and only if that model leads the query it
   makes, is another one and improves on what was short. When nothing is left to ask, the turn
   is refused instead, although the session has a model.
   */
  lemma HardMoveIff(s: Strategy, c: Catalog, current: Profile, session: Session, facts: Facts, p: Profile)
    requires KnownTier(s, session.tier) && PositiveWindows(c.profiles)
    ensures var moved := HardMove(s, c, current, session, facts);
      && (moved.Err? <==> Strands(s, c, current, session.tier, facts))
      && ((moved.Ok? && moved.value.Some? && moved.value.value.choice.profile == p) <==> Takes(s, c, current, session.tier, facts, p))
  {
    var hard := HardRequirement(s, current, facts);
    if hard.Some? {
      LeadsIff(s, c, HardQuery(current, session.tier, facts, hard.value), p);
      NoneLeftIff(s, c, current, session.tier, facts, hard.value);
    }
  }

  // Whether the move helps

  predicate Holds(p: Profile, facts: Facts) {
    Supports(p, facts) && FitsContext(p, RequiredContext(facts))
  }

  /** The request as a whole: capabilities, context and output. */
  predicate CanServe(p: Profile, facts: Facts) {
    Holds(p, facts) && FitsOutput(p, OutputRequirement(facts))
  }

  ghost predicate OtherHolds(s: Strategy, c: Catalog, current: Profile, facts: Facts) {
    exists p :: Other(s, c, current, p) && Holds(p, facts)
  }

  ghost predicate OtherServes(s: Strategy, c: Catalog, current: Profile, facts: Facts) {
    exists p :: Other(s, c, current, p) && CanServe(p, facts)
  }

  lemma FitnessIs(q: Query, p: Profile)
    requires q.minContext.None? || q.minContext == Some(RequiredContext(q.facts))
    ensures Fitness(q, p) >= 1 <==> Supports(p, q.facts)
    ensures Fitness(q, p) >= 2 <==> Holds(p, q.facts)
    ensures Fitness(q, p) >= 3 <==> CanServe(p, q.facts)
  {
    assert OutputRequirement(q.facts) >= 1;
  }

  lemma OtherIsNotExcluded(s: Strategy, c: Catalog, current: Profile, q: Query, p: Profile)
    requires q.exclude == Some(current.name)
    ensures Other(s, c, current, p) <==> p in c.profiles && Eligible(s.policy, p) && NotExcluded(q, p)
  {
  }

  /** What the selection behind a hard move ends on: as good a model as any other one is. */
  lemma HardSelection(s: Strategy, c: Catalog, current: Profile, tier: string, facts: Facts, hard: Hard)
    requires KnownTier(s, tier) && !AtDefault(s, c, tier) && PositiveWindows(c.profiles)
    requires hard.minContext.None? || hard.minContext == Some(RequiredContext(facts))
    ensures var r := Select(s, c, HardQuery(current, tier, facts, hard));
      && (r.Ok? <==> OtherExists(s, c, current))
      && (r.Ok? ==>
            && Other(s, c, current, r.value.profile)
            && (Supports(r.value.profile, facts) <==> CapableOtherExists(s, c, current, facts))
            && (Holds(r.value.profile, facts) <==> OtherHolds(s, c, current, facts))
            && (CanServe(r.value.profile, facts) <==> OtherServes(s, c, current, facts)))
  {
    var q := HardQuery(current, tier, facts, hard);
    NoneLeftIff(s, c, current, tier, facts, hard);
    if Select(s, c, q).Ok? {
      var chosen := Select(s, c, q).value.profile;
      ChosenFits(s, c, q);
      OtherIsNotExcluded(s, c, current, q, chosen);
      FitnessIs(q, chosen);
      forall p | Other(s, c, current, p)
        ensures Supports(p, facts) ==> Supports(chosen, facts)
        ensures Holds(p, facts) ==> Holds(chosen, facts)
        ensures CanServe(p, facts) ==> CanServe(chosen, facts)
      {
        NeverPassesOverBetter(s, c, q, p);
        FitnessIs(q, p);
      }
    }
  }

  function Holding(facts: Facts): Profile -> bool {
    p => Holds(p, facts)
  }

  function Serving(facts: Facts): Profile -> bool {
    p => CanServe(p, facts)
  }

  function Any(): Profile -> bool {
    p => true
  }

  /** A hard requirement moves the session, to a model of this kind. */
  ghost predicate MovesTo(s: Strategy, c: Catalog, current: Profile, session: Session, facts: Facts, good: Profile -> bool)
    requires KnownTier(s, session.tier)
  {
    var moved := HardMove(s, c, current, session, facts);
    moved.Ok? && moved.value.Some? && good(moved.value.value.choice.profile)
  }

  lemma ReasonsDiffer()
    ensures CAPABILITY_GAP != CONTEXT_PRESSURE && CAPABILITY_GAP != OUTPUT_LIMIT && CONTEXT_PRESSURE != OUTPUT_LIMIT
  {
    assert |CAPABILITY_GAP| == 14 && |CONTEXT_PRESSURE| == 16 && |OUTPUT_LIMIT| == 12;
  }

  /**
   A session whose model cannot hold the context moves to one that holds the request if and only
   if some other eligible model holds it.
   */
  lemma ContextMoveHoldsIff(s: Strategy, c: Catalog, current: Profile, session: Session, facts: Facts)
    requires KnownTier(s, session.tier) && !AtDefault(s, c, session.tier) && PositiveWindows(c.profiles)
    requires Supports(current, facts) && !FitsContext(current, RequiredContext(facts)) && Breaks(s, CONTEXT_PRESSURE)
    ensures MovesTo(s, c, current, session, facts, Holding(facts)) <==> OtherHolds(s, c, current, facts)
  {
    HardSelection(s, c, current, session.tier, facts, Hard(CONTEXT_PRESSURE, Some(RequiredContext(facts))));
  }

  /**
   A session whose model holds the request but is short of output moves to one that serves it in
   full if and only if some other eligible model does.
   */
  lemma OutputMoveServesIff(s: Strategy, c: Catalog, current: Profile, session: Session, facts: Facts)
    requires KnownTier(s, session.tier) && !AtDefault(s, c, session.tier) && PositiveWindows(c.profiles)
    requires Holds(current, facts) && !OverPressure(s, current, RequiredContext(facts)) && !CanServe(current, facts) && Breaks(s, OUTPUT_LIMIT)
    ensures MovesTo(s, c, current, session, facts, Serving(facts)) <==> OtherServes(s, c, current, facts)
  {
    ReasonsDiffer();
    HardSelection(s, c, current, session.tier, facts, Hard(OUTPUT_LIMIT, None));
  }

  /** The first other model for a request under context pressure has a larger window than the current one. */
  ghost predicate FirstIsLarger(s: Strategy, c: Catalog, current: Profile, q: Query)
    requires KnownTier(s, q.tier) && !AtDefault(s, c, q.tier)
  {
    exists p :: ComesFirst(s, c, q, p) && Larger(p.contextWindow, current.contextWindow)
  }

  lemma FirstIsLargerIff(s: Strategy, c: Catalog, current: Profile, q: Query)
    requires KnownTier(s, q.tier) && !AtDefault(s, c, q.tier) && PositiveWindows(c.profiles)
    ensures FirstIsLarger(s, c, current, q) <==>
            Select(s, c, q).Ok? && Larger(Select(s, c, q).value.profile.contextWindow, current.contextWindow)
  {
    if Select(s, c, q).Ok? {
      SelectsIff(s, c, q, Select(s, c, q).value.profile);
    }
    if p :| ComesFirst(s, c, q, p) && Larger(p.contextWindow, current.contextWindow) {
      SelectsIff(s, c, q, p);
    }
  }

  lemma PressureMoves(s: Strategy, c: Catalog, current: Profile, session: Session, facts: Facts, good: Profile -> bool)
    requires KnownTier(s, session.tier) && Breaks(s, CONTEXT_PRESSURE)
    requires Holds(current, facts) && OverPressure(s, current, RequiredContext(facts))
    ensures var chosen := Select(s, c, Query(session.tier, facts, Some(current.name), Some(RequiredContext(facts))));
      MovesTo(s, c, current, session, facts, good) <==>
      && chosen.Ok? && chosen.value.profile.name != current.name
      && Larger(chosen.value.profile.contextWindow, current.contextWindow) && good(chosen.value.profile)
  {
  }

  /**
   A session whose model holds the request with its window under pressure: it moves exactly when
   the first other model has a larger window, whatever larger ones come after it, and it moves to
   a model that holds the request exactly when, besides, some other eligible model supports it.
   */
  lemma PressureMoveHoldsIff(s: Strategy, c: Catalog, current: Profile, session: Session, facts: Facts)
    requires KnownTier(s, session.tier) && !AtDefault(s, c, session.tier) && PositiveWindows(c.profiles)
    requires Holds(current, facts) && OverPressure(s, current, RequiredContext(facts)) && Breaks(s, CONTEXT_PRESSURE)
    ensures var larger := FirstIsLarger(s, c, current, Query(session.tier, facts, Some(current.name), Some(RequiredContext(facts))));
      && (MovesTo(s, c, current, session, facts, Any()) <==> larger)
      && (MovesTo(s, c, current, session, facts, Holding(facts)) <==> larger && CapableOtherExists(s, c, current, facts))
  {
    HardSelection(s, c, current, session.tier, facts, Hard(CONTEXT_PRESSURE, Some(RequiredContext(facts))));
    FirstIsLargerIff(s, c, current, Query(session.tier, facts, Some(current.name), Some(RequiredContext(facts))));
    PressureMoves(s, c, current, session, facts, Any());
    PressureMoves(s, c, current, session, facts, Holding(facts));
  }
}
