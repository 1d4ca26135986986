/** What an automatic first turn can count on, in tokens and flags: it is served as well as any eligible model could serve it. */
module Served {
  import opened Wrappers
  import opened Catalogs
  import opened Selection
  import opened Sessions
  import opened Strategies
  import opened Gaps
  import opened Prices
  import opened Routes

  /** The model has what the request needs. */
  ghost predicate Capable(p: Profile, facts: Facts) {
    (facts.needsTools ==> p.tools) && (facts.needsVision ==> p.vision) && (facts.needsJson ==> p.jsonMode)
  }

  /** Conversation and answer fit its window, if that is known. */
  ghost predicate Fits(p: Profile, facts: Facts, output: int) {
    p.contextWindow.None? || facts.conversationTokens + output <= p.contextWindow.value
  }

  /** The answer is within its output limit, if that is known. */
  ghost predicate Answers(p: Profile, output: int) {
    p.maxOutputTokens.None? || output <= p.maxOutputTokens.value
  }

  /** The model is switched on, and selected if the strategy selects its models. */
  ghost predicate Usable(s: Strategy, c: Catalog, p: Profile) {
    p in c.profiles && p.enabled && (s.policy.selectedModels.None? || p.name in s.policy.selectedModels.value)
  }

  ghost predicate Fully(p: Profile, facts: Facts, output: int) {
    Capable(p, facts) && Fits(p, facts, output) && Answers(p, output)
  }

  lemma FitnessIsWritten(q: Query, p: Profile, output: int)
    requires IsOutput(q.facts, output) && q.minContext.None?
    ensures Fitness(q, p) >= 1 <==> Capable(p, q.facts)
    ensures Fitness(q, p) >= 2 <==> Capable(p, q.facts) && Fits(p, q.facts, output)
    ensures Fitness(q, p) >= 3 <==> Fully(p, q.facts, output)
  {
    assert OutputRequirement(q.facts) == output;
  }

  /** The chosen model of a selection is as fit as the fittest. */
  lemma ChosenIsFittest(s: Strategy, c: Catalog, q: Query, output: int)
    requires KnownTier(s, q.tier) && !AtDefault(s, c, q.tier) && PositiveWindows(c.profiles)
    requires IsOutput(q.facts, output) && q.minContext.None? && q.exclude.None?
    ensures Select(s, c, q).Ok?
    ensures var p := Select(s, c, q).value.profile;
      && Usable(s, c, p)
      && (Capable(p, q.facts) <==> exists m :: Usable(s, c, m) && Capable(m, q.facts))
      && (Capable(p, q.facts) && Fits(p, q.facts, output) <==>
            exists m :: Usable(s, c, m) && Capable(m, q.facts) && Fits(m, q.facts, output))
      && (Fully(p, q.facts, output) <==> exists m :: Usable(s, c, m) && Fully(m, q.facts, output))
  {
    var pool := TierPool(s.name, s.policy, c, q.tier);
    assert pool[0] in pool && pool[0] in Candidates(s.policy, c);
    SelectFailsIff(s, c, q);
    ChosenFits(s, c, q);
    var p := Select(s, c, q).value.profile;
    FitnessIsWritten(q, p, output);
    forall m | Usable(s, c, m)
      ensures Capable(m, q.facts) ==> Capable(p, q.facts)
      ensures Capable(m, q.facts) && Fits(m, q.facts, output) ==> Capable(p, q.facts) && Fits(p, q.facts, output)
      ensures Fully(m, q.facts, output) ==> Fully(p, q.facts, output)
    {
      NeverPassesOverBetter(s, c, q, m);
      FitnessIsWritten(q, m, output);
    }
  }

  /**
   An automatic turn that starts over, on a label with a usable model, is always served: by a model
   with the capabilities it needs if and only if some usable model has them, by one that also holds
   its tokens if and only if some such model does, and in full if and only if some model can.
   */
  lemma FirstTurnServesIff(s: Strategy, c: Catalog, r: Request, asked: string, output: int)
    requires s.policy.labels != [] && UniqueLabels(s.policy.labels) && PositiveWindows(c.profiles) && UniqueNames(c.profiles)
    requires r.manual.None? && StartsOver(s, c, r) && AsksFor(s, r.facts, asked)
    requires KnownTier(s, asked) && !AtDefault(s, c, asked) && IsOutput(r.facts, output)
    ensures Decide(s, c, r).Ok? && ByName(c.profiles, Decide(s, c, r).value.model).Some?
    ensures var p := ByName(c.profiles, Decide(s, c, r).value.model).value;
      && Usable(s, c, p)
      && (Capable(p, r.facts) <==> exists m :: Usable(s, c, m) && Capable(m, r.facts))
      && (Capable(p, r.facts) && Fits(p, r.facts, output) <==>
            exists m :: Usable(s, c, m) && Capable(m, r.facts) && Fits(m, r.facts, output))
      && (Fully(p, r.facts, output) <==> exists m :: Usable(s, c, m) && Fully(m, r.facts, output))
  {
    var q := Query(asked, r.facts, None, None);
    ChosenIsFittest(s, c, q, output);
    AskedIsKnown(s, r.facts, asked);
    ByNameOfMember(c.profiles, Select(s, c, q).value.profile);
    assert Decide(s, c, r).value.model == Select(s, c, q).value.profile.name;
  }
}
