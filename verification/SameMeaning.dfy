/** A reprinted policy decides every request the way the policy itself does. */
module SameMeaning {
  import opened Wrappers
  import opened Catalogs
  import opened PolicyText
  import opened Selection
  import opened Sessions
  import opened Strategies
  import Reprint

  /** The strategy after its policy was printed and read back. */
  function Twin(s: Strategy): (t: Strategy)
    ensures |t.policy.labels| == |s.policy.labels|
    ensures forall i :: 0 <= i < |s.policy.labels| ==> t.policy.labels[i].name == s.policy.labels[i].name
    ensures UniqueLabels(s.policy.labels) ==> UniqueLabels(t.policy.labels)
  {
    s.(policy := NormalPolicy(s.policy))
  }

  lemma SameLabels(s: Strategy, tier: string)
    ensures HasLabel(Twin(s).policy.labels, tier) <==> HasLabel(s.policy.labels, tier)
    ensures HasLabel(s.policy.labels, tier) ==> IndexOf(Twin(s).policy.labels, tier) == IndexOf(s.policy.labels, tier)
  {
    Reprint.NormalHasLabel(s.policy.labels, tier);
    if HasLabel(s.policy.labels, tier) {
      Reprint.NormalIndex(s.policy.labels, Twin(s).policy.labels, tier);
    }
  }

  lemma SameTiers(s: Strategy, tier: string)
    requires s.policy.labels != []
    ensures HasLabel(Twin(s).policy.labels, tier) <==> HasLabel(s.policy.labels, tier)
    ensures KnownTier(s, tier) ==>
      Rank(Twin(s), tier) == Rank(s, tier) && RaiseTier(Twin(s), tier) == RaiseTier(s, tier) && LowerTier(Twin(s), tier) == LowerTier(s, tier)
  {
    SameLabels(s, tier);
  }

  lemma SameRequestLabel(s: Strategy, facts: Facts)
    requires s.policy.labels != []
    ensures RequestLabel(Twin(s), facts) == RequestLabel(s, facts)
  {
    if facts.routeLabel.Some? {
      SameTiers(s, facts.routeLabel.value);
    }
  }

  lemma {:induction false} SameTierForProfile(s: Strategy, p: Profile, fallback: string, i: nat)
    requires i <= |s.policy.labels|
    ensures TierForProfile(Twin(s), p, fallback, i) == TierForProfile(s, p, fallback, i)
    decreases |s.policy.labels| - i
  {
    if i < |s.policy.labels| {
      SameTierForProfile(s, p, fallback, i + 1);
    }
  }

  lemma SameSelect(s: Strategy, c: Catalog, q: Query)
    requires s.policy.labels != [] && KnownTier(s, q.tier)
    ensures KnownTier(Twin(s), q.tier) && Select(Twin(s), c, q) == Select(s, c, q)
  {
    SameTiers(s, q.tier);
    Reprint.ReprintedSelectsTheSame(s, c, q);
  }

  lemma SameEffectiveTier(s: Strategy, choice: Choice)
    ensures EffectiveTier(Twin(s), choice) == EffectiveTier(s, choice)
  {
    SameTierForProfile(s, choice.profile, choice.tier, 0);
  }

  lemma {:induction false} SameEscalation(s: Strategy, c: Catalog, current: Profile, q: Query)
    requires s.policy.labels != [] && UniqueLabels(s.policy.labels) && KnownTier(s, q.tier)
    ensures KnownTier(Twin(s), q.tier) && EscalationChoice(Twin(s), c, current, q) == EscalationChoice(s, c, current, q)
    decreases Above(s, q.tier)
  {
    SameSelect(s, c, q);
    var choice := Select(s, c, q);
    if choice.Ok? {
      SameEffectiveTier(s, choice.value);
      RaiseClimbs(s, q.tier);
      SameTiers(s, q.tier);
      var next := RaiseTier(s, q.tier);
      if next != q.tier {
        SameEscalation(s, c, current, q.(tier := next));
      }
    }
  }

  lemma SameQuality(s: Strategy, session: Session)
    requires s.policy.labels != [] && KnownTier(s, session.tier)
    ensures KnownTier(Twin(s), session.tier) && QualityReason(Twin(s), session) == QualityReason(s, session)
  {
    SameTiers(s, session.tier);
  }

  lemma SameHardChoice(s: Strategy, c: Catalog, current: Profile, session: Session, facts: Facts, hard: Hard)
    requires s.policy.labels != [] && KnownTier(s, session.tier)
    ensures KnownTier(Twin(s), session.tier)
    ensures HardChoice(Twin(s), c, current, session, facts, hard) == HardChoice(s, c, current, session, facts, hard)
  {
    SameSelect(s, c, Query(session.tier, facts, Some(current.name), hard.minContext));
  }

  lemma SameQualityChoice(s: Strategy, c: Catalog, current: Profile, facts: Facts, quality: Quality)
    requires s.policy.labels != [] && UniqueLabels(s.policy.labels) && KnownTier(s, quality.tier)
    ensures KnownTier(Twin(s), quality.tier)
    ensures QualityChoice(Twin(s), c, current, facts, quality) == QualityChoice(s, c, current, facts, quality)
  {
    SameEscalation(s, c, current, Query(quality.tier, facts, Excluding(current, quality.excludeCurrent), None));
  }

  lemma SameCurrentChoice(s: Strategy, current: Profile, session: Session)
    requires s.policy.labels != []
    ensures CurrentChoice(Twin(s), current, session) == CurrentChoice(s, current, session)
  {
    SameTiers(s, "default");
  }

  lemma SameHardRequirement(s: Strategy, current: Profile, facts: Facts)
    ensures HardRequirement(Twin(s), current, facts) == HardRequirement(s, current, facts)
  {
    assert Twin(s).policy.budget == s.policy.budget;
  }

  lemma SameHardMove(s: Strategy, c: Catalog, current: Profile, session: Session, facts: Facts)
    requires s.policy.labels != [] && KnownTier(s, session.tier)
    ensures KnownTier(Twin(s), session.tier)
    ensures HardMove(Twin(s), c, current, session, facts) == HardMove(s, c, current, session, facts)
  {
    SameTiers(s, session.tier);
    SameHardRequirement(s, current, facts);
    var hard := HardRequirement(s, current, facts);
    if hard.Some? && Breaks(s, hard.value.reason) {
      SameHardChoice(s, c, current, session, facts, hard.value);
    }
  }

  lemma SameQualityMove(s: Strategy, c: Catalog, current: Profile, session: Session, r: Request)
    requires s.policy.labels != [] && UniqueLabels(s.policy.labels) && KnownTier(s, session.tier)
    ensures KnownTier(Twin(s), session.tier)
    ensures QualityMove(Twin(s), c, current, session, r) == QualityMove(s, c, current, session, r)
  {
    SameCurrentChoice(s, current, session);
    SameQuality(s, session);
    var quality := QualityReason(s, session);
    if quality.Some? {
      SameQualityChoice(s, c, current, r.facts, quality.value);
    }
  }

  lemma SameKeptOrMoved(s: Strategy, c: Catalog, current: Profile, session: Session, r: Request)
    requires s.policy.labels != [] && UniqueLabels(s.policy.labels) && KnownTier(s, session.tier)
    ensures KnownTier(Twin(s), session.tier) && KeptOrMoved(Twin(s), c, current, session, r) == KeptOrMoved(s, c, current, session, r)
  {
    SameHardMove(s, c, current, session, r.facts);
    SameQualityMove(s, c, current, session, r);
  }

  lemma SameInitial(s: Strategy, c: Catalog, r: Request)
    requires s.policy.labels != []
    ensures InitialDecision(Twin(s), c, r) == InitialDecision(s, c, r)
  {
    SameRequestLabel(s, r.facts);
    if r.manual.Some? {
      SameTierForProfile(s, r.manual.value, RequestLabel(s, r.facts), 0);
    } else {
      var q := Query(RequestLabel(s, r.facts), r.facts, None, None);
      SameSelect(s, c, q);
      if Select(s, c, q).Ok? { SameEffectiveTier(s, Select(s, c, q).value); }
    }
  }

  lemma SameContinuation(s: Strategy, c: Catalog, current: Profile, session: Session, r: Request)
    requires s.policy.labels != [] && UniqueLabels(s.policy.labels) && KnownTier(s, session.tier)
    ensures KnownTier(Twin(s), session.tier)
    ensures ContinuationChoice(Twin(s), c, current, session, r) == ContinuationChoice(s, c, current, session, r)
  {
    SameKeptOrMoved(s, c, current, session, r);
    SameRequestLabel(s, r.facts);
    SameSelect(s, c, Query(RequestLabel(s, r.facts), r.facts, None, None));
  }

  lemma SameContinuationDecision(s: Strategy, c: Catalog, r: Request, session: Session)
    requires s.policy.labels != [] && UniqueLabels(s.policy.labels) && KnownTier(s, session.tier)
    ensures KnownTier(Twin(s), session.tier)
    ensures ContinuationDecision(Twin(s), c, r, session) == ContinuationDecision(s, c, r, session)
  {
    SameTiers(s, session.tier);
    SameInitial(s, c, r);
    SameRequestLabel(s, r.facts);
    if r.manual.Some? {
      SameTierForProfile(s, r.manual.value, RequestLabel(s, r.facts), 0);
    }
    var current := ByName(c.profiles, session.route);
    if current.Some? {
      SameContinuation(s, c, current.value, session, r);
      var continued := ContinuationChoice(s, c, current.value, session, r);
      if continued.Ok? { SameEffectiveTier(s, continued.value.choice); }
    }
  }

  /** Every decision, on any turn of any session, is the same before and after the round trip. */
  lemma ReprintedDecidesTheSame(s: Strategy, c: Catalog, r: Request)
    requires s.policy.labels != [] && UniqueLabels(s.policy.labels)
    ensures Decide(Twin(s), c, r) == Decide(s, c, r)
  {
    SameInitial(s, c, r);
    if r.session.Some? {
      SameTiers(s, r.session.value.tier);
      if KnownTier(s, r.session.value.tier) {
        SameContinuationDecision(s, c, r, r.session.value);
      }
    }
  }
}
