/** Where an automatic turn leads: the model that serves it and the tier it is committed to, and when a first turn gets there. */
module Routes {
  import opened Wrappers
  import opened Catalogs
  import opened Selection
  import opened Sessions
  import opened Strategies
  import opened FreshManual
  import opened Gaps
  import opened HardMoves

  /** The first label that lists the model or draws on one of its tags; the label asked for when none does. */
  ghost predicate IsServingTier(s: Strategy, p: Profile, asked: string, tier: string) {
    var labels := s.policy.labels;
    if exists i :: 0 <= i < |labels| && ServedBy(s, labels[i], p) then
      exists i :: 0 <= i < |labels| && ServedBy(s, labels[i], p) && tier == labels[i].name
                  && forall j :: 0 <= j < i ==> !ServedBy(s, labels[j], p)
    else tier == asked
  }

  /** The label lists the model, or lists none and the model carries its tag. */
  predicate ServedBy(s: Strategy, l: Label, p: Profile) {
    if l.route.models != [] then p.name in l.route.models
    else (if l.route.tag.Some? && l.route.tag.value != "" then l.route.tag.value else s.name + "/" + l.name) in p.tags
  }

  /**
   A query ends on this model and this tier: the usable default, as "default"; a model of the
   label's own pool, as that label; or one of the wide pool, as the first label that serves it.
   */
  ghost predicate LeadsTo(s: Strategy, c: Catalog, q: Query, p: Profile, tier: string)
    requires KnownTier(s, q.tier)
  {
    if AtDefault(s, c, q.tier) then IsUsableDefault(s, c, p) && tier == "default"
    else exists k: nat, i: nat :: k < ATTEMPTS && FirstAt(s, c, q, p, k, i) && IsTierOf(s, q, p, k, tier)
  }

  ghost predicate IsTierOf(s: Strategy, q: Query, p: Profile, k: nat, tier: string) {
    if k % 2 == 0 then tier == q.tier else IsServingTier(s, p, q.tier, tier)
  }

  lemma {:induction false} ServingTierIff(s: Strategy, p: Profile, asked: string, tier: string, i: nat)
    requires i <= |s.policy.labels| && forall j :: 0 <= j < i ==> !ServedBy(s, s.policy.labels[j], p)
    ensures TierForProfile(s, p, asked, i) == tier <==> IsServingTier(s, p, asked, tier)
    decreases |s.policy.labels| - i
  {
    if i < |s.policy.labels| && !ServedBy(s, s.policy.labels[i], p) {
      ServingTierIff(s, p, asked, tier, i + 1);
    }
  }

  lemma LeadsToIff(s: Strategy, c: Catalog, q: Query, p: Profile, tier: string)
    requires KnownTier(s, q.tier) && PositiveWindows(c.profiles)
    ensures (Select(s, c, q).Ok? && Select(s, c, q).value.profile == p && EffectiveTier(s, Select(s, c, q).value) == tier) <==>
            LeadsTo(s, c, q, p, tier)
  {
    if !AtDefault(s, c, q.tier) {
      ServingTierIff(s, p, q.tier, tier, 0);
      SelectErrs(s, c, q);
      var first := FirstAttempt(s, c, q);
      if Select(s, c, q).Ok? && Select(s, c, q).value.profile == p && EffectiveTier(s, Select(s, c, q).value) == tier {
        FirstAttemptIff(s, c, q, first);
        var i := Best(s, q.facts, Attempt(s, c, q, first));
        BestIff(s, q.facts, Attempt(s, c, q, first), i);
        assert FirstAt(s, c, q, p, first, i) && IsTierOf(s, q, p, first, tier);
      }
      if k: nat, i: nat :| k < ATTEMPTS && FirstAt(s, c, q, p, k, i) && IsTierOf(s, q, p, k, tier) {
        assert Attempt(s, c, q, k) == Admitted(q, Steps(q)[k / 2], Pool(s, c, q, k % 2 == 1));
        FirstAttemptIff(s, c, q, k);
        BestIff(s, q.facts, Attempt(s, c, q, k), i);
      }
    }
  }

  /** The same for a model's name. */
  ghost predicate LedTo(s: Strategy, c: Catalog, q: Query, name: string, tier: string)
    requires KnownTier(s, q.tier)
  {
    exists p: Profile :: p.name == name && LeadsTo(s, c, q, p, tier)
  }

  lemma LedToIff(s: Strategy, c: Catalog, q: Query, name: string, tier: string)
    requires KnownTier(s, q.tier) && PositiveWindows(c.profiles)
    ensures (Select(s, c, q).Ok? && Select(s, c, q).value.profile.name == name && EffectiveTier(s, Select(s, c, q).value) == tier) <==>
            LedTo(s, c, q, name, tier)
  {
    if Select(s, c, q).Ok? {
      LeadsToIff(s, c, q, Select(s, c, q).value.profile, tier);
    }
    if p: Profile :| p.name == name && LeadsTo(s, c, q, p, tier) {
      LeadsToIff(s, c, q, p, tier);
    }
  }

  // First turns

  /** A turn that starts over: without a session, or with one whose tier or model this strategy does not have. */
  predicate StartsOver(s: Strategy, c: Catalog, r: Request) {
    r.session.None? || !Continues(s, c, r.session.value)
  }

  /** A request asks for the label it carries, if the strategy knows it, and else for the first one. */
  ghost predicate AsksFor(s: Strategy, facts: Facts, asked: string)
    requires s.policy.labels != []
  {
    var known := facts.routeLabel.Some? && (facts.routeLabel.value == "default" || HasLabel(s.policy.labels, facts.routeLabel.value));
    asked == if known then facts.routeLabel.value else s.policy.labels[0].name
  }

  lemma AskedIsKnown(s: Strategy, facts: Facts, asked: string)
    requires s.policy.labels != [] && AsksFor(s, facts, asked)
    ensures KnownTier(s, asked) && RequestLabel(s, facts) == asked
  {
    assert HasLabel(s.policy.labels, s.policy.labels[0].name);
  }

  /**
   An automatic turn that starts over ends on a model and a tier if and only if that is where the
   label it asks for leads; when it leads nowhere the turn is refused.
   */
  lemma FirstTurnIff(s: Strategy, c: Catalog, r: Request, asked: string, name: string, tier: string)
    requires s.policy.labels != [] && UniqueLabels(s.policy.labels) && PositiveWindows(c.profiles)
    requires r.manual.None? && StartsOver(s, c, r) && AsksFor(s, r.facts, asked)
    ensures KnownTier(s, asked)
    ensures var o := Decide(s, c, r); var q := Query(asked, r.facts, None, None);
      && ((o.Ok? && o.value.model == name && o.value.tier == tier) <==> LedTo(s, c, q, name, tier))
      && (o.Ok? ==> o.value.switchedFrom.None? && !o.value.manual && (o.value.defaulted <==> AtDefault(s, c, asked)))
  {
    AskedIsKnown(s, r.facts, asked);
    LedToIff(s, c, Query(asked, r.facts, None, None), name, tier);
  }

  lemma FreshOutcome(s: Strategy, c: Catalog, r: Request)
    requires s.policy.labels != [] && UniqueLabels(s.policy.labels) && s.policy.mode.Fresh? && r.manual.None? && !StartsOver(s, c, r)
    ensures var o, selected := Decide(s, c, r), Select(s, c, Query(RequestLabel(s, r.facts), r.facts, None, None));
      && (o.Ok? <==> selected.Ok?)
      && (o.Ok? ==> o.value.model == selected.value.profile.name && o.value.tier == EffectiveTier(s, selected.value))
      && (o.Ok? ==> (o.value.switchedFrom.Some? <==> o.value.model != r.session.value.route))
  {
  }

  /** In the mode that reroutes every turn, so does every turn. */
  lemma FreshTurnIff(s: Strategy, c: Catalog, r: Request, asked: string, name: string, tier: string)
    requires s.policy.labels != [] && UniqueLabels(s.policy.labels) && PositiveWindows(c.profiles)
    requires r.manual.None? && s.policy.mode.Fresh? && AsksFor(s, r.facts, asked)
    ensures KnownTier(s, asked)
    ensures var o := Decide(s, c, r); var q := Query(asked, r.facts, None, None);
      && ((o.Ok? && o.value.model == name && o.value.tier == tier) <==> LedTo(s, c, q, name, tier))
      && (o.Ok? ==> (o.value.switchedFrom.Some? <==> !StartsOver(s, c, r) && o.value.model != r.session.value.route))
  {
    if StartsOver(s, c, r) {
      FirstTurnIff(s, c, r, asked, name, tier);
    } else {
      AskedIsKnown(s, r.facts, asked);
      LedToIff(s, c, Query(asked, r.facts, None, None), name, tier);
      FreshOutcome(s, c, r);
    }
  }

  // What a reason says

  /** The reason mentions that the turn went to the global default. */
  predicate MentionsDefault(reason: Reason) {
    reason.emptyTag || reason.base == "empty_tag_default"
  }

  lemma OtherWords(tier: string)
    ensures "tier_fallback_" + tier != "empty_tag_default" && "first_turn_" + tier != "empty_tag_default"
    ensures "per_turn_policy" != "empty_tag_default" && "manual_override" != "empty_tag_default"
    ensures forall base :: IsQuality(base) || base in {CAPABILITY_GAP, CONTEXT_PRESSURE, OUTPUT_LIMIT, "session_pinned", "session_sticky"} ==>
      base != "empty_tag_default"
  {
    assert ("tier_fallback_" + tier)[0] == 't' && ("first_turn_" + tier)[0] == 'f' && "empty_tag_default"[0] == 'e';
    assert "per_turn_policy"[0] == 'p' && "manual_override"[0] == 'm';
    assert CAPABILITY_GAP[0] == 'c' && CONTEXT_PRESSURE[0] == 'c' && OUTPUT_LIMIT[0] == 'o';
    assert "session_pinned"[0] == 's' && "session_sticky"[0] == 's';
    assert UPSTREAM_FAILURES[0] == 'u' && OUTPUT_TRUNCATED[0] == 'o' && BUDGET_PRESSURE[0] == 'b';
  }

  predicate KeepsModel(reason: Reason) {
    reason.base == "session_pinned" || reason.base == "session_sticky"
  }

  lemma InitialMentions(s: Strategy, c: Catalog, r: Request)
    requires s.policy.labels != [] && InitialDecision(s, c, r).Ok?
    ensures var o := InitialDecision(s, c, r).value; MentionsDefault(o.reason) <==> o.defaulted && !KeepsModel(o.reason)
  {
    OtherWords(InitialDecision(s, c, r).value.tier);
    assert "empty_tag_default" != "session_pinned" && "empty_tag_default" != "session_sticky" by {
      assert "empty_tag_default"[0] == 'e';
    }
  }

  /** Whatever led a later turn on, its reason is none that mentions the default by itself. */
  lemma ContinuedReason(s: Strategy, c: Catalog, current: Profile, session: Session, r: Request)
    requires s.policy.labels != [] && UniqueLabels(s.policy.labels) && KnownTier(s, session.tier)
    requires ContinuationChoice(s, c, current, session, r).Ok?
    ensures ContinuationChoice(s, c, current, session, r).value.reason != "empty_tag_default"
  {
    OtherWords("");
  }

  /** A decision's reason mentions the default exactly when the turn was sent there, and not merely kept there. */
  lemma DefaultIsMentionedIff(s: Strategy, c: Catalog, r: Request)
    requires s.policy.labels != [] && UniqueLabels(s.policy.labels) && Decide(s, c, r).Ok?
    ensures var o := Decide(s, c, r).value; MentionsDefault(o.reason) <==> o.defaulted && !KeepsModel(o.reason)
  {
    OtherWords("");
    if StartsOver(s, c, r) {
      InitialMentions(s, c, r);
    } else {
      var session := r.session.value;
      var current := ByName(c.profiles, session.route).value;
      if ContinuationChoice(s, c, current, session, r).Ok? {
        ContinuedReason(s, c, current, session, r);
      }
    }
  }
}
