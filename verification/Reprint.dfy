/** Which parsed policies survive being printed and parsed again under the base they came from. */
module Reprint {
  import opened Wrappers
  import opened Catalogs
  import opened PolicyText
  import Selection

  // What a parser guarantees of its result

  predicate SoundReasoning(r: Reasoning) {
    && r.mode in REASONING_MODES && r.fallback in EFFORT_LADDER
    && EffortsOk(r.byTier) && EffortsOk(r.byLabel) && r.byTier.Keys <= TIERS
  }

  /** Everything but the labels. */
  predicate Sound(t: Text) {
    && (t.policy.selectedModels.Some? ==> SelectedOk(t.policy.selectedModels.value))
    && SoundReasoning(t.reasoning)
    && t.policy.budget.maxCost != Some(JNull)
  }

  lemma ParsedEfforts(value: Json)
    requires ParseEfforts(value).Some?
    ensures EffortsOk(ParseEfforts(value).value)
  {
  }

  lemma ParsedReasoning(data: map<string, Json>, base: Reasoning)
    requires SoundReasoning(base) && ParseReasoning(data, base).Ok?
    ensures SoundReasoning(ParseReasoning(data, base).value)
    ensures base.byTier.Keys <= ParseReasoning(data, base).value.byTier.Keys
  {
    if "reasoning" in data && data["reasoning"].JObject? {
      var value := data["reasoning"].fields;
      if "effort_by_tier" in value { ParsedEfforts(value["effort_by_tier"]); }
      if "effort_by_label" in value { ParsedEfforts(value["effort_by_label"]); }
    }
  }

  lemma DefaultsAreSound()
    ensures Sound(DEFAULTS)
  {
  }

  /** The parts a parsed policy is put together from. */
  lemma ParsedParts(data: map<string, Json>, base: Option<Text>, strategy: string)
    requires ParsePolicy(data, base, strategy).Ok?
    ensures var p := ParsePolicy(data, base, strategy).value; var d := Defaults(base);
      && ParseSelected(data, d.policy.selectedModels) == Ok(p.policy.selectedModels)
      && ParseLabelled(data, base, strategy, p.policy.selectedModels.Some?) == Ok(Labelled(p.policy.labels, p.tierModels))
      && ParseReasoning(data, d.reasoning).Ok?
      && (p.reasoning == ParseReasoning(data, d.reasoning).value
          || p.reasoning == ParseReasoning(data, d.reasoning).value.(byLabel := map[]))
      && p.reasoning.byLabel.Keys <= LabelNames(p.policy.labels)
      && exists section :: p.policy.budget == ParseBudget(section, d.policy.budget)
  {
  }

  lemma ParsedIsSound(data: map<string, Json>, base: Option<Text>, strategy: string)
    requires ParsePolicy(data, base, strategy).Ok? && (base.Some? ==> Sound(base.value))
    ensures Sound(ParsePolicy(data, base, strategy).value)
  {
    ParsedParts(data, base, strategy);
    DefaultsAreSound();
    ParsedReasoning(data, Defaults(base).reasoning);
  }

  // Labels

  lemma ParsedLabelPrintable(field: Field, allowEmpty: bool)
    requires ParseLabel(field, allowEmpty).Ok?
    ensures LabelPrintable(ParseLabel(field, allowEmpty).value, allowEmpty)
  {
    var raw := field.value.fields;
    if "tag" in raw && raw["tag"].JString? {
      StripTwice(raw["tag"].text);
    }
  }

  lemma {:induction false} ParsedLabelsPrintable(entries: seq<Field>, allowEmpty: bool)
    requires ParseLabels(entries, allowEmpty).Ok?
    ensures AllPrintable(ParseLabels(entries, allowEmpty).value, allowEmpty)
    ensures |ParseLabels(entries, allowEmpty).value| == |entries|
  {
    if entries != [] {
      ParsedLabelsPrintable(entries[..|entries| - 1], allowEmpty);
      ParsedLabelPrintable(entries[|entries| - 1], allowEmpty);
    }
  }

  predicate NoEmptyId(tiers: map<string, seq<string>>) {
    forall tier :: tier in tiers ==> "" !in tiers[tier]
  }

  lemma LegacyLabelsPrintableIff(tiers: map<string, seq<string>>, allowEmpty: bool)
    requires LegacyLabels(tiers).Ok?
    ensures AllPrintable(LegacyLabels(tiers).value, allowEmpty) <==> NoEmptyId(tiers)
  {
    var labels := LegacyLabels(tiers).value;
    NamesOfTiers();
    if AllPrintable(labels, allowEmpty) {
      assert LabelPrintable(labels[0], allowEmpty) && LabelPrintable(labels[1], allowEmpty) && LabelPrintable(labels[2], allowEmpty);
      forall tier | tier in tiers ensures "" !in tiers[tier] {
        assert tier in TIERS;
      }
    }
  }

  lemma NamesOfTiers()
    ensures !Blank("simple") && !Blank("standard") && !Blank("complex")
  {
    assert TrimLeft("simple") == "simple" && TrimRight("simple") == "simple";
    assert TrimLeft("standard") == "standard" && TrimRight("standard") == "standard";
    assert TrimLeft("complex") == "complex" && TrimRight("complex") == "complex";
  }

  /** A label of a policy parsed without a base. */
  predicate BaseLabelOk(l: Label) {
    && !Blank(l.name)
    && (l.route.models != [] || l.route.explicitModels ==> l.route.tag.None?)
    && (l.route.tag.Some? ==> TagOk(l.route.tag.value) && Strip(l.route.tag.value) == l.route.tag.value)
    && (l.route.effort.Some? ==> l.route.effort.value in EFFORT_LADDER)
  }

  /** Inheriting this label keeps it printable: it has a pool of its own, or its default tag is a proper one. */
  predicate SurvivesInheritance(strategy: string, l: Label) {
    && "" !in l.route.models
    && (l.route.models == [] && l.route.tag.None? ==>
          !l.route.explicitModels && TagOk(strategy + "/" + l.name) && Strip(strategy + "/" + l.name) == strategy + "/" + l.name)
  }

  lemma InheritedPrintableIff(strategy: string, labels: seq<Label>, allowEmpty: bool)
    requires forall i :: 0 <= i < |labels| ==> BaseLabelOk(labels[i])
    ensures AllPrintable(InheritLabels(strategy, labels), allowEmpty) <==>
            forall i :: 0 <= i < |labels| ==> SurvivesInheritance(strategy, labels[i])
  {
    var inherited := InheritLabels(strategy, labels);
    forall i | 0 <= i < |labels|
      ensures LabelPrintable(inherited[i], allowEmpty) <==> SurvivesInheritance(strategy, labels[i])
    {
      assert BaseLabelOk(labels[i]);
    }
    if AllPrintable(inherited, allowEmpty) {
      forall i | 0 <= i < |labels| ensures SurvivesInheritance(strategy, labels[i]) {
        assert LabelPrintable(inherited[i], allowEmpty);
      }
    }
  }

  ghost predicate BaseLabels(labels: seq<Label>) {
    labels != [] && forall i :: 0 <= i < |labels| ==> BaseLabelOk(labels[i])
  }

  lemma ParsedAreBaseLabels(entries: seq<Field>, allowEmpty: bool)
    requires entries != [] && ParseLabels(entries, allowEmpty).Ok?
    ensures BaseLabels(ParseLabels(entries, allowEmpty).value)
  {
    ParsedLabelsPrintable(entries, allowEmpty);
    var labels := ParseLabels(entries, allowEmpty).value;
    forall i | 0 <= i < |labels| ensures BaseLabelOk(labels[i]) {
      assert LabelPrintable(labels[i], allowEmpty);
    }
  }

  lemma LegacyAreBaseLabels(tiers: map<string, seq<string>>)
    requires LegacyLabels(tiers).Ok?
    ensures BaseLabels(LegacyLabels(tiers).value)
  {
    NamesOfTiers();
  }

  /** A policy parsed without a base, as the top-level one is. */
  lemma TopLevelLabels(top: map<string, Json>, strategy: string)
    requires ParsePolicy(top, None, strategy).Ok?
    ensures BaseLabels(ParsePolicy(top, None, strategy).value.policy.labels)
  {
    ParsedParts(top, None, strategy);
    var base := ParsePolicy(top, None, strategy).value;
    if "labels" in top {
      ParsedAreBaseLabels(top["labels"].entries, base.policy.selectedModels.Some?);
    } else if "tier_models" in top {
      LegacyAreBaseLabels(ParseTierModels(top["tier_models"], map[]).value);
    }
  }

  /**
   What a strategy document must not rely on: an inherited label whose pool is explicitly empty
   or whose default tag is malformed, and empty model ids in inherited or legacy lists.
   */
  predicate NothingLost(data: map<string, Json>, base: Option<Text>, strategy: string) {
    if "labels" in data then true
    else if "tier_models" in data then
      var tiers := ParseTierModels(data["tier_models"], if base.Some? then base.value.tierModels else map[]);
      tiers.Ok? ==> NoEmptyId(tiers.value)
    else base.Some? ==> forall i :: 0 <= i < |base.value.policy.labels| ==> SurvivesInheritance(strategy, base.value.policy.labels[i])
  }

  lemma LabelsPrintableIff(data: map<string, Json>, base: Option<Text>, strategy: string)
    requires ParsePolicy(data, base, strategy).Ok?
    requires base.Some? ==> BaseLabels(base.value.policy.labels)
    ensures var p := ParsePolicy(data, base, strategy).value.policy;
      p.labels != [] && (AllPrintable(p.labels, p.selectedModels.Some?) <==> NothingLost(data, base, strategy))
  {
    ParsedParts(data, base, strategy);
    var p := ParsePolicy(data, base, strategy).value.policy;
    var allowEmpty := p.selectedModels.Some?;
    if "labels" in data {
      ParsedLabelsPrintable(data["labels"].entries, allowEmpty);
    } else if "tier_models" in data {
      LegacyLabelsPrintableIff(ParseTierModels(data["tier_models"], if base.Some? then base.value.tierModels else map[]).value, allowEmpty);
    } else if base.Some? {
      InheritedPrintableIff(strategy, base.value.policy.labels, allowEmpty);
    }
  }

  /** The base a strategy is parsed under: none, or a top-level policy. */
  ghost predicate IsBaseline(base: Option<Text>, top: map<string, Json>) {
    base.Some? ==> ParsePolicy(top, None, "task_aware") == Ok(base.value)
  }

  /**
   Reprinting a parsed strategy and reading it back under the same base gives the same policy
   if and only if its document relies on nothing that printing loses.
   */
  lemma ReprintIff(data: map<string, Json>, base: Option<Text>, top: map<string, Json>, strategy: string)
    requires IsBaseline(base, top) && ParsePolicy(data, base, strategy).Ok?
    ensures var p := ParsePolicy(data, base, strategy).value;
      ParsePolicy(Print(p), base, strategy) == Ok(Normal(p)) <==> NothingLost(data, base, strategy)
  {
    var p := ParsePolicy(data, base, strategy).value;
    if base.Some? {
      TopLevelLabels(top, "task_aware");
      ParsedIsSound(top, None, "task_aware");
    }
    ParsedIsSound(data, base, strategy);
    ParsedParts(data, base, strategy);
    DefaultsAreSound();
    ParsedReasoning(data, Defaults(base).reasoning);
    LabelsPrintableIff(data, base, strategy);
    RoundTripIff(p, base, strategy);
  }

  // The explicit flag means nothing on a list with members

  lemma NormalHasLabel(labels: seq<Label>, name: string)
    ensures HasLabel(NormalLabels(labels), name) <==> HasLabel(labels, name)
  {
    if HasLabel(labels, name) {
      var i :| 0 <= i < |labels| && labels[i].name == name;
      assert NormalLabels(labels)[i].name == name;
    }
  }

  lemma NormalIndex(labels: seq<Label>, normal: seq<Label>, name: string)
    requires |labels| == |normal| && forall i :: 0 <= i < |labels| ==> labels[i].name == normal[i].name
    requires HasLabel(labels, name) && HasLabel(normal, name)
    ensures IndexOf(normal, name) == IndexOf(labels, name)
  {
    assert labels[IndexOf(normal, name)].name == name && normal[IndexOf(labels, name)].name == name;
  }

  /** A reprinted policy draws every label from the same pool. */
  lemma NormalPool<N>(strategy: string, p: Policy<N>, c: Catalog, tier: string)
    requires HasLabel(p.labels, tier)
    ensures HasLabel(NormalPolicy(p).labels, tier)
    ensures TierPool(strategy, NormalPolicy(p), c, tier) == TierPool(strategy, p, c, tier)
  {
    NormalHasLabel(p.labels, tier);
    NormalIndex(p.labels, NormalLabels(p.labels), tier);
    SameEligible(NormalPolicy(p), p, c.profiles);
    SameNamed(NormalPolicy(p), p, c, RouteOf(p.labels, tier).models);
  }

  /** Selection only sees a policy through its pools, its ordering and which models are eligible. */
  ghost predicate SamePools(s: Selection.Strategy, t: Selection.Strategy, c: Catalog, tier: string) {
    && (HasLabel(s.policy.labels, tier) <==> HasLabel(t.policy.labels, tier))
    && (HasLabel(s.policy.labels, tier) ==> TierPool(s.name, s.policy, c, tier) == TierPool(t.name, t.policy, c, tier))
    && Candidates(s.policy, c) == Candidates(t.policy, c)
    && s.policy.selectedModels == t.policy.selectedModels
    && s.policy.selection == t.policy.selection && s.round == t.round
  }

  lemma SameBest(s: Selection.Strategy, t: Selection.Strategy, facts: Facts, pool: seq<Profile>)
    requires s.policy.selection == t.policy.selection && s.round == t.round && pool != []
    ensures Selection.Best(s, facts, pool) == Selection.Best(t, facts, pool)
  {
    assert Selection.Keys(s, facts, pool) == Selection.Keys(t, facts, pool);
  }

  lemma SameAttempts(s: Selection.Strategy, t: Selection.Strategy, c: Catalog, q: Selection.Query)
    requires SamePools(s, t, c, q.tier) && HasLabel(s.policy.labels, q.tier)
    ensures Selection.Attempts(s, c, q) == Selection.Attempts(t, c, q)
  {
  }

  lemma SamePoolsSelectTheSame(s: Selection.Strategy, t: Selection.Strategy, c: Catalog, q: Selection.Query)
    requires SamePools(s, t, c, q.tier) && (HasLabel(s.policy.labels, q.tier) || q.tier == "default")
    ensures Selection.Select(s, c, q) == Selection.Select(t, c, q)
  {
    if HasLabel(s.policy.labels, q.tier) {
      SameAttempts(s, t, c, q);
      var k := Selection.FirstAttempt(s, c, q);
      if k < Selection.ATTEMPTS {
        SameBest(s, t, q.facts, Selection.Attempt(s, c, q, k));
      } else {
        var rest := Selection.Remaining(q, Candidates(s.policy, c));
        if rest != [] { SameBest(s, t, q.facts, rest); }
      }
    }
  }

  /** So every selection under a reprinted policy is the selection under the policy itself. */
  lemma ReprintedSelectsTheSame(s: Selection.Strategy, c: Catalog, q: Selection.Query)
    requires HasLabel(s.policy.labels, q.tier) || q.tier == "default"
    ensures var t := s.(policy := NormalPolicy(s.policy));
      && (HasLabel(t.policy.labels, q.tier) || q.tier == "default")
      && Selection.Select(t, c, q) == Selection.Select(s, c, q)
  {
    var t := s.(policy := NormalPolicy(s.policy));
    NormalHasLabel(s.policy.labels, q.tier);
    SameEligible(t.policy, s.policy, c.profiles);
    if HasLabel(s.policy.labels, q.tier) {
      NormalPool(s.name, s.policy, c, q.tier);
    }
    SamePoolsSelectTheSame(t, s, c, q);
  }
}
