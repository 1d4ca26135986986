/**
 Which policy documents are accepted and what is read from them, key by key: the rules a document
 has to keep, and for every setting whether it comes from the document or from the base.
 */
module PolicyRules {
  import opened Wrappers
  import opened Catalogs
  import opened PolicyText

  // Settings

  /** The section is missing, empty in some spelling, or an object with no other keys than these. */
  ghost predicate IsSection(data: map<string, Json>, key: string, known: set<string>, section: map<string, Json>) {
    if key !in data || data[key] in {JNull, JBool(false), JNumber(0.0), JString(""), JArray([]), JObject(map[]), JOrdered([])}
    then section == map[]
    else data[key] == JObject(section) && forall k :: k in section ==> k in known
  }

  /** A setting is the document's if it is there, and else the base's. */
  ghost predicate IsSetting(section: map<string, Json>, key: string, base: Json, value: Json) {
    (key in section && value == section[key]) || (key !in section && value == base)
  }

  ghost predicate AreStrings(value: Json, items: seq<string>) {
    value.JArray? && |value.items| == |items| && forall i :: 0 <= i < |items| ==> value.items[i] == JString(items[i])
  }

  ghost predicate IsMode(value: Json, mode: Mode) {
    || (value == JString("sticky") && mode == Sticky)
    || (value == JString("cached") && mode == Cached)
    || (value == JString("escalate") && mode == Escalate)
    || (value == JString("adaptive") && mode == Adaptive)
    || (value == JString("fresh") && mode == Fresh)
  }

  ghost predicate AreThresholds(data: map<string, Json>, base: Policy<Json>, p: Policy<Json>) {
    && (exists s :: IsSection(data, "escalation", {"max_consecutive_failures", "max_consecutive_truncations"}, s)
         && IsSetting(s, "max_consecutive_failures", base.escalation.maxFailures, p.escalation.maxFailures)
         && IsSetting(s, "max_consecutive_truncations", base.escalation.maxTruncations, p.escalation.maxTruncations))
    && (exists s :: IsSection(data, "hysteresis", {"min_turns_between_switches", "cooldown_seconds", "max_switches_per_session"}, s)
         && IsSetting(s, "min_turns_between_switches", base.hysteresis.minTurns, p.hysteresis.minTurns)
         && IsSetting(s, "cooldown_seconds", base.hysteresis.cooldown, p.hysteresis.cooldown)
         && IsSetting(s, "max_switches_per_session", base.hysteresis.maxSwitches, p.hysteresis.maxSwitches))
    && (exists s :: IsSection(data, "budget", {"max_cost_per_session_usd", "context_pressure_ratio"}, s)
         && IsSetting(s, "context_pressure_ratio", base.budget.pressureRatio, p.budget.pressureRatio)
         && IsLimit(s, base.budget.maxCost, p.budget.maxCost))
  }

  /** A cost limit of null is none. */
  ghost predicate IsLimit(section: map<string, Json>, base: Option<Json>, limit: Option<Json>) {
    if "max_cost_per_session_usd" !in section then limit == base
    else if section["max_cost_per_session_usd"] == JNull then limit == None
    else limit == Some(section["max_cost_per_session_usd"])
  }

  ghost predicate ArePins(data: map<string, Json>, base: seq<string>, breakOn: seq<string>) {
    exists s :: IsSection(data, "pin", {"break_on"}, s) && if "break_on" in s then AreStrings(s["break_on"], breakOn) else breakOn == base
  }

  ghost predicate IsChoice(data: map<string, Json>, base: Policy<Json>, p: Policy<Json>) {
    && (if "mode" in data then IsMode(data["mode"], p.mode) else p.mode == base.mode)
    && (if "selection" in data then data["selection"] == JString(p.selection) else p.selection == base.selection)
  }

  /** Selected models are distinct and none is blank. */
  ghost predicate AreSelected(data: map<string, Json>, base: Option<seq<string>>, selected: Option<seq<string>>) {
    if "selected_models" !in data then selected == base
    else
      && selected.Some? && AreStrings(data["selected_models"], selected.value)
      && (forall i, j :: 0 <= i < j < |selected.value| ==> selected.value[i] != selected.value[j])
      && (forall i :: 0 <= i < |selected.value| ==> !Blank(selected.value[i]))
  }

  // Labels

  ghost predicate AreModels(raw: map<string, Json>, allowEmpty: bool, models: seq<string>) {
    if "models" !in raw then models == []
    else AreStrings(raw["models"], models) && (forall i :: 0 <= i < |models| ==> models[i] != "") && (models == [] ==> allowEmpty)
  }

  /** A tag is trimmed, and is segments between single slashes. */
  ghost predicate IsTag(raw: map<string, Json>, tag: Option<string>) {
    if "tag" !in raw || raw["tag"] == JNull then tag == None
    else
      && raw["tag"].JString? && tag == Some(Strip(raw["tag"].text)) && tag.value != ""
      && tag.value[0] != '/' && tag.value[|tag.value| - 1] != '/'
      && forall i :: 0 <= i < |tag.value| - 1 ==> !(tag.value[i] == '/' && tag.value[i + 1] == '/')
  }

  ghost predicate IsEffort(raw: map<string, Json>, effort: Option<string>) {
    if "reasoning_effort" !in raw || raw["reasoning_effort"] == JNull then effort == None
    else effort.Some? && raw["reasoning_effort"] == JString(effort.value)
         && effort.value in {"none", "minimal", "low", "medium", "high", "xhigh", "max"}
  }

  /** One label: a name that is not blank, models or a tag but not both, and no other keys than these four. */
  ghost predicate IsLabel(field: Field, allowEmpty: bool, l: Label) {
    && field.value.JObject?
    && var raw, r := field.value.fields, l.route;
       && l.name == field.name && !Blank(l.name)
       && (forall k :: k in raw ==> k in {"models", "tag", "description", "reasoning_effort"})
       && !("models" in raw && "tag" in raw)
       && AreModels(raw, allowEmpty, r.models) && r.explicitModels == ("models" in raw)
       && IsTag(raw, r.tag) && IsEffort(raw, r.effort)
       && (if "description" in raw then raw["description"] == JString(r.description) else r.description == "")
  }

  // Each rule is what the parser does

  lemma SectionIff(data: map<string, Json>, key: string, known: set<string>, section: map<string, Json>)
    ensures Section(data, key, known) == Ok(section) <==> IsSection(data, key, known, section)
  {
  }

  lemma {:induction false} StringsIff(items: seq<Json>, texts: seq<string>)
    ensures StringsOf(items) == Some(texts) <==> AreStrings(JArray(items), texts)
  {
    if items != [] {
      StringsIff(items[1..], if texts == [] then [] else texts[1..]);
      if AreStrings(JArray(items), texts) {
        assert forall i :: 0 <= i < |texts| - 1 ==> items[1..][i] == JString(texts[1..][i]);
        assert [texts[0]] + texts[1..] == texts;
      }
      if StringsOf(items) == Some(texts) {
        assert texts[1..] == StringsOf(items[1..]).value;
        forall i | 0 <= i < |texts| ensures items[i] == JString(texts[i]) {
          assert i > 0 ==> items[1..][i - 1] == JString(texts[1..][i - 1]);
        }
      }
    }
  }

  lemma StringListIff(value: Json, texts: seq<string>)
    ensures Strings(value) == Some(texts) <==> AreStrings(value, texts)
  {
    if value.JArray? {
      StringsIff(value.items, texts);
    }
  }

  lemma ModelsIff(raw: map<string, Json>, allowEmpty: bool, models: seq<string>)
    ensures ParseModels(raw, allowEmpty) == Ok(models) <==> AreModels(raw, allowEmpty, models)
  {
    if "models" in raw {
      StringListIff(raw["models"], models);
      assert "" in models <==> !forall i :: 0 <= i < |models| ==> models[i] != "";
    }
  }

  lemma TagIff(raw: map<string, Json>, tag: Option<string>)
    ensures ParseTag(raw) == Ok(tag) <==> IsTag(raw, tag)
  {
  }

  lemma LabelIff(field: Field, allowEmpty: bool, l: Label)
    ensures ParseLabel(field, allowEmpty) == Ok(l) <==> IsLabel(field, allowEmpty, l)
  {
    if field.value.JObject? {
      ModelsIff(field.value.fields, allowEmpty, l.route.models);
      TagIff(field.value.fields, l.route.tag);
    }
  }

  ghost predicate AreLabels(entries: seq<Field>, allowEmpty: bool, labels: seq<Label>) {
    |labels| == |entries| && forall i :: 0 <= i < |labels| ==> IsLabel(entries[i], allowEmpty, labels[i])
  }

  lemma AreLabelsSplit(entries: seq<Field>, allowEmpty: bool, labels: seq<Label>)
    requires entries != [] && labels != []
    ensures var n, m := |entries| - 1, |labels| - 1;
      AreLabels(entries, allowEmpty, labels) <==> AreLabels(entries[..n], allowEmpty, labels[..m]) && IsLabel(entries[n], allowEmpty, labels[m])
  {
    var n, m := |entries| - 1, |labels| - 1;
    if n == m && AreLabels(entries[..n], allowEmpty, labels[..m]) && IsLabel(entries[n], allowEmpty, labels[m]) {
      forall i | 0 <= i < |labels| ensures IsLabel(entries[i], allowEmpty, labels[i]) {
        assert i < n ==> IsLabel(entries[..n][i], allowEmpty, labels[..m][i]);
      }
    }
  }

  lemma ParsedLast(rest: Result<seq<Label>, Invalid>, last: Result<Label, Invalid>, labels: seq<Label>)
    requires labels != []
    ensures (rest.Ok? && last.Ok? && rest.value + [last.value] == labels) <==>
            rest == Ok(labels[..|labels| - 1]) && last == Ok(labels[|labels| - 1])
  {
    if rest.Ok? && last.Ok? && rest.value + [last.value] == labels {
      assert labels[..|labels| - 1] == rest.value;
    }
    assert labels[..|labels| - 1] + [labels[|labels| - 1]] == labels;
  }

  lemma {:induction false} LabelsIff(entries: seq<Field>, allowEmpty: bool, labels: seq<Label>)
    ensures ParseLabels(entries, allowEmpty) == Ok(labels) <==> AreLabels(entries, allowEmpty, labels)
  {
    if entries != [] && labels != [] {
      var n, m := |entries| - 1, |labels| - 1;
      LabelsIff(entries[..n], allowEmpty, labels[..m]);
      LabelIff(entries[n], allowEmpty, labels[m]);
      AreLabelsSplit(entries, allowEmpty, labels);
      ParsedLast(ParseLabels(entries[..n], allowEmpty), ParseLabel(entries[n], allowEmpty), labels);
    }
  }

  // Where the labels come from

  /** Tier lists given here replace the base's, tier by tier. */
  ghost predicate AreTiers(value: Json, base: map<string, seq<string>>, tiers: map<string, seq<string>>) {
    && value.JObject?
    && (forall k :: k in tiers <==> k in base || k in value.fields)
    && (forall k :: k in tiers ==> if k in value.fields then AreStrings(value.fields[k], tiers[k]) else tiers[k] == base[k])
  }

  /** The three tiers, and no others, as labels in this order. */
  ghost predicate AreLegacy(tiers: map<string, seq<string>>, labels: seq<Label>) {
    && (forall k :: k in tiers <==> k in {"simple", "standard", "complex"})
    && labels == [
         Label("simple", Route(tiers["simple"], false, None, "Direct bounded work", None)),
         Label("standard", Route(tiers["standard"], false, None, "Multi-step work", None)),
         Label("complex", Route(tiers["complex"], false, None, "Deep analysis or architecture", None))]
  }

  /** The base's labels; one without models and tag of its own gets the tag of the strategy it comes from. */
  ghost predicate AreInherited(strategy: string, base: seq<Label>, labels: seq<Label>) {
    && |labels| == |base|
    && forall i :: 0 <= i < |base| ==>
         && labels[i].name == base[i].name
         && labels[i].route == if base[i].route.models == [] && base[i].route.tag == None
                               then base[i].route.(tag := Some(strategy + "/" + base[i].name)) else base[i].route
  }

  /** Labels, legacy tiers or the base's labels, in this order and never two at once; tiers only over a base that has tiers. */
  ghost predicate AreLabelled(
      data: map<string, Json>, base: Option<Text>, strategy: string, allowEmpty: bool, labels: seq<Label>, tiers: map<string, seq<string>>)
  {
    && !("labels" in data && "tier_models" in data)
    && if "labels" in data then
         data["labels"].JOrdered? && labels != [] && AreLabels(data["labels"].entries, allowEmpty, labels) && tiers == map[]
       else if "tier_models" in data then
         && (base.Some? ==> base.value.tierModels != map[])
         && AreTiers(data["tier_models"], if base.Some? then base.value.tierModels else map[], tiers) && AreLegacy(tiers, labels)
       else base.Some? && AreInherited(strategy, base.value.policy.labels, labels) && tiers == base.value.tierModels
  }

  lemma TiersIff(value: Json, base: map<string, seq<string>>, tiers: map<string, seq<string>>)
    ensures ParseTierModels(value, base) == Ok(tiers) <==> AreTiers(value, base, tiers)
  {
    if value.JObject? {
      var fields := value.fields;
      forall k | k in fields && k in tiers ensures Strings(fields[k]) == Some(tiers[k]) <==> AreStrings(fields[k], tiers[k]) {
        StringListIff(fields[k], tiers[k]);
      }
      if AreTiers(value, base, tiers) {
        TiersAreRead(fields, base, tiers);
      }
      if ParseTierModels(value, base) == Ok(tiers) {
        assert forall k :: k in fields ==> Strings(fields[k]) == Some(tiers[k]);
      }
    }
  }

  lemma TiersAreRead(fields: map<string, Json>, base: map<string, seq<string>>, tiers: map<string, seq<string>>)
    requires forall k :: k in fields ==> k in tiers && Strings(fields[k]) == Some(tiers[k])
    requires forall k :: k in tiers ==> k in fields || (k in base && tiers[k] == base[k])
    requires forall k :: k in base ==> k in tiers
    ensures ParseTierModels(JObject(fields), base) == Ok(tiers)
  {
    assert ParseTierModels(JObject(fields), base).value == tiers;
  }

  lemma LegacyIff(tiers: map<string, seq<string>>, labels: seq<Label>)
    ensures LegacyLabels(tiers) == Ok(labels) <==> AreLegacy(tiers, labels)
  {
    assert tiers.Keys == TIERS <==> forall k :: k in tiers <==> k in {"simple", "standard", "complex"};
    assert Description("simple") == "Direct bounded work" && Description("standard") == "Multi-step work" by {
      assert |"simple"| == 6 && |"standard"| == 8;
    }
    assert Description("complex") == "Deep analysis or architecture" by {
      assert |"complex"| == 7 && |"simple"| == 6 && |"standard"| == 8;
    }
  }

  lemma InheritedIff(strategy: string, base: seq<Label>, labels: seq<Label>)
    ensures InheritLabels(strategy, base) == labels <==> AreInherited(strategy, base, labels)
  {
  }

  lemma NothingLegacy()
    ensures LegacyLabels(map[]).Err?
  {
    var none: map<string, seq<string>> := map[];
    assert "simple" in TIERS && "simple" !in none.Keys;
  }

  lemma LabelledIff(
      data: map<string, Json>, base: Option<Text>, strategy: string, allowEmpty: bool, labels: seq<Label>, tiers: map<string, seq<string>>)
    ensures ParseLabelled(data, base, strategy, allowEmpty) == Ok(Labelled(labels, tiers)) <==>
            AreLabelled(data, base, strategy, allowEmpty, labels, tiers)
  {
    if "labels" in data {
      if data["labels"].JOrdered? {
        LabelsIff(data["labels"].entries, allowEmpty, labels);
      }
    } else if "tier_models" in data {
      TiersIff(data["tier_models"], if base.Some? then base.value.tierModels else map[], tiers);
      LegacyIff(tiers, labels);
    } else if base.Some? {
      InheritedIff(strategy, base.value.policy.labels, labels);
    } else {
      NothingLegacy();
    }
  }

  // Reasoning

  ghost predicate IsLevel(level: string) {
    level in {"none", "minimal", "low", "medium", "high", "xhigh", "max"}
  }

  /** A map of effort levels; null is an empty one. */
  ghost predicate AreEfforts(value: Json, efforts: map<string, string>) {
    if value == JNull then efforts == map[]
    else
      && value.JObject? && (forall k :: k in efforts <==> k in value.fields)
      && forall k :: k in efforts ==> value.fields[k] == JString(efforts[k]) && IsLevel(efforts[k])
  }

  /** Levels by tier are added to the base's, levels by label replace them; mode and fallback are settings. */
  ghost predicate IsReasoning(section: map<string, Json>, base: Reasoning, r: Reasoning) {
    && (if "mode" in section then section["mode"] == JString(r.mode) else r.mode == base.mode)
    && r.mode in {"off", "preserve", "fill", "cap", "override"}
    && (if "fallback" in section then section["fallback"] == JString(r.fallback) else r.fallback == base.fallback)
    && IsLevel(r.fallback)
    && (exists given :: (if "effort_by_tier" in section then AreEfforts(section["effort_by_tier"], given) else given == map[])
                        && r.byTier == base.byTier + given)
    && (forall k :: k in r.byTier ==> k in {"simple", "standard", "complex"})
    && (if "effort_by_label" in section then AreEfforts(section["effort_by_label"], r.byLabel) else r.byLabel == base.byLabel)
  }

  /** Null or nothing is the base's; otherwise it must be an object with no other keys than these. */
  ghost predicate IsReasoningOf(data: map<string, Json>, base: Reasoning, r: Reasoning) {
    if "reasoning" !in data || data["reasoning"] == JNull then r == base
    else
      && data["reasoning"].JObject?
      && (forall k :: k in data["reasoning"].fields ==> k in {"mode", "effort_by_tier", "effort_by_label", "fallback"})
      && IsReasoning(data["reasoning"].fields, base, r)
  }

  lemma EffortsIff(value: Json, efforts: map<string, string>)
    ensures ParseEfforts(value) == Some(efforts) <==> AreEfforts(value, efforts)
  {
    if AreEfforts(value, efforts) && !value.JNull? {
      forall k | k in value.fields ensures value.fields[k].JString? && value.fields[k].text in EFFORT_LADDER {
        assert k in efforts;
      }
      assert ParseEfforts(value).value == efforts;
    }
  }

  lemma ReasoningIff(data: map<string, Json>, base: Reasoning, r: Reasoning)
    ensures ParseReasoning(data, base) == Ok(r) <==> IsReasoningOf(data, base, r)
  {
    if "reasoning" in data && data["reasoning"].JObject? {
      var section := data["reasoning"].fields;
      if "effort_by_label" in section {
        EffortsIff(section["effort_by_label"], r.byLabel);
      }
      if "effort_by_tier" in section {
        forall given ensures ParseEfforts(section["effort_by_tier"]) == Some(given) <==> AreEfforts(section["effort_by_tier"], given) {
          EffortsIff(section["effort_by_tier"], given);
        }
      }
    }
  }

  // Whole policies

  /** Efforts are for labels there are; those inherited for other labels are forgotten once the document has labels of its own. */
  ghost predicate IsFitted(data: map<string, Json>, labels: seq<Label>, read: Reasoning, r: Reasoning) {
    exists s :: IsSection(data, "reasoning", {"mode", "effort_by_tier", "effort_by_label", "fallback"}, s)
      && if forall k :: k in read.byLabel ==> HasLabel(labels, k) then r == read
         else "labels" in data && "effort_by_label" !in s && r == read.(byLabel := map[])
  }

  /** This policy is what the document says over this base, which is the built-in policy when there is none. */
  ghost predicate IsPolicyOf(data: map<string, Json>, base: Option<Text>, strategy: string, t: Text) {
    var d := if base.Some? then base.value else DEFAULTS;
    && AreSettings(data, d.policy, t.policy)
    && AreLabelled(data, base, strategy, t.policy.selectedModels.Some?, t.policy.labels, t.tierModels)
    && IsFittedReasoning(data, d.reasoning, t.policy.labels, t.reasoning)
  }

  /** What the parser reads of the three sections of thresholds. */
  ghost predicate ThresholdsRead(data: map<string, Json>, base: Policy<Json>, p: Policy<Json>) {
    var escalation, hysteresis := Section(data, "escalation", ESCALATION_KEYS), Section(data, "hysteresis", HYSTERESIS_KEYS);
    var budget := Section(data, "budget", BUDGET_KEYS);
    && escalation.Ok? && p.escalation == ParseEscalation(escalation.value, base.escalation)
    && hysteresis.Ok? && p.hysteresis == ParseHysteresis(hysteresis.value, base.hysteresis)
    && budget.Ok? && p.budget == ParseBudget(budget.value, base.budget)
  }

  lemma EscalationIff(data: map<string, Json>, base: Escalation<Json>, e: Escalation<Json>)
    ensures var read := Section(data, "escalation", ESCALATION_KEYS);
      (read.Ok? && e == ParseEscalation(read.value, base)) <==>
      exists s :: IsSection(data, "escalation", {"max_consecutive_failures", "max_consecutive_truncations"}, s)
           && IsSetting(s, "max_consecutive_failures", base.maxFailures, e.maxFailures)
           && IsSetting(s, "max_consecutive_truncations", base.maxTruncations, e.maxTruncations)
  {
    var read := Section(data, "escalation", ESCALATION_KEYS);
    if read.Ok? {
      SectionIff(data, "escalation", ESCALATION_KEYS, read.value);
    }
    forall s | IsSection(data, "escalation", {"max_consecutive_failures", "max_consecutive_truncations"}, s) ensures read == Ok(s) {
      SectionIff(data, "escalation", ESCALATION_KEYS, s);
    }
  }

  lemma HysteresisIff(data: map<string, Json>, base: Hysteresis<Json>, h: Hysteresis<Json>)
    ensures var read := Section(data, "hysteresis", HYSTERESIS_KEYS);
      (read.Ok? && h == ParseHysteresis(read.value, base)) <==>
      exists s :: IsSection(data, "hysteresis", {"min_turns_between_switches", "cooldown_seconds", "max_switches_per_session"}, s)
           && IsSetting(s, "min_turns_between_switches", base.minTurns, h.minTurns)
           && IsSetting(s, "cooldown_seconds", base.cooldown, h.cooldown)
           && IsSetting(s, "max_switches_per_session", base.maxSwitches, h.maxSwitches)
  {
    var read := Section(data, "hysteresis", HYSTERESIS_KEYS);
    if read.Ok? {
      SectionIff(data, "hysteresis", HYSTERESIS_KEYS, read.value);
    }
    forall s | IsSection(data, "hysteresis", {"min_turns_between_switches", "cooldown_seconds", "max_switches_per_session"}, s)
      ensures read == Ok(s)
    {
      SectionIff(data, "hysteresis", HYSTERESIS_KEYS, s);
    }
  }

  lemma BudgetIff(data: map<string, Json>, base: Budget<Json>, b: Budget<Json>)
    ensures var read := Section(data, "budget", BUDGET_KEYS);
      (read.Ok? && b == ParseBudget(read.value, base)) <==>
      exists s :: IsSection(data, "budget", {"max_cost_per_session_usd", "context_pressure_ratio"}, s)
           && IsSetting(s, "context_pressure_ratio", base.pressureRatio, b.pressureRatio) && IsLimit(s, base.maxCost, b.maxCost)
  {
    var read := Section(data, "budget", BUDGET_KEYS);
    if read.Ok? {
      SectionIff(data, "budget", BUDGET_KEYS, read.value);
    }
    forall s | IsSection(data, "budget", {"max_cost_per_session_usd", "context_pressure_ratio"}, s) ensures read == Ok(s) {
      SectionIff(data, "budget", BUDGET_KEYS, s);
    }
  }

  lemma ThresholdsIff(data: map<string, Json>, base: Policy<Json>, p: Policy<Json>)
    ensures ThresholdsRead(data, base, p) <==> AreThresholds(data, base, p)
  {
    EscalationIff(data, base.escalation, p.escalation);
    HysteresisIff(data, base.hysteresis, p.hysteresis);
    BudgetIff(data, base.budget, p.budget);
  }

  lemma PinsIff(data: map<string, Json>, base: seq<string>, breakOn: seq<string>)
    ensures var read := Section(data, "pin", PIN_KEYS);
      (read.Ok? && ParsePin(read.value, base) == Ok(breakOn)) <==> ArePins(data, base, breakOn)
  {
    var read := Section(data, "pin", PIN_KEYS);
    if read.Ok? {
      SectionIff(data, "pin", PIN_KEYS, read.value);
      if "break_on" in read.value {
        StringListIff(read.value["break_on"], breakOn);
      }
    }
    forall s | IsSection(data, "pin", {"break_on"}, s) ensures read == Ok(s) {
      SectionIff(data, "pin", PIN_KEYS, s);
    }
  }

  lemma ModeIff(data: map<string, Json>, base: Mode, mode: Mode)
    ensures ParseMode(data, base) == Ok(mode) <==> if "mode" in data then IsMode(data["mode"], mode) else mode == base
  {
    assert |"sticky"| == 6 && |"cached"| == 6 && |"escalate"| == 8 && |"adaptive"| == 8 && |"fresh"| == 5;
    assert "sticky"[0] == 's' && "cached"[0] == 'c' && "escalate"[0] == 'e' && "adaptive"[0] == 'a';
  }

  lemma ChoiceIff(data: map<string, Json>, base: Policy<Json>, p: Policy<Json>)
    ensures (ParseMode(data, base.mode) == Ok(p.mode) && ParseSelection(data, base.selection) == Ok(p.selection)) <==> IsChoice(data, base, p)
  {
    ModeIff(data, base.mode, p.mode);
  }

  lemma SelectedIff(data: map<string, Json>, base: Option<seq<string>>, selected: Option<seq<string>>)
    ensures ParseSelected(data, base) == Ok(selected) <==> AreSelected(data, base, selected)
  {
    if "selected_models" in data && selected.Some? {
      StringListIff(data["selected_models"], selected.value);
      assert (forall item :: item in selected.value ==> !Blank(item)) <==> forall i :: 0 <= i < |selected.value| ==> !Blank(selected.value[i]);
    }
  }

  lemma FittedIff(data: map<string, Json>, labels: seq<Label>, read: Reasoning, r: Reasoning)
    ensures var section := Section(data, "reasoning", REASONING_KEYS);
      (section.Ok? && CheckEfforts(data, read, section.value, labels) == Ok(r)) <==> IsFitted(data, labels, read, r)
  {
    var section := Section(data, "reasoning", REASONING_KEYS);
    NamesIff(read.byLabel, labels);
    if section.Ok? {
      SectionIff(data, "reasoning", REASONING_KEYS, section.value);
    }
    forall s | IsSection(data, "reasoning", {"mode", "effort_by_tier", "effort_by_label", "fallback"}, s) ensures section == Ok(s) {
      SectionIff(data, "reasoning", REASONING_KEYS, s);
    }
  }

  lemma NamesIff(efforts: map<string, string>, labels: seq<Label>)
    ensures efforts.Keys <= LabelNames(labels) <==> forall k :: k in efforts ==> HasLabel(labels, k)
  {
  }

  /** What the parser reads besides labels and reasoning. */
  ghost predicate SettingsRead(data: map<string, Json>, base: Policy<Json>, p: Policy<Json>) {
    var pin := Section(data, "pin", PIN_KEYS);
    && data.Keys <= POLICY_KEYS
    && ThresholdsRead(data, base, p)
    && pin.Ok? && ParsePin(pin.value, base.breakOn) == Ok(p.breakOn)
    && ParseMode(data, base.mode) == Ok(p.mode) && ParseSelection(data, base.selection) == Ok(p.selection)
    && ParseSelected(data, base.selectedModels) == Ok(p.selectedModels)
  }

  ghost predicate AreSettings(data: map<string, Json>, base: Policy<Json>, p: Policy<Json>) {
    && (forall k :: k in data ==> k in {
         "mode", "selection", "selected_models", "tier_models", "labels", "escalation", "hysteresis", "pin", "budget", "reasoning"})
    && AreThresholds(data, base, p) && ArePins(data, base.breakOn, p.breakOn)
    && IsChoice(data, base, p) && AreSelected(data, base.selectedModels, p.selectedModels)
  }

  lemma SettingsIff(data: map<string, Json>, base: Policy<Json>, p: Policy<Json>)
    ensures SettingsRead(data, base, p) <==> AreSettings(data, base, p)
  {
    ThresholdsIff(data, base, p);
    PinsIff(data, base.breakOn, p.breakOn);
    ChoiceIff(data, base, p);
    SelectedIff(data, base.selectedModels, p.selectedModels);
    assert data.Keys <= POLICY_KEYS <==> forall k :: k in data ==> k in POLICY_KEYS;
  }

  ghost predicate ReasoningRead(data: map<string, Json>, base: Reasoning, labels: seq<Label>, r: Reasoning) {
    var read, section := ParseReasoning(data, base), Section(data, "reasoning", REASONING_KEYS);
    read.Ok? && section.Ok? && CheckEfforts(data, read.value, section.value, labels) == Ok(r)
  }

  ghost predicate IsFittedReasoning(data: map<string, Json>, base: Reasoning, labels: seq<Label>, r: Reasoning) {
    exists read :: IsReasoningOf(data, base, read) && IsFitted(data, labels, read, r)
  }

  /** What the parser reads, part by part. */
  ghost predicate Reads(data: map<string, Json>, base: Option<Text>, strategy: string, t: Text) {
    var d := Defaults(base);
    && SettingsRead(data, d.policy, t.policy)
    && ParseLabelled(data, base, strategy, t.policy.selectedModels.Some?) == Ok(Labelled(t.policy.labels, t.tierModels))
    && ReasoningRead(data, d.reasoning, t.policy.labels, t.reasoning)
  }

  lemma ParsedReads(data: map<string, Json>, base: Option<Text>, strategy: string, t: Text)
    ensures ParsePolicy(data, base, strategy) == Ok(t) <==> Reads(data, base, strategy, t)
  {
  }

  lemma ReasoningPart(data: map<string, Json>, base: Reasoning, labels: seq<Label>, r: Reasoning)
    ensures ReasoningRead(data, base, labels, r) <==> IsFittedReasoning(data, base, labels, r)
  {
    var read := ParseReasoning(data, base);
    if read.Ok? {
      ReasoningIff(data, base, read.value);
      FittedIff(data, labels, read.value, r);
    }
    forall q | IsReasoningOf(data, base, q) ensures read == Ok(q) {
      ReasoningIff(data, base, q);
    }
  }

  /** A document is accepted as a policy if and only if it keeps these rules, and that policy is what they say. */
  lemma PolicyIff(data: map<string, Json>, base: Option<Text>, strategy: string, t: Text)
    ensures ParsePolicy(data, base, strategy) == Ok(t) <==> IsPolicyOf(data, base, strategy, t)
  {
    var d := Defaults(base);
    ParsedReads(data, base, strategy, t);
    SettingsIff(data, d.policy, t.policy);
    LabelledIff(data, base, strategy, t.policy.selectedModels.Some?, t.policy.labels, t.tierModels);
    ReasoningPart(data, d.reasoning, t.policy.labels, t.reasoning);
  }

  /** It is refused exactly when there is no such policy. */
  lemma RefusedIff(data: map<string, Json>, base: Option<Text>, strategy: string)
    ensures ParsePolicy(data, base, strategy).Err? <==> forall t :: !IsPolicyOf(data, base, strategy, t)
  {
    var p := ParsePolicy(data, base, strategy);
    if p.Ok? {
      PolicyIff(data, base, strategy, p.value);
    } else {
      forall t ensures !IsPolicyOf(data, base, strategy, t) {
        PolicyIff(data, base, strategy, t);
      }
    }
  }

  /** Without a base, what a document of labels alone leaves open is the built-in policy. */
  lemma BuiltInSettings(labels: Json, strategy: string, t: Text)
    requires ParsePolicy(map["labels" := labels], None, strategy) == Ok(t)
    ensures var p := t.policy;
      && p.mode == Sticky && p.selection == "balanced" && p.selectedModels == None
      && p.escalation == Escalation(JNumber(2.0), JNumber(2.0))
      && p.hysteresis == Hysteresis(JNumber(2.0), JNumber(45.0), JNumber(8.0))
      && p.breakOn == ["capability_gap", "context_pressure", "output_limit"]
      && p.budget == Budget(None, JNumber(0.75))
      && t.reasoning == Reasoning("override", map["simple" := "low", "standard" := "medium", "complex" := "high"], map[], "medium")
  {
    var data := map["labels" := labels];
    assert |"labels"| == 6 && |"mode"| == 4 && |"selection"| == 9 && |"selected_models"| == 15;
    assert |"escalation"| == 10 && |"hysteresis"| == 10 && |"pin"| == 3 && |"budget"| == 6 && |"reasoning"| == 9;
    assert "labels"[0] == 'l' && "budget"[0] == 'b';
    assert "mode" !in data && "selection" !in data && "selected_models" !in data && "reasoning" !in data;
    assert "escalation" !in data && "hysteresis" !in data && "pin" !in data && "budget" !in data;
  }
}
