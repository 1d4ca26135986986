/**
 What becomes of a printed policy that is not read back as it was: which ones are refused, and
 what the others change to.
 */
module Reparse {
  import opened Wrappers
  import opened Catalogs
  import opened PolicyText
  import opened Reprint

  // Labels

  /** A tag loses the space around it. */
  function TrimRoute(r: Route): Route {
    r.(tag := if r.tag.Some? then Some(Strip(r.tag.value)) else None)
  }

  function TrimLabels(labels: seq<Label>): (r: seq<Label>)
    ensures |r| == |labels| && forall i :: 0 <= i < |labels| ==> r[i] == Label(labels[i].name, TrimRoute(labels[i].route))
  {
    seq(|labels|, i requires 0 <= i < |labels| => Label(labels[i].name, TrimRoute(labels[i].route)))
  }

  function Trimmed(t: Text): Text {
    t.(policy := t.policy.(labels := TrimLabels(t.policy.labels)))
  }

  predicate RouteParses(r: Route, allowEmpty: bool) {
    && (r.models != [] || r.explicitModels ==> r.tag.None?)
    && "" !in r.models
    && (r.models == [] && r.explicitModels ==> allowEmpty)
    && (r.tag.Some? ==> TagOk(Strip(r.tag.value)))
    && (r.effort.Some? ==> r.effort.value in EFFORT_LADDER)
  }

  predicate LabelParses(l: Label, allowEmpty: bool) {
    !Blank(l.name) && RouteParses(l.route, allowEmpty)
  }

  predicate AllParse(labels: seq<Label>, allowEmpty: bool) {
    forall i :: 0 <= i < |labels| ==> LabelParses(labels[i], allowEmpty)
  }

  lemma RouteParsesIff(r: Route, allowEmpty: bool)
    ensures var again := ParseRoute(PrintRoute(r), allowEmpty);
      && (again.Ok? <==> RouteParses(r, allowEmpty))
      && (again.Ok? ==> again.value == NormalRoute(TrimRoute(r)))
  {
    PrintedRoute(r);
    StringsOfTexts(r.models);
  }

  function NormalLabel(l: Label): Label {
    Label(l.name, NormalRoute(TrimRoute(l.route)))
  }

  lemma LabelParsesIff(l: Label, allowEmpty: bool)
    ensures var again := ParseLabel(Field(l.name, JObject(PrintRoute(l.route))), allowEmpty);
      && (again.Ok? <==> LabelParses(l, allowEmpty))
      && (again.Ok? ==> again.value == NormalLabel(l))
  {
    RouteParsesIff(l.route, allowEmpty);
  }

  /** One more label at the end of a collection. */
  lemma AppendedParses(entries: seq<Field>, field: Field, allowEmpty: bool, rest: bool, normal: seq<Label>, ok: bool, last: Label)
    requires var parsed := ParseLabels(entries, allowEmpty); (parsed.Ok? <==> rest) && (parsed.Ok? ==> parsed.value == normal)
    requires var parsed := ParseLabel(field, allowEmpty); (parsed.Ok? <==> ok) && (parsed.Ok? ==> parsed.value == last)
    ensures var parsed := ParseLabels(entries + [field], allowEmpty);
      (parsed.Ok? <==> rest && ok) && (parsed.Ok? ==> parsed.value == normal + [last])
  {
    assert (entries + [field])[..|entries|] == entries;
  }

  /** A printed label collection is accepted exactly when each label is, and its tags are then trimmed. */
  lemma {:induction false} LabelsParseIff(labels: seq<Label>, allowEmpty: bool)
    ensures var again := ParseLabels(PrintLabels(labels), allowEmpty);
      && (again.Ok? <==> AllParse(labels, allowEmpty))
      && (again.Ok? ==> again.value == NormalLabels(TrimLabels(labels)))
  {
    if labels == [] {
      assert NormalLabels(TrimLabels(labels)) == [];
    } else {
      var n := |labels| - 1;
      PrintLabelsLast(labels);
      LabelsParseIff(labels[..n], allowEmpty);
      LabelParsesIff(labels[n], allowEmpty);
      AppendedParses(PrintLabels(labels[..n]), Field(labels[n].name, JObject(PrintRoute(labels[n].route))), allowEmpty,
                     AllParse(labels[..n], allowEmpty), NormalLabels(TrimLabels(labels[..n])),
                     LabelParses(labels[n], allowEmpty), NormalLabel(labels[n]));
      assert NormalLabels(TrimLabels(labels)) == NormalLabels(TrimLabels(labels[..n])) + [NormalLabel(labels[n])];
      AllParseSplit(labels, allowEmpty);
    }
  }

  lemma AllParseSplit(labels: seq<Label>, allowEmpty: bool)
    requires labels != []
    ensures var n := |labels| - 1;
      AllParse(labels, allowEmpty) <==> AllParse(labels[..n], allowEmpty) && LabelParses(labels[n], allowEmpty)
  {
    var n := |labels| - 1;
    if AllParse(labels[..n], allowEmpty) && LabelParses(labels[n], allowEmpty) {
      forall i | 0 <= i < |labels| ensures LabelParses(labels[i], allowEmpty) {
        if i < n { assert labels[..n][i] == labels[i]; }
      }
    }
  }

  // Whole policies

  lemma TrimmedNames(labels: seq<Label>)
    ensures LabelNames(TrimLabels(labels)) == LabelNames(labels)
  {
    var trimmed := TrimLabels(labels);
    forall name ensures name in LabelNames(trimmed) <==> name in LabelNames(labels) {
      if name in LabelNames(labels) {
        var i :| 0 <= i < |labels| && labels[i].name == name;
        assert trimmed[i].name == name;
      }
    }
  }

  /** Everything of a printed policy but its labels reads back. */
  ghost predicate RestReadsBack(data: map<string, Json>, t: Text, base: Option<Text>) {
    && PlainPartsReadBack(data, t.policy, Defaults(base).policy)
    && data.Keys <= POLICY_KEYS
    && ParseSelected(data, Defaults(base).policy.selectedModels) == Ok(t.policy.selectedModels)
    && HasReasoning(data)
    && ReasoningReadsBack(data, t, Defaults(base).reasoning, NormalLabels(Trimmed(t).policy.labels))
  }

  predicate HasReasoning(data: map<string, Json>) {
    var s := Section(data, "reasoning", REASONING_KEYS);
    s.Ok? && "reasoning" in data && data["reasoning"].JObject? && s.value == data["reasoning"].fields
  }

  /** So the policy is accepted when its labels are. */
  lemma RestDecidesNothing(data: map<string, Json>, t: Text, base: Option<Text>, strategy: string)
    requires RestReadsBack(data, t, base)
    requires var labelled := ParseLabelled(data, base, strategy, t.policy.selectedModels.Some?);
      labelled.Ok? ==> labelled == Ok(Labelled(NormalLabels(Trimmed(t).policy.labels), map[]))
    ensures var again := ParsePolicy(data, base, strategy);
      && (again.Ok? <==> ParseLabelled(data, base, strategy, t.policy.selectedModels.Some?).Ok?)
      && (again.Ok? ==> again == Ok(Normal(Trimmed(t))))
  {
  }

  lemma PrintedSection(data: map<string, Json>, r: Reasoning)
    requires "reasoning" in data && data["reasoning"] == PrintReasoning(r)
    ensures HasReasoning(data)
  {
    PrintedReasoningFields(r);
  }

  lemma PrintedEfforts(data: map<string, Json>, t: Text, base: Reasoning)
    requires "reasoning" in data && data["reasoning"] == PrintReasoning(t.reasoning)
    requires ReasoningPrintable(t.reasoning, base, t.policy.labels)
    ensures ReasoningReadsBack(data, t, base, NormalLabels(Trimmed(t).policy.labels))
  {
    TrimmedNames(t.policy.labels);
    ReasoningRoundTripIff(data, Trimmed(t), base);
  }

  lemma PrintedRest(data: map<string, Json>, t: Text, base: Option<Text>)
    requires t.policy.budget.maxCost != Some(JNull) && IsPrinted(data, t) && t.policy.labels != []
    requires t.policy.selectedModels.Some? ==> SelectedOk(t.policy.selectedModels.value)
    requires t.policy.selectedModels.None? ==> Defaults(base).policy.selectedModels.None?
    requires ReasoningPrintable(t.reasoning, Defaults(base).reasoning, t.policy.labels)
    ensures RestReadsBack(data, t, base)
  {
    PlainParts(data, t, Defaults(base).policy);
    PrintedSelected(data, t.policy.selectedModels, Defaults(base).policy.selectedModels);
    PrintedSection(data, t.reasoning);
    PrintedEfforts(data, t, Defaults(base).reasoning);
  }

  /** A printed policy whose other parts are sound is accepted exactly when its labels are, and only its tags can change. */
  lemma PrintedParsesIff(data: map<string, Json>, t: Text, base: Option<Text>, strategy: string)
    requires t.policy.budget.maxCost != Some(JNull) && IsPrinted(data, t) && t.policy.labels != []
    requires t.policy.selectedModels.Some? ==> SelectedOk(t.policy.selectedModels.value)
    requires t.policy.selectedModels.None? ==> Defaults(base).policy.selectedModels.None?
    requires ReasoningPrintable(t.reasoning, Defaults(base).reasoning, t.policy.labels)
    ensures var again := ParsePolicy(data, base, strategy);
      && (again.Ok? <==> AllParse(t.policy.labels, t.policy.selectedModels.Some?))
      && (again.Ok? ==> again == Ok(Normal(Trimmed(t))))
  {
    PrintedRest(data, t, base);
    LabelsParseIff(t.policy.labels, t.policy.selectedModels.Some?);
    PrintedLength(t.policy.labels);
    RestDecidesNothing(data, t, base, strategy);
  }

  // Parsed policies

  /** An inherited label that is accepted again: its own pool, or a default tag that is proper once trimmed. */
  predicate StillInherits(strategy: string, l: Label) {
    && "" !in l.route.models
    && (l.route.models == [] && l.route.tag.None? ==> !l.route.explicitModels && TagOk(Strip(strategy + "/" + l.name)))
  }

  /** What a document may rely on to be accepted again: all that `NothingLost` allows, and space around an inherited tag. */
  predicate StillParses(data: map<string, Json>, base: Option<Text>, strategy: string) {
    if "labels" in data then true
    else if "tier_models" in data then
      var tiers := ParseTierModels(data["tier_models"], if base.Some? then base.value.tierModels else map[]);
      tiers.Ok? ==> NoEmptyId(tiers.value)
    else base.Some? ==> forall i :: 0 <= i < |base.value.policy.labels| ==> StillInherits(strategy, base.value.policy.labels[i])
  }

  lemma PrintableParse(labels: seq<Label>, allowEmpty: bool)
    requires AllPrintable(labels, allowEmpty)
    ensures AllParse(labels, allowEmpty)
  {
    forall i | 0 <= i < |labels| ensures LabelParses(labels[i], allowEmpty) {
      assert LabelPrintable(labels[i], allowEmpty);
    }
  }

  lemma LegacyLabelsParseIff(tiers: map<string, seq<string>>, allowEmpty: bool)
    requires LegacyLabels(tiers).Ok?
    ensures AllParse(LegacyLabels(tiers).value, allowEmpty) <==> NoEmptyId(tiers)
  {
    var labels := LegacyLabels(tiers).value;
    LegacyLabelsPrintableIff(tiers, allowEmpty);
    if NoEmptyId(tiers) {
      PrintableParse(labels, allowEmpty);
    }
    if AllParse(labels, allowEmpty) {
      assert LabelParses(labels[0], allowEmpty) && LabelParses(labels[1], allowEmpty) && LabelParses(labels[2], allowEmpty);
      forall tier | tier in tiers ensures "" !in tiers[tier] {
        assert tier in TIERS;
      }
    }
  }

  lemma InheritedParseIff(strategy: string, labels: seq<Label>, allowEmpty: bool)
    requires forall i :: 0 <= i < |labels| ==> BaseLabelOk(labels[i])
    ensures AllParse(InheritLabels(strategy, labels), allowEmpty) <==>
            forall i :: 0 <= i < |labels| ==> StillInherits(strategy, labels[i])
  {
    var inherited := InheritLabels(strategy, labels);
    forall i | 0 <= i < |labels|
      ensures LabelParses(inherited[i], allowEmpty) <==> StillInherits(strategy, labels[i])
    {
      assert BaseLabelOk(labels[i]);
    }
    if AllParse(inherited, allowEmpty) {
      forall i | 0 <= i < |labels| ensures StillInherits(strategy, labels[i]) {
        assert LabelParses(inherited[i], allowEmpty);
      }
    }
  }

  lemma ParsedLabelsParseIff(data: map<string, Json>, base: Option<Text>, strategy: string)
    requires ParsePolicy(data, base, strategy).Ok?
    requires base.Some? ==> BaseLabels(base.value.policy.labels)
    ensures var p := ParsePolicy(data, base, strategy).value.policy;
      p.labels != [] && (AllParse(p.labels, p.selectedModels.Some?) <==> StillParses(data, base, strategy))
  {
    ParsedParts(data, base, strategy);
    LabelsPrintableIff(data, base, strategy);
    var p := ParsePolicy(data, base, strategy).value.policy;
    var allowEmpty := p.selectedModels.Some?;
    if "labels" in data {
      PrintableParse(p.labels, allowEmpty);
    } else if "tier_models" in data {
      LegacyLabelsParseIff(ParseTierModels(data["tier_models"], if base.Some? then base.value.tierModels else map[]).value, allowEmpty);
    } else if base.Some? {
      InheritedParseIff(strategy, base.value.policy.labels, allowEmpty);
    } else {
      PrintableParse(p.labels, allowEmpty);
    }
  }

  /** Parsed policies meet what the other parts of a printed policy need. */
  lemma ParsedRest(data: map<string, Json>, base: Option<Text>, top: map<string, Json>, strategy: string)
    requires IsBaseline(base, top) && ParsePolicy(data, base, strategy).Ok?
    ensures var p := ParsePolicy(data, base, strategy).value;
      && p.policy.budget.maxCost != Some(JNull)
      && (p.policy.selectedModels.Some? ==> SelectedOk(p.policy.selectedModels.value))
      && (p.policy.selectedModels.None? ==> Defaults(base).policy.selectedModels.None?)
      && ReasoningPrintable(p.reasoning, Defaults(base).reasoning, p.policy.labels)
  {
    if base.Some? {
      ParsedIsSound(top, None, "task_aware");
    }
    ParsedIsSound(data, base, strategy);
    ParsedParts(data, base, strategy);
    DefaultsAreSound();
    ParsedReasoning(data, Defaults(base).reasoning);
  }

  /**
   A parsed strategy, printed and parsed again, has one of three ends: refused when it inherits an
   explicitly empty label or one whose default tag is malformed, or lists an empty id; the same
   policy when it loses nothing; and otherwise the policy with the space around inherited tags
   gone.
   */
  lemma ReprintParsesIff(data: map<string, Json>, base: Option<Text>, top: map<string, Json>, strategy: string)
    requires IsBaseline(base, top) && ParsePolicy(data, base, strategy).Ok?
    ensures var p := ParsePolicy(data, base, strategy).value; var again := ParsePolicy(Print(p), base, strategy);
      && (again.Ok? <==> StillParses(data, base, strategy))
      && (again.Ok? ==> again == Ok(Normal(Trimmed(p))))
      && (again == Ok(Normal(p)) <==> NothingLost(data, base, strategy))
  {
    var p := ParsePolicy(data, base, strategy).value;
    if base.Some? {
      TopLevelLabels(top, "task_aware");
    }
    ReprintIff(data, base, top, strategy);
    ParsedLabelsParseIff(data, base, strategy);
    ParsedRest(data, base, top, strategy);
    PrintHasKeys(p);
    PrintHasValues(p);
    PrintHasSections(p);
    PrintedParsesIff(Print(p), p, base, strategy);
  }
}
