/**
 Routing policies as documents: the printer, the parser with its inheritance from a base
 policy, and exactly when parsing what was printed gives the same policy back.
 */
module PolicyText {
  import opened Wrappers
  import opened Catalogs

  datatype Field = Field(name: string, value: Json)

  /** A document value. An object whose order carries meaning (a label collection) is `JOrdered`. */
  datatype Json =
    | JNull
    | JBool(flag: bool)
    | JNumber(number: real)
    | JString(text: string)
    | JArray(items: seq<Json>)
    | JObject(fields: map<string, Json>)
    | JOrdered(entries: seq<Field>)

  datatype Reasoning = Reasoning(mode: string, byTier: map<string, string>, byLabel: map<string, string>, fallback: string)

  /** A policy with the parts only documents know: thresholds are raw values, and legacy tier lists survive. */
  datatype Text = Text(policy: Policy<Json>, tierModels: map<string, seq<string>>, reasoning: Reasoning)

  /** Why a document is refused; which check failed is all that is kept. */
  datatype Invalid =
    | NotAnObject | UnknownKey | BadSection | BadPin | BadSelected | MixedLabels | BadTierModels
    | NoLabels | BadLabelName | BadLabel | BadReasoning | BadMode | BadSelection

  const TIERS: set<string> := {"simple", "standard", "complex"}
  const EFFORT_LADDER: set<string> := {"none", "minimal", "low", "medium", "high", "xhigh", "max"}
  const REASONING_MODES: set<string> := {"off", "preserve", "fill", "cap", "override"}

  // Text helpers

  predicate IsSpace(c: char) {
    c == ' ' || c == '\t' || c == '\n' || c == '\r'
  }

  function TrimLeft(s: string): (r: string)
    ensures r == [] || !IsSpace(r[0])
  {
    if s != [] && IsSpace(s[0]) then TrimLeft(s[1..]) else s
  }

  function TrimRight(s: string): (r: string)
    ensures r == [] || !IsSpace(r[|r| - 1])
    ensures s != [] && !IsSpace(s[0]) ==> r != [] && r[0] == s[0]
  {
    if s != [] && IsSpace(s[|s| - 1]) then TrimRight(s[..|s| - 1]) else s
  }

  function Strip(s: string): string {
    TrimRight(TrimLeft(s))
  }

  lemma StripTwice(s: string)
    ensures Strip(Strip(s)) == Strip(s)
  {
  }

  predicate Blank(s: string) {
    Strip(s) == ""
  }

  predicate DoubleSlash(s: string) {
    exists i :: 0 <= i < |s| - 1 && s[i] == '/' && s[i + 1] == '/'
  }

  /** A scoped tag: non-empty segments between slashes. */
  predicate TagOk(tag: string) {
    tag != "" && tag[0] != '/' && tag[|tag| - 1] != '/' && !DoubleSlash(tag)
  }

  function Texts(items: seq<string>): seq<Json> {
    if items == [] then [] else [JString(items[0])] + Texts(items[1..])
  }

  /** The strings of a list, if it is one of strings only. */
  function Strings(value: Json): Option<seq<string>> {
    if value.JArray? then StringsOf(value.items) else None
  }

  function StringsOf(items: seq<Json>): Option<seq<string>> {
    if items == [] then Some([])
    else if !items[0].JString? then None
    else
      var rest := StringsOf(items[1..]);
      if rest.None? then None else Some([items[0].text] + rest.value)
  }

  lemma {:induction false} StringsOfTexts(items: seq<string>)
    ensures StringsOf(Texts(items)) == Some(items)
  {
    if items != [] {
      StringsOfTexts(items[1..]);
      assert [items[0]] + items[1..] == items;
    }
  }

  // Printing

  function PrintRoute(r: Route): map<string, Json> {
    map["description" := JString(r.description)]
    + (if r.models != [] || r.explicitModels then map["models" := JArray(Texts(r.models))] else map[])
    + (if r.tag.Some? then map["tag" := JString(r.tag.value)] else map[])
    + (if r.effort.Some? then map["reasoning_effort" := JString(r.effort.value)] else map[])
  }

  function PrintLabels(labels: seq<Label>): seq<Field> {
    if labels == [] then []
    else [Field(labels[0].name, JObject(PrintRoute(labels[0].route)))] + PrintLabels(labels[1..])
  }

  function PrintStrings(m: map<string, string>): Json {
    JObject(map k | k in m :: JString(m[k]))
  }

  function PrintReasoning(r: Reasoning): Json {
    JObject(map[
      "mode" := JString(r.mode), "effort_by_label" := PrintStrings(r.byLabel),
      "effort_by_tier" := PrintStrings(r.byTier), "fallback" := JString(r.fallback)])
  }

  function ModeText(mode: Mode): string {
    match mode
    case Sticky => "sticky"
    case Cached => "cached"
    case Escalate => "escalate"
    case Adaptive => "adaptive"
    case Fresh => "fresh"
  }

  function PrintEscalation(e: Escalation<Json>): map<string, Json> {
    map["max_consecutive_failures" := e.maxFailures, "max_consecutive_truncations" := e.maxTruncations]
  }

  function PrintHysteresis(h: Hysteresis<Json>): map<string, Json> {
    map[
      "min_turns_between_switches" := h.minTurns,
      "cooldown_seconds" := h.cooldown,
      "max_switches_per_session" := h.maxSwitches]
  }

  function PrintBudget(b: Budget<Json>): map<string, Json> {
    map[
      "max_cost_per_session_usd" := if b.maxCost.Some? then b.maxCost.value else JNull,
      "context_pressure_ratio" := b.pressureRatio]
  }

  /** The printed policy without its legacy tier lists, as a version 2 merge keeps it. */
  function Print(t: Text): map<string, Json> {
    var p := t.policy;
    map[
      "mode" := JString(ModeText(p.mode)),
      "selection" := JString(p.selection),
      "labels" := JOrdered(PrintLabels(p.labels)),
      "escalation" := JObject(PrintEscalation(p.escalation)),
      "hysteresis" := JObject(PrintHysteresis(p.hysteresis)),
      "pin" := JObject(map["break_on" := JArray(Texts(p.breakOn))]),
      "budget" := JObject(PrintBudget(p.budget)),
      "reasoning" := PrintReasoning(t.reasoning)]
    + (if p.selectedModels.Some? then map["selected_models" := JArray(Texts(p.selectedModels.value))] else map[])
  }

  // Parsing

  predicate Falsy(value: Json) {
    match value
    case JNull => true
    case JBool(flag) => !flag
    case JNumber(number) => number == 0.0
    case JString(text) => text == ""
    case JArray(items) => items == []
    case JObject(fields) => fields == map[]
    case JOrdered(entries) => entries == []
  }

  /** `data.get(key) or {}`, which must then be an object with known keys only. */
  function Section(data: map<string, Json>, key: string, known: set<string>): Result<map<string, Json>, Invalid> {
    if key !in data || Falsy(data[key]) then Ok(map[])
    else if !data[key].JObject? then Err(BadSection)
    else if !(data[key].fields.Keys <= known) then Err(UnknownKey)
    else Ok(data[key].fields)
  }

  function Or(section: map<string, Json>, key: string, base: Json): Json {
    if key in section then section[key] else base
  }

  const ESCALATION_KEYS: set<string> := {"max_consecutive_failures", "max_consecutive_truncations"}
  const HYSTERESIS_KEYS: set<string> := {"min_turns_between_switches", "cooldown_seconds", "max_switches_per_session"}
  const PIN_KEYS: set<string> := {"break_on"}
  const BUDGET_KEYS: set<string> := {"max_cost_per_session_usd", "context_pressure_ratio"}
  const REASONING_KEYS: set<string> := {"mode", "effort_by_tier", "effort_by_label", "fallback"}
  const POLICY_KEYS: set<string> := {
    "mode", "selection", "selected_models", "tier_models", "labels",
    "escalation", "hysteresis", "pin", "budget", "reasoning"}
  const ROUTE_KEYS: set<string> := {"models", "tag", "description", "reasoning_effort"}

  function ParseEscalation(section: map<string, Json>, base: Escalation<Json>): Escalation<Json> {
    Escalation(Or(section, "max_consecutive_failures", base.maxFailures), Or(section, "max_consecutive_truncations", base.maxTruncations))
  }

  function ParseHysteresis(section: map<string, Json>, base: Hysteresis<Json>): Hysteresis<Json> {
    Hysteresis(
      Or(section, "min_turns_between_switches", base.minTurns),
      Or(section, "cooldown_seconds", base.cooldown),
      Or(section, "max_switches_per_session", base.maxSwitches))
  }

  function Optional(value: Json): Option<Json> {
    if value.JNull? then None else Some(value)
  }

  function ParseBudget(section: map<string, Json>, base: Budget<Json>): Budget<Json> {
    Budget(
      if "max_cost_per_session_usd" in section then Optional(section["max_cost_per_session_usd"]) else base.maxCost,
      Or(section, "context_pressure_ratio", base.pressureRatio))
  }

  function ParsePin(section: map<string, Json>, base: seq<string>): Result<seq<string>, Invalid> {
    if "break_on" !in section then Ok(base)
    else
      var reasons := Strings(section["break_on"]);
      if reasons.None? then Err(BadPin) else Ok(reasons.value)
  }

  function ParseMode(data: map<string, Json>, base: Mode): Result<Mode, Invalid> {
    if "mode" !in data then Ok(base)
    else match data["mode"]
      case JString("sticky") => Ok(Sticky)
      case JString("cached") => Ok(Cached)
      case JString("escalate") => Ok(Escalate)
      case JString("adaptive") => Ok(Adaptive)
      case JString("fresh") => Ok(Fresh)
      case _ => Err(BadMode)
  }

  function ParseSelection(data: map<string, Json>, base: string): Result<string, Invalid> {
    if "selection" !in data then Ok(base)
    else if data["selection"].JString? then Ok(data["selection"].text) else Err(BadSelection)
  }

  predicate Distinct(items: seq<string>) {
    forall i, j :: 0 <= i < j < |items| ==> items[i] != items[j]
  }

  predicate SelectedOk(items: seq<string>) {
    Distinct(items) && forall item :: item in items ==> !Blank(item)
  }

  function ParseSelected(data: map<string, Json>, base: Option<seq<string>>): Result<Option<seq<string>>, Invalid> {
    if "selected_models" !in data then Ok(base)
    else
      var items := Strings(data["selected_models"]);
      if items.None? || !SelectedOk(items.value) then Err(BadSelected) else Ok(items)
  }

  // Labels

  function ParseEffort(raw: map<string, Json>): Result<Option<string>, Invalid> {
    if "reasoning_effort" !in raw || raw["reasoning_effort"].JNull? then Ok(None)
    else if raw["reasoning_effort"].JString? && raw["reasoning_effort"].text in EFFORT_LADDER then Ok(Some(raw["reasoning_effort"].text))
    else Err(BadLabel)
  }

  function ParseTag(raw: map<string, Json>): Result<Option<string>, Invalid> {
    if "tag" !in raw || raw["tag"].JNull? then Ok(None)
    else if !raw["tag"].JString? || Blank(raw["tag"].text) || !TagOk(Strip(raw["tag"].text)) then Err(BadLabel)
    else Ok(Some(Strip(raw["tag"].text)))
  }

  function ParseModels(raw: map<string, Json>, allowEmpty: bool): Result<seq<string>, Invalid> {
    if "models" !in raw then Ok([])
    else
      var models := Strings(raw["models"]);
      if models.None? || "" in models.value || (models.value == [] && !allowEmpty) then Err(BadLabel) else Ok(models.value)
  }

  function ParseRoute(raw: map<string, Json>, allowEmpty: bool): Result<Route, Invalid> {
    var models, tag, effort := ParseModels(raw, allowEmpty), ParseTag(raw), ParseEffort(raw);
    if !(raw.Keys <= ROUTE_KEYS) || ("models" in raw && "tag" in raw) then Err(BadLabel)
    else if models.Err? then Err(models.error)
    else if tag.Err? then Err(tag.error)
    else if "description" in raw && !raw["description"].JString? then Err(BadLabel)
    else if effort.Err? then Err(effort.error)
    else Ok(Route(models.value, "models" in raw, tag.value, if "description" in raw then raw["description"].text else "", effort.value))
  }

  function ParseLabel(field: Field, allowEmpty: bool): Result<Label, Invalid> {
    if Blank(field.name) then Err(BadLabelName)
    else if !field.value.JObject? then Err(BadLabel)
    else
      var route := ParseRoute(field.value.fields, allowEmpty);
      if route.Err? then Err(route.error) else Ok(Label(field.name, route.value))
  }

  function ParseLabels(entries: seq<Field>, allowEmpty: bool): Result<seq<Label>, Invalid> {
    if entries == [] then Ok([])
    else
      var rest := ParseLabels(entries[..|entries| - 1], allowEmpty);
      var last := ParseLabel(entries[|entries| - 1], allowEmpty);
      if rest.Err? then rest else if last.Err? then Err(last.error) else Ok(rest.value + [last.value])
  }

  /** The label collection in one pass; the first bad label is reported. */
  method LabelsFromDict(value: Json, allowEmpty: bool) returns (r: Result<seq<Label>, Invalid>)
    ensures r == if !value.JOrdered? || value.entries == [] then Err(NoLabels) else ParseLabels(value.entries, allowEmpty)
  {
    if !value.JOrdered? || value.entries == [] {
      return Err(NoLabels);
    }
    var labels: seq<Label> := [];
    var i := 0;
    while i < |value.entries|
      invariant 0 <= i <= |value.entries|
      invariant ParseLabels(value.entries[..i], allowEmpty) == Ok(labels)
    {
      assert value.entries[..i + 1][..i] == value.entries[..i];
      var entry := ParseLabel(value.entries[i], allowEmpty);
      if entry.Err? {
        FirstErrorWins(value.entries, i + 1, allowEmpty);
        return Err(entry.error);
      }
      labels := labels + [entry.value];
      i := i + 1;
    }
    assert value.entries[..|value.entries|] == value.entries;
    return Ok(labels);
  }

  lemma {:induction false} FirstErrorWins(entries: seq<Field>, n: nat, allowEmpty: bool)
    requires n <= |entries| && ParseLabels(entries[..n], allowEmpty).Err?
    ensures ParseLabels(entries, allowEmpty) == ParseLabels(entries[..n], allowEmpty)
    decreases |entries|
  {
    if n < |entries| {
      var m := |entries| - 1;
      assert entries[..m][..n] == entries[..n];
      FirstErrorWins(entries[..m], n, allowEmpty);
    } else {
      assert entries[..n] == entries;
    }
  }

  function Description(tier: string): string {
    if tier == "simple" then "Direct bounded work"
    else if tier == "standard" then "Multi-step work"
    else "Deep analysis or architecture"
  }

  function LegacyLabel(tiers: map<string, seq<string>>, tier: string): Label
    requires tier in tiers
  {
    Label(tier, Route(tiers[tier], false, None, Description(tier), None))
  }

  /** The three shipped tiers as labels; a document must list exactly these. */
  function LegacyLabels(tiers: map<string, seq<string>>): Result<seq<Label>, Invalid> {
    if tiers.Keys != TIERS then Err(BadTierModels)
    else Ok([LegacyLabel(tiers, "simple"), LegacyLabel(tiers, "standard"), LegacyLabel(tiers, "complex")])
  }

  /** A label inherited without a pool of its own keeps drawing from the strategy it comes from. */
  function InheritRoute(strategy: string, name: string, r: Route): Route {
    if r.models == [] && r.tag.None? then r.(tag := Some(strategy + "/" + name)) else r
  }

  function InheritLabels(strategy: string, labels: seq<Label>): (r: seq<Label>)
    ensures |r| == |labels|
    ensures forall i :: 0 <= i < |labels| ==> r[i] == Label(labels[i].name, InheritRoute(strategy, labels[i].name, labels[i].route))
  {
    if labels == [] then []
    else [Label(labels[0].name, InheritRoute(strategy, labels[0].name, labels[0].route))] + InheritLabels(strategy, labels[1..])
  }

  function ParseTierModels(value: Json, base: map<string, seq<string>>): Result<map<string, seq<string>>, Invalid> {
    if !value.JObject? then Err(BadTierModels)
    else if exists k :: k in value.fields && Strings(value.fields[k]).None? then Err(BadTierModels)
    else Ok(base + map k | k in value.fields && Strings(value.fields[k]).Some? :: Strings(value.fields[k]).value)
  }

  datatype Labelled = Labelled(labels: seq<Label>, tierModels: map<string, seq<string>>)

  function ParseLabelled(data: map<string, Json>, base: Option<Text>, strategy: string, allowEmpty: bool): Result<Labelled, Invalid> {
    var inherited := if base.Some? then base.value.tierModels else map[];
    if "labels" in data && "tier_models" in data then Err(MixedLabels)
    else if "labels" in data then
      if !data["labels"].JOrdered? || data["labels"].entries == [] then Err(NoLabels)
      else
        var labels := ParseLabels(data["labels"].entries, allowEmpty);
        if labels.Err? then Err(labels.error) else Ok(Labelled(labels.value, map[]))
    else if "tier_models" in data then
      var tiers := ParseTierModels(data["tier_models"], inherited);
      if tiers.Err? then Err(tiers.error)
      else if base.Some? && inherited == map[] then Err(MixedLabels)
      else
        var labels := LegacyLabels(tiers.value);
        if labels.Err? then Err(labels.error) else Ok(Labelled(labels.value, tiers.value))
    else if base.Some? then Ok(Labelled(InheritLabels(strategy, base.value.policy.labels), inherited))
    else
      var labels := LegacyLabels(map[]);
      if labels.Err? then Err(labels.error) else Ok(Labelled(labels.value, map[]))
  }

  // Reasoning

  function ParseEfforts(value: Json): Option<map<string, string>> {
    if value.JNull? then Some(map[])
    else if !value.JObject? then None
    else if exists k :: k in value.fields && !(value.fields[k].JString? && value.fields[k].text in EFFORT_LADDER) then None
    else Some(map k | k in value.fields && value.fields[k].JString? :: value.fields[k].text)
  }

  const NO_REASONING := Reasoning("override", map["simple" := "low", "standard" := "medium", "complex" := "high"], map[], "medium")

  function ParseReasoning(data: map<string, Json>, base: Reasoning): Result<Reasoning, Invalid> {
    if "reasoning" !in data || data["reasoning"].JNull? then Ok(base)
    else if !data["reasoning"].JObject? || !(data["reasoning"].fields.Keys <= REASONING_KEYS) then Err(BadReasoning)
    else
      var value := data["reasoning"].fields;
      var mode := Or(value, "mode", JString(base.mode));
      var fallback := Or(value, "fallback", JString(base.fallback));
      var tiers := if "effort_by_tier" in value then ParseEfforts(value["effort_by_tier"]) else Some(map[]);
      var labels := if "effort_by_label" in value then ParseEfforts(value["effort_by_label"]) else Some(base.byLabel);
      if !mode.JString? || mode.text !in REASONING_MODES || tiers.None? || labels.None? then Err(BadReasoning)
      else if !((base.byTier + tiers.value).Keys <= TIERS) then Err(BadReasoning)
      else if !fallback.JString? || fallback.text !in EFFORT_LADDER then Err(BadReasoning)
      else Ok(Reasoning(mode.text, base.byTier + tiers.value, labels.value, fallback.text))
  }

  function LabelNames(labels: seq<Label>): set<string> {
    set i | 0 <= i < |labels| :: labels[i].name
  }

  /** Efforts for labels that do not exist: an inherited map is dropped with the labels it was for. */
  function CheckEfforts(data: map<string, Json>, reasoning: Reasoning, section: map<string, Json>, labels: seq<Label>): Result<Reasoning, Invalid> {
    if reasoning.byLabel.Keys <= LabelNames(labels) then Ok(reasoning)
    else if "labels" in data && "effort_by_label" !in section then Ok(reasoning.(byLabel := map[]))
    else Err(BadReasoning)
  }

  const DEFAULTS: Text := Text(
    Policy(Sticky, "balanced", [], Escalation(JNumber(2.0), JNumber(2.0)), Hysteresis(JNumber(2.0), JNumber(45.0), JNumber(8.0)),
           [CAPABILITY_GAP, CONTEXT_PRESSURE, OUTPUT_LIMIT], Budget(None, JNumber(0.75)), None),
    map[], NO_REASONING)

  function Defaults(base: Option<Text>): Text {
    if base.Some? then base.value else DEFAULTS
  }

  function ParsePolicy(data: map<string, Json>, base: Option<Text>, strategy: string): Result<Text, Invalid> {
    var d := Defaults(base);
    var escalation := Section(data, "escalation", ESCALATION_KEYS);
    var hysteresis := Section(data, "hysteresis", HYSTERESIS_KEYS);
    var pin := Section(data, "pin", PIN_KEYS);
    var budget := Section(data, "budget", BUDGET_KEYS);
    var section := Section(data, "reasoning", REASONING_KEYS);
    var selected := ParseSelected(data, d.policy.selectedModels);
    if !(data.Keys <= POLICY_KEYS) then Err(UnknownKey)
    else if escalation.Err? || hysteresis.Err? || pin.Err? || budget.Err? || section.Err? then Err(BadSection)
    else if ParsePin(pin.value, d.policy.breakOn).Err? then Err(BadPin)
    else if selected.Err? then Err(selected.error)
    else
      var breakOn := ParsePin(pin.value, d.policy.breakOn);
      var labelled := ParseLabelled(data, base, strategy, selected.value.Some?);
      var reasoning := ParseReasoning(data, d.reasoning);
      var mode, selection := ParseMode(data, d.policy.mode), ParseSelection(data, d.policy.selection);
      if labelled.Err? then Err(labelled.error)
      else if reasoning.Err? then Err(reasoning.error)
      else
        var checked := CheckEfforts(data, reasoning.value, section.value, labelled.value.labels);
        if checked.Err? then Err(checked.error)
        else if mode.Err? then Err(mode.error)
        else if selection.Err? then Err(selection.error)
        else Ok(Text(
          Policy(mode.value, selection.value, labelled.value.labels,
                 ParseEscalation(escalation.value, d.policy.escalation), ParseHysteresis(hysteresis.value, d.policy.hysteresis),
                 breakOn.value, ParseBudget(budget.value, d.policy.budget), selected.value),
          labelled.value.tierModels, checked.value))
  }

  // Printing and parsing back

  /** Reading a model list back always makes it explicit, which means the same when it has members. */
  function NormalRoute(r: Route): Route {
    r.(explicitModels := r.explicitModels || r.models != [])
  }

  function NormalLabels(labels: seq<Label>): (r: seq<Label>)
    ensures |r| == |labels| && forall i :: 0 <= i < |labels| ==> r[i] == Label(labels[i].name, NormalRoute(labels[i].route))
  {
    seq(|labels|, i requires 0 <= i < |labels| => Label(labels[i].name, NormalRoute(labels[i].route)))
  }

  function NormalPolicy<N>(p: Policy<N>): Policy<N> {
    p.(labels := NormalLabels(p.labels))
  }

  function Normal(t: Text): Text {
    Text(NormalPolicy(t.policy), map[], t.reasoning)
  }

  predicate RoutePrintable(r: Route, allowEmpty: bool) {
    && (r.models != [] || r.explicitModels ==> r.tag.None?)
    && "" !in r.models
    && (r.models == [] && r.explicitModels ==> allowEmpty)
    && (r.tag.Some? ==> TagOk(r.tag.value) && Strip(r.tag.value) == r.tag.value)
    && (r.effort.Some? ==> r.effort.value in EFFORT_LADDER)
  }

  predicate LabelPrintable(l: Label, allowEmpty: bool) {
    !Blank(l.name) && RoutePrintable(l.route, allowEmpty)
  }

  predicate EffortsOk(m: map<string, string>) {
    forall k :: k in m ==> m[k] in EFFORT_LADDER
  }

  predicate ReasoningPrintable(r: Reasoning, base: Reasoning, labels: seq<Label>) {
    && r.mode in REASONING_MODES && r.fallback in EFFORT_LADDER
    && EffortsOk(r.byTier) && EffortsOk(r.byLabel)
    && base.byTier.Keys <= r.byTier.Keys <= TIERS
    && r.byLabel.Keys <= LabelNames(labels)
  }

  predicate Printable(t: Text, base: Option<Text>) {
    var d := Defaults(base);
    && t.policy.labels != []
    && AllPrintable(t.policy.labels, t.policy.selectedModels.Some?)
    && (t.policy.selectedModels.Some? ==> SelectedOk(t.policy.selectedModels.value))
    && (t.policy.selectedModels.None? ==> d.policy.selectedModels.None?)
    && ReasoningPrintable(t.reasoning, d.reasoning, t.policy.labels)
  }

  lemma PrintedRoute(r: Route)
    ensures var m := PrintRoute(r);
      && m.Keys <= ROUTE_KEYS
      && "description" in m && m["description"] == JString(r.description)
      && ("models" in m <==> r.models != [] || r.explicitModels) && ("models" in m ==> m["models"] == JArray(Texts(r.models)))
      && ("tag" in m <==> r.tag.Some?) && ("tag" in m ==> m["tag"] == JString(r.tag.value))
      && ("reasoning_effort" in m <==> r.effort.Some?) && ("reasoning_effort" in m ==> m["reasoning_effort"] == JString(r.effort.value))
  {
  }

  /** A label's route reads back, up to the explicit flag, exactly when it is printable. */
  lemma RouteRoundTripIff(r: Route, allowEmpty: bool)
    ensures ParseRoute(PrintRoute(r), allowEmpty) == Ok(NormalRoute(r)) <==> RoutePrintable(r, allowEmpty)
  {
    PrintedRoute(r);
    StringsOfTexts(r.models);
    if r.tag.Some? {
      StripTwice(r.tag.value);
    }
  }

  lemma LabelRoundTripIff(l: Label, allowEmpty: bool)
    ensures ParseLabel(Field(l.name, JObject(PrintRoute(l.route))), allowEmpty) == Ok(Label(l.name, NormalRoute(l.route)))
            <==> LabelPrintable(l, allowEmpty)
  {
    RouteRoundTripIff(l.route, allowEmpty);
  }

  lemma {:induction false} PrintLabelsLast(labels: seq<Label>)
    requires labels != []
    ensures |PrintLabels(labels)| == |labels|
    ensures var n := |labels| - 1;
      PrintLabels(labels) == PrintLabels(labels[..n]) + [Field(labels[n].name, JObject(PrintRoute(labels[n].route)))]
  {
    var n := |labels| - 1;
    if n > 0 {
      PrintLabelsLast(labels[1..]);
      assert labels[1..][..n - 1] == labels[..n][1..];
    }
  }

  lemma {:induction false} ParseLabelsLength(entries: seq<Field>, allowEmpty: bool)
    requires ParseLabels(entries, allowEmpty).Ok?
    ensures |ParseLabels(entries, allowEmpty).value| == |entries|
    ensures forall i :: 0 <= i < |entries| ==> ParseLabels(entries, allowEmpty).value[i].name == entries[i].name
  {
    if entries != [] {
      ParseLabelsLength(entries[..|entries| - 1], allowEmpty);
    }
  }

  predicate AllPrintable(labels: seq<Label>, allowEmpty: bool) {
    forall i :: 0 <= i < |labels| ==> LabelPrintable(labels[i], allowEmpty)
  }

  /** One more label at the end of a collection that reads back, or does not. */
  lemma LabelAppended(entries: seq<Field>, field: Field, allowEmpty: bool, normal: seq<Label>, last: Label)
    requires |entries| == |normal|
    ensures ParseLabels(entries + [field], allowEmpty) == Ok(normal + [last])
            <==> ParseLabels(entries, allowEmpty) == Ok(normal) && ParseLabel(field, allowEmpty) == Ok(last)
  {
    assert (entries + [field])[..|entries|] == entries;
    var rest := ParseLabels(entries, allowEmpty);
    if rest.Ok? {
      ParseLabelsLength(entries, allowEmpty);
      var parsed := ParseLabel(field, allowEmpty);
      if parsed.Ok? && rest.value + [parsed.value] == normal + [last] {
        assert (rest.value + [parsed.value])[..|entries|] == rest.value && (normal + [last])[..|entries|] == normal;
        assert (rest.value + [parsed.value])[|entries|] == parsed.value && (normal + [last])[|entries|] == last;
      }
    }
  }

  /** A label collection reads back exactly when each of its labels does. */
  lemma {:induction false} LabelsRoundTripIff(labels: seq<Label>, allowEmpty: bool)
    ensures ParseLabels(PrintLabels(labels), allowEmpty) == Ok(NormalLabels(labels)) <==> AllPrintable(labels, allowEmpty)
  {
    if labels == [] {
      assert NormalLabels(labels) == [];
    } else {
      var n := |labels| - 1;
      var last := Label(labels[n].name, NormalRoute(labels[n].route));
      PrintLabelsLast(labels);
      PrintedLength(labels[..n]);
      LabelsRoundTripIff(labels[..n], allowEmpty);
      LabelRoundTripIff(labels[n], allowEmpty);
      assert NormalLabels(labels) == NormalLabels(labels[..n]) + [last];
      LabelAppended(PrintLabels(labels[..n]), Field(labels[n].name, JObject(PrintRoute(labels[n].route))),
                    allowEmpty, NormalLabels(labels[..n]), last);
      AllPrintableSplit(labels, allowEmpty);
    }
  }

  lemma AllPrintableSplit(labels: seq<Label>, allowEmpty: bool)
    requires labels != []
    ensures var n := |labels| - 1;
      AllPrintable(labels, allowEmpty) <==> AllPrintable(labels[..n], allowEmpty) && LabelPrintable(labels[n], allowEmpty)
  {
    var n := |labels| - 1;
    if AllPrintable(labels[..n], allowEmpty) && LabelPrintable(labels[n], allowEmpty) {
      forall i | 0 <= i < |labels| ensures LabelPrintable(labels[i], allowEmpty) {
        if i < n { assert labels[..n][i] == labels[i]; }
      }
    }
  }

  lemma {:induction false} PrintedLength(labels: seq<Label>)
    ensures |PrintLabels(labels)| == |labels|
  {
    if labels != [] { PrintedLength(labels[1..]); }
  }

  lemma EffortsRoundTripIff(m: map<string, string>)
    ensures ParseEfforts(PrintStrings(m)) == Some(m) <==> EffortsOk(m)
    ensures ParseEfforts(PrintStrings(m)).Some? ==> ParseEfforts(PrintStrings(m)) == Some(m)
  {
    var fields := PrintStrings(m).fields;
    if EffortsOk(m) {
      var back := map k | k in fields && fields[k].JString? :: fields[k].text;
      assert back == m;
    } else {
      var k :| k in m && m[k] !in EFFORT_LADDER;
      assert k in fields;
    }
  }

  lemma NormalNames(labels: seq<Label>)
    ensures LabelNames(NormalLabels(labels)) == LabelNames(labels)
  {
    var normal := NormalLabels(labels);
    forall name ensures name in LabelNames(normal) <==> name in LabelNames(labels) {
      if name in LabelNames(normal) {
        var i :| 0 <= i < |normal| && normal[i].name == name;
        assert labels[i].name == name;
      }
      if name in LabelNames(labels) {
        var i :| 0 <= i < |normal| && labels[i].name == name;
        assert normal[i].name == name;
      }
    }
  }

  /** What each key of a printed policy holds. */
  ghost predicate IsPrinted(data: map<string, Json>, t: Text) {
    PrintedKeys(data, t) && PrintedValues(data, t) && PrintedSections(data, t)
  }

  ghost predicate PrintedKeys(data: map<string, Json>, t: Text) {
    && data.Keys <= POLICY_KEYS && "tier_models" !in data
    && ("selected_models" in data <==> t.policy.selectedModels.Some?)
    && ("selected_models" in data ==> data["selected_models"] == JArray(Texts(t.policy.selectedModels.value)))
  }

  ghost predicate PrintedValues(data: map<string, Json>, t: Text) {
    && "mode" in data && data["mode"] == JString(ModeText(t.policy.mode))
    && "selection" in data && data["selection"] == JString(t.policy.selection)
    && "labels" in data && data["labels"] == JOrdered(PrintLabels(t.policy.labels))
    && "reasoning" in data && data["reasoning"] == PrintReasoning(t.reasoning)
  }

  ghost predicate PrintedSections(data: map<string, Json>, t: Text) {
    && "escalation" in data && data["escalation"] == JObject(PrintEscalation(t.policy.escalation))
    && "hysteresis" in data && data["hysteresis"] == JObject(PrintHysteresis(t.policy.hysteresis))
    && "pin" in data && data["pin"] == JObject(map["break_on" := JArray(Texts(t.policy.breakOn))])
    && "budget" in data && data["budget"] == JObject(PrintBudget(t.policy.budget))
  }

  lemma PrintHasKeys(t: Text)
    ensures PrintedKeys(Print(t), t)
  {
  }

  lemma PrintHasValues(t: Text)
    ensures PrintedValues(Print(t), t)
  {
  }

  lemma PrintHasSections(t: Text)
    ensures PrintedSections(Print(t), t)
  {
  }

  lemma PrintedEscalation(data: map<string, Json>, e: Escalation<Json>, base: Escalation<Json>)
    requires "escalation" in data && data["escalation"] == JObject(PrintEscalation(e))
    ensures var s := Section(data, "escalation", ESCALATION_KEYS); s.Ok? && ParseEscalation(s.value, base) == e
  {
    assert "max_consecutive_failures" in PrintEscalation(e);
  }

  lemma PrintedHysteresis(data: map<string, Json>, h: Hysteresis<Json>, base: Hysteresis<Json>)
    requires "hysteresis" in data && data["hysteresis"] == JObject(PrintHysteresis(h))
    ensures var s := Section(data, "hysteresis", HYSTERESIS_KEYS); s.Ok? && ParseHysteresis(s.value, base) == h
  {
    assert "cooldown_seconds" in PrintHysteresis(h);
  }

  lemma PrintedBudget(data: map<string, Json>, b: Budget<Json>, base: Budget<Json>)
    requires "budget" in data && data["budget"] == JObject(PrintBudget(b)) && b.maxCost != Some(JNull)
    ensures var s := Section(data, "budget", BUDGET_KEYS); s.Ok? && ParseBudget(s.value, base) == b
  {
    assert "context_pressure_ratio" in PrintBudget(b);
  }

  lemma PrintedPin(data: map<string, Json>, reasons: seq<string>, base: seq<string>)
    requires "pin" in data && data["pin"] == JObject(map["break_on" := JArray(Texts(reasons))])
    ensures var s := Section(data, "pin", PIN_KEYS); s.Ok? && ParsePin(s.value, base) == Ok(reasons)
  {
    var m := map["break_on" := JArray(Texts(reasons))];
    assert "break_on" in m && m["break_on"] == JArray(Texts(reasons));
    StringsOfTexts(reasons);
  }

  lemma PrintedMode(data: map<string, Json>, mode: Mode, base: Mode)
    requires "mode" in data && data["mode"] == JString(ModeText(mode))
    ensures ParseMode(data, base) == Ok(mode)
  {
  }

  lemma PrintedSelected(data: map<string, Json>, selected: Option<seq<string>>, base: Option<seq<string>>)
    requires "selected_models" in data <==> selected.Some?
    requires "selected_models" in data ==> data["selected_models"] == JArray(Texts(selected.value))
    ensures ParseSelected(data, base) == Ok(selected) <==>
            ((selected.Some? ==> SelectedOk(selected.value)) && (selected.None? ==> base.None?))
    ensures ParseSelected(data, base).Ok? && selected.Some? ==> ParseSelected(data, base) == Ok(selected)
  {
    if selected.Some? {
      StringsOfTexts(selected.value);
    }
  }

  lemma PrintedReasoningFields(r: Reasoning)
    ensures var m := PrintReasoning(r).fields;
      && m.Keys == REASONING_KEYS
      && m["mode"] == JString(r.mode) && m["fallback"] == JString(r.fallback)
      && m["effort_by_tier"] == PrintStrings(r.byTier) && m["effort_by_label"] == PrintStrings(r.byLabel)
  {
  }

  /** The reasoning section and the effort check that follows it give back the printed preferences. */
  ghost predicate ReasoningReadsBack(data: map<string, Json>, t: Text, base: Reasoning, labels: seq<Label>) {
    && ParseReasoning(data, base).Ok?
    && "reasoning" in data && data["reasoning"].JObject?
    && CheckEfforts(data, ParseReasoning(data, base).value, data["reasoning"].fields, labels) == Ok(t.reasoning)
  }

  lemma ReasoningRoundTripIff(data: map<string, Json>, t: Text, base: Reasoning)
    requires "reasoning" in data && data["reasoning"] == PrintReasoning(t.reasoning)
    ensures ReasoningReadsBack(data, t, base, NormalLabels(t.policy.labels)) <==> ReasoningPrintable(t.reasoning, base, t.policy.labels)
  {
    var r := t.reasoning;
    PrintedReasoningFields(r);
    EffortsRoundTripIff(r.byTier);
    EffortsRoundTripIff(r.byLabel);
    NormalNames(t.policy.labels);
    assert base.byTier + r.byTier == r.byTier <==> base.byTier.Keys <= r.byTier.Keys;
  }

  /**
   Printing a policy and reading it back under a base gives the same policy, up to which
   non-empty model lists count as explicit, if and only if the policy is printable: no label
   with both a model list and a tag, tags and names that survive the parser's cleaning, empty
   lists only next to a selection, and nothing unset that the base would fill in.
   */
  lemma RoundTripIff(t: Text, base: Option<Text>, strategy: string)
    requires t.policy.budget.maxCost != Some(JNull)
    ensures ParsePolicy(Print(t), base, strategy) == Ok(Normal(t)) <==> Printable(t, base)
  {
    PrintHasKeys(t);
    PrintHasValues(t);
    PrintHasSections(t);
    PrintedPolicyIff(Print(t), t, base, strategy);
  }

  /** The parts of a printed policy that always read back as they were. */
  ghost predicate PlainPartsReadBack(data: map<string, Json>, p: Policy<Json>, d: Policy<Json>) {
    && (var s := Section(data, "escalation", ESCALATION_KEYS); s.Ok? && ParseEscalation(s.value, d.escalation) == p.escalation)
    && (var s := Section(data, "hysteresis", HYSTERESIS_KEYS); s.Ok? && ParseHysteresis(s.value, d.hysteresis) == p.hysteresis)
    && (var s := Section(data, "budget", BUDGET_KEYS); s.Ok? && ParseBudget(s.value, d.budget) == p.budget)
    && (var s := Section(data, "pin", PIN_KEYS); s.Ok? && ParsePin(s.value, d.breakOn) == Ok(p.breakOn))
    && ParseMode(data, d.mode) == Ok(p.mode)
    && ParseSelection(data, d.selection) == Ok(p.selection)
  }

  lemma PlainParts(data: map<string, Json>, t: Text, d: Policy<Json>)
    requires t.policy.budget.maxCost != Some(JNull) && IsPrinted(data, t)
    ensures PlainPartsReadBack(data, t.policy, d)
  {
    var p := t.policy;
    PrintedEscalation(data, p.escalation, d.escalation);
    PrintedHysteresis(data, p.hysteresis, d.hysteresis);
    PrintedBudget(data, p.budget, d.budget);
    PrintedPin(data, p.breakOn, d.breakOn);
    PrintedMode(data, p.mode, d.mode);
  }

  lemma LabelledIff(data: map<string, Json>, t: Text, base: Option<Text>, strategy: string, allowEmpty: bool)
    requires IsPrinted(data, t)
    ensures ParseLabelled(data, base, strategy, allowEmpty) == Ok(Labelled(NormalLabels(t.policy.labels), map[]))
            <==> t.policy.labels != [] && AllPrintable(t.policy.labels, allowEmpty)
  {
    LabelsRoundTripIff(t.policy.labels, allowEmpty);
    PrintedLength(t.policy.labels);
  }

  /** Once the plain parts read back, the policy does when its selection, labels and reasoning do. */
  lemma WholeIff(data: map<string, Json>, t: Text, base: Option<Text>, strategy: string)
    requires PlainPartsReadBack(data, t.policy, Defaults(base).policy)
    requires data.Keys <= POLICY_KEYS
    requires var s := Section(data, "reasoning", REASONING_KEYS);
      s.Ok? && "reasoning" in data && data["reasoning"].JObject? && s.value == data["reasoning"].fields
    ensures ParsePolicy(data, base, strategy) == Ok(Normal(t)) <==>
      (&& ParseSelected(data, Defaults(base).policy.selectedModels) == Ok(t.policy.selectedModels)
       && ParseLabelled(data, base, strategy, t.policy.selectedModels.Some?) == Ok(Labelled(NormalLabels(t.policy.labels), map[]))
       && ReasoningReadsBack(data, t, Defaults(base).reasoning, NormalLabels(t.policy.labels)))
  {
  }

  lemma PrintedPolicyIff(data: map<string, Json>, t: Text, base: Option<Text>, strategy: string)
    requires t.policy.budget.maxCost != Some(JNull) && IsPrinted(data, t)
    ensures ParsePolicy(data, base, strategy) == Ok(Normal(t)) <==> Printable(t, base)
  {
    PlainParts(data, t, Defaults(base).policy);
    PrintedSelected(data, t.policy.selectedModels, Defaults(base).policy.selectedModels);
    PrintedReasoningFields(t.reasoning);
    ReasoningRoundTripIff(data, t, Defaults(base).reasoning);
    LabelledIff(data, t, base, strategy, t.policy.selectedModels.Some?);
    WholeIff(data, t, base, strategy);
  }
}
