/** The decision matrix: checked answers, first-match rules, and the policy decision they lead to. */
module Matrix {
  import opened Wrappers
  import opened Catalogs
  import opened Selection
  import opened Sessions
  import opened Strategies

  /** Each question and the criteria it may be answered with. */
  type Questions = map<string, set<string>>

  datatype RawPick = RawPick(name: Option<string>, tier: Option<string>, selection: Option<string>)
  datatype RawRule = RawRule(when: map<string, seq<string>>, pick: RawPick)

  datatype Pick = Pick(name: Option<string>, selection: Option<string>)
  datatype Rule = Rule(when: map<string, set<string>>, pick: Pick)

  datatype Options = Options(questions: Questions, rules: seq<Rule>, fallback: Pick)

  datatype Invalid = TwoNames | UnknownLabel | UnknownSelection | NoCondition | UnknownCondition

  const SELECTION_MODES: set<string> := {"cheapest_adequate", "quality_first", "balanced"}

  // Validation

  /** `tier` is an old name for `label`; only one of them may be given, and it must exist. */
  function ValidateChoice(raw: RawPick, labels: seq<Label>): (r: Result<Pick, Invalid>)
    ensures r.Ok? ==> PickOk(r.value, labels)
    ensures r.Ok? ==> r.value.selection == raw.selection && (r.value.name == raw.name || r.value.name == raw.tier)
  {
    var name := if raw.name.Some? then raw.name else raw.tier;
    if raw.name.Some? && raw.tier.Some? then Err(TwoNames)
    else if name.Some? && !HasLabel(labels, name.value) then Err(UnknownLabel)
    else if raw.selection.Some? && raw.selection.value !in SELECTION_MODES then Err(UnknownSelection)
    else Ok(Pick(name, raw.selection))
  }

  predicate PickOk(pick: Pick, labels: seq<Label>) {
    && (pick.name.Some? ==> HasLabel(labels, pick.name.value))
    && (pick.selection.Some? ==> pick.selection.value in SELECTION_MODES)
  }

  function Elements(s: seq<string>): set<string> {
    set x | x in s
  }

  predicate ConditionOk(questions: Questions, key: string, values: seq<string>) {
    key in questions && values != [] && forall v :: v in values ==> v in questions[key]
  }

  /** The validated rule: the same conditions as sets of criteria, and the choice it was given. */
  ghost predicate IsRuleOf(raw: RawRule, rule: Rule) {
    && rule.pick == PickOf(raw.pick) && rule.when.Keys == raw.when.Keys
    && forall key :: key in raw.when ==> rule.when[key] == Elements(raw.when[key])
  }

  lemma RuleIsOf(raw: RawRule, labels: seq<Label>)
    requires ValidateChoice(raw.pick, labels).Ok?
    ensures IsRuleOf(raw, Rule(map key | key in raw.when :: Elements(raw.when[key]), ValidateChoice(raw.pick, labels).value))
  {
    ChoiceIff(raw.pick, labels);
  }

  /** Every rule asks about known questions and names a known label; the first bad rule is reported. */
  method ValidateRules(questions: Questions, raw: seq<RawRule>, labels: seq<Label>) returns (r: Result<seq<Rule>, Invalid>)
    ensures r.Ok? ==> |r.value| == |raw| && forall i :: 0 <= i < |raw| ==> RuleOk(questions, raw[i], labels) && IsRuleOf(raw[i], r.value[i])
    ensures r.Ok? ==> forall i :: 0 <= i < |raw| ==> PickOk(r.value[i].pick, labels)
    ensures r.Err? <==> exists i :: 0 <= i < |raw| && !RuleOk(questions, raw[i], labels)
  {
    var rules: seq<Rule> := [];
    var i := 0;
    while i < |raw|
      invariant 0 <= i <= |raw| && |rules| == i
      invariant forall j :: 0 <= j < i ==> RuleOk(questions, raw[j], labels) && IsRuleOf(raw[j], rules[j])
      invariant forall j :: 0 <= j < i ==> PickOk(rules[j].pick, labels)
    {
      var rule := raw[i];
      RuleOkIff(questions, rule, labels);
      ChoiceIff(rule.pick, labels);
      if rule.when == map[] {
        return Err(NoCondition);
      }
      if exists key :: key in rule.when && !ConditionOk(questions, key, rule.when[key]) {
        return Err(UnknownCondition);
      }
      var pick := ValidateChoice(rule.pick, labels);
      if pick.Err? {
        return Err(pick.error);
      }
      RuleIsOf(rule, labels);
      rules := rules + [Rule(map key | key in rule.when :: Elements(rule.when[key]), pick.value)];
      i := i + 1;
    }
    return Ok(rules);
  }

  /** The label under either of its names, and the ordering. */
  ghost function PickOf(raw: RawPick): Pick {
    Pick(if raw.tier.Some? then raw.tier else raw.name, raw.selection)
  }

  /** One name at most, a label of the strategy, and one of the three orderings. */
  ghost predicate ChoiceOk(raw: RawPick, labels: seq<Label>) {
    && (raw.name.None? || raw.tier.None?)
    && (raw.name.Some? ==> exists i :: 0 <= i < |labels| && labels[i].name == raw.name.value)
    && (raw.tier.Some? ==> exists i :: 0 <= i < |labels| && labels[i].name == raw.tier.value)
    && (raw.selection.Some? ==>
          raw.selection.value == "cheapest_adequate" || raw.selection.value == "quality_first" || raw.selection.value == "balanced")
  }

  /** A rule has conditions, each on a known question and some of its criteria, and an allowed choice. */
  ghost predicate RuleOk(questions: Questions, rule: RawRule, labels: seq<Label>) {
    && (exists key :: key in rule.when)
    && (forall key :: key in rule.when ==>
          && key in questions && |rule.when[key]| > 0
          && forall i :: 0 <= i < |rule.when[key]| ==> rule.when[key][i] in questions[key])
    && ChoiceOk(rule.pick, labels)
  }

  lemma RuleOkIff(questions: Questions, rule: RawRule, labels: seq<Label>)
    ensures RuleOk(questions, rule, labels) <==>
            rule.when != map[] && (forall key :: key in rule.when ==> ConditionOk(questions, key, rule.when[key])) && ChoiceOk(rule.pick, labels)
  {
    if rule.when != map[] {
      var key :| key in rule.when.Keys;
    }
  }

  /** A choice is accepted exactly when it is allowed, and is then the label under either name and the ordering. */
  lemma ChoiceIff(raw: RawPick, labels: seq<Label>)
    ensures ValidateChoice(raw, labels).Ok? <==> ChoiceOk(raw, labels)
    ensures ChoiceOk(raw, labels) ==> ValidateChoice(raw, labels).value == PickOf(raw)
  {
  }

  // Answers and rules

  type Answers = map<string, string>

  /** All questions must be answered with one of their criteria, or the answers count for nothing. */
  function CheckedAnswers(raw: Answers, questions: Questions): Option<Answers> {
    if forall key :: key in questions ==> key in raw && raw[key] in questions[key]
    then Some(map key | key in questions :: raw[key]) else None
  }

  predicate Matches(rule: Rule, answers: Answers) {
    forall key :: key in rule.when ==> key in answers && answers[key] in rule.when[key]
  }

  /** What counts of a provider's answers. */
  function Accepted(options: Options, answers: Option<Answers>): Option<Answers> {
    if answers.None? then None else CheckedAnswers(answers.value, options.questions)
  }

  /** What the matrix picks: the first matching rule, the bare default when none matches, the fallback without answers that count. */
  function Picked(options: Options, answers: Option<Answers>): Pick {
    var accepted := Accepted(options, answers);
    if accepted.None? then options.fallback else FirstMatch(options.rules, accepted.value)
  }

  function FirstMatch(rules: seq<Rule>, answers: Answers): Pick {
    if rules == [] then Pick(None, None)
    else if Matches(rules[0], answers) then rules[0].pick
    else FirstMatch(rules[1..], answers)
  }

  /** The rule loop: the number of the rule that decided, counted from one, when one did. */
  method MatchRules(options: Options, answers: Option<Answers>) returns (pick: Pick, matched: Option<nat>)
    ensures pick == Picked(options, answers)
    ensures var accepted := Accepted(options, answers);
      && (matched.Some? ==>
            && accepted.Some? && 0 < matched.value <= |options.rules|
            && Matches(options.rules[matched.value - 1], accepted.value)
            && forall j :: 0 <= j < matched.value - 1 ==> !Matches(options.rules[j], accepted.value))
      && (matched.None? && accepted.Some? ==> forall j :: 0 <= j < |options.rules| ==> !Matches(options.rules[j], accepted.value))
  {
    var accepted := Accepted(options, answers);
    pick, matched := options.fallback, None;
    if accepted.Some? {
      pick := Pick(None, None);
      var i := 0;
      while i < |options.rules|
        invariant 0 <= i <= |options.rules|
        invariant forall j :: 0 <= j < i ==> !Matches(options.rules[j], accepted.value)
        invariant FirstMatch(options.rules, accepted.value) == FirstMatch(options.rules[i..], accepted.value)
      {
        if Matches(options.rules[i], accepted.value) {
          return options.rules[i].pick, Some(i + 1);
        }
        i := i + 1;
      }
    }
  }

  // The decision

  ghost predicate OptionsOk(options: Options, labels: seq<Label>) {
    && PickOk(options.fallback, labels)
    && forall i :: 0 <= i < |options.rules| ==> PickOk(options.rules[i].pick, labels)
  }

  /** The label the matrix asks for. */
  function PickedLabel(s: Strategy, pick: Pick): string
    requires s.policy.labels != []
  {
    if pick.name.Some? then pick.name.value else s.policy.labels[0].name
  }

  /** The strategy with the picked ordering. */
  function Reordered(s: Strategy, pick: Pick): Strategy {
    s.(policy := s.policy.(selection := if pick.selection.Some? then pick.selection.value else s.policy.selection))
  }

  function MatrixDecide(s: Strategy, options: Options, answers: Option<Answers>, c: Catalog, r: Request): Result<Outcome, SetupIncomplete>
    requires s.policy.labels != [] && UniqueLabels(s.policy.labels)
  {
    if s.policy.selectedModels.Some? && Candidates(s.policy, c) == [] then Err(NoEnabledModel)
    else if r.manual.Some? || (r.session.Some? && s.policy.mode.Cached?) then Decide(s, c, r)
    else
      var pick := Picked(options, answers);
      var facts := r.facts.(routeLabel := Some(PickedLabel(s, pick)));
      match Decide(Reordered(s, pick), c, r.(facts := facts))
      case Err(e) => Err(e)
      case Ok(o) => Ok(o.(reason := o.reason.(prefix := "decision_matrix:")))
  }

  lemma {:induction false} FirstMatchOk(rules: seq<Rule>, answers: Answers, labels: seq<Label>)
    requires forall i :: 0 <= i < |rules| ==> PickOk(rules[i].pick, labels)
    ensures PickOk(FirstMatch(rules, answers), labels)
  {
    if rules != [] && !Matches(rules[0], answers) {
      forall i | 0 <= i < |rules[1..]| ensures PickOk(rules[1..][i].pick, labels) {
        assert rules[1..][i] == rules[i + 1];
      }
      FirstMatchOk(rules[1..], answers, labels);
    }
  }

  /** Whatever is answered, the label the matrix asks for is one of the strategy's own. */
  lemma PickedLabelExists(s: Strategy, options: Options, answers: Option<Answers>)
    requires s.policy.labels != [] && OptionsOk(options, s.policy.labels)
    ensures HasLabel(s.policy.labels, PickedLabel(s, Picked(options, answers)))
  {
    var accepted := Accepted(options, answers);
    if accepted.Some? {
      FirstMatchOk(options.rules, accepted.value, s.policy.labels);
    }
    assert HasLabel(s.policy.labels, s.policy.labels[0].name);
  }
}
