/** What a matrix decision is: the policy's own, under the label and the ordering of the rule that matched. */
module MatrixRoutes {
  import opened Wrappers
  import opened Catalogs
  import opened Selection
  import opened Sessions
  import opened Strategies
  import opened Matrix
  import opened Routes

  /** Every question has one of its own criteria for an answer. */
  ghost predicate Counts(options: Options, answers: Option<Answers>) {
    answers.Some? && forall key :: key in options.questions ==> key in answers.value && answers.value[key] in options.questions[key]
  }

  /** All conditions of a rule hold of the answers to questions that were asked. */
  ghost predicate Holds(options: Options, rule: Rule, answers: Answers) {
    forall key :: key in rule.when ==> key in options.questions && key in answers && answers[key] in rule.when[key]
  }

  ghost predicate IsFirstRule(options: Options, answers: Answers, j: nat) {
    && j < |options.rules| && Holds(options, options.rules[j], answers)
    && forall i :: 0 <= i < j ==> !Holds(options, options.rules[i], answers)
  }

  /** The matrix is asked: for a request that names no model, on a first turn or in a mode that does not keep its answer. */
  ghost predicate MatrixIsAsked(s: Strategy, c: Catalog, r: Request) {
    && r.manual.None? && (r.session.None? || s.policy.mode != Cached)
    && (s.policy.selectedModels.Some? ==> exists p :: p in c.profiles && Eligible(s.policy, p))
  }

  /** The strategy with this ordering, and the request with this label. */
  function Ordered(s: Strategy, selection: string): Strategy {
    Strategy(s.name, s.policy.(selection := selection), s.round)
  }

  function Labelled(r: Request, name: string): Request {
    r.(facts := r.facts.(routeLabel := Some(name)))
  }

  /** The matrix decides what the policy decides under this pick: a label it names or the first one, an ordering it names or the policy's own. */
  ghost predicate DecidesUnder(s: Strategy, options: Options, answers: Option<Answers>, c: Catalog, r: Request, pick: Pick)
    requires s.policy.labels != [] && UniqueLabels(s.policy.labels)
  {
    var name := if pick.name.Some? then pick.name.value else s.policy.labels[0].name;
    var selection := if pick.selection.Some? then pick.selection.value else s.policy.selection;
    var decided, asked := MatrixDecide(s, options, answers, c, r), Decide(Ordered(s, selection), c, Labelled(r, name));
    && (decided.Err? ==> decided == asked)
    && (decided.Ok? ==> asked.Ok? && decided.value == asked.value.(reason := asked.value.reason.(prefix := "decision_matrix:")))
  }

  lemma {:induction false} FirstRuleMatches(rules: seq<Rule>, answers: Answers, j: nat)
    requires j < |rules| && Matches(rules[j], answers) && forall i :: 0 <= i < j ==> !Matches(rules[i], answers)
    ensures FirstMatch(rules, answers) == rules[j].pick
  {
    if j > 0 {
      assert forall i :: 0 <= i < j - 1 ==> rules[1..][i] == rules[i + 1];
      FirstRuleMatches(rules[1..], answers, j - 1);
    }
  }

  lemma {:induction false} NoRuleMatches(rules: seq<Rule>, answers: Answers)
    requires forall i :: 0 <= i < |rules| ==> !Matches(rules[i], answers)
    ensures FirstMatch(rules, answers) == Pick(None, None)
  {
    if rules != [] {
      assert forall i :: 0 <= i < |rules[1..]| ==> rules[1..][i] == rules[i + 1];
      NoRuleMatches(rules[1..], answers);
    }
  }

  lemma CountedAnswers(options: Options, answers: Option<Answers>)
    ensures Accepted(options, answers).Some? <==> Counts(options, answers)
    ensures Counts(options, answers) ==>
      forall i :: 0 <= i < |options.rules| ==>
        (Matches(options.rules[i], Accepted(options, answers).value) <==> Holds(options, options.rules[i], answers.value))
  {
  }

  lemma AskedDecides(s: Strategy, options: Options, answers: Option<Answers>, c: Catalog, r: Request)
    requires s.policy.labels != [] && UniqueLabels(s.policy.labels) && MatrixIsAsked(s, c, r)
    ensures DecidesUnder(s, options, answers, c, r, Picked(options, answers))
  {
  }

  /**
   When the answers count, the matrix decides what the policy decides under the label and the
   ordering that the first rule whose conditions all hold picks.
   */
  lemma FirstRuleDecides(s: Strategy, options: Options, answers: Option<Answers>, c: Catalog, r: Request, j: nat)
    requires s.policy.labels != [] && UniqueLabels(s.policy.labels) && MatrixIsAsked(s, c, r)
    requires Counts(options, answers) && IsFirstRule(options, answers.value, j)
    ensures DecidesUnder(s, options, answers, c, r, options.rules[j].pick)
  {
    CountedAnswers(options, answers);
    FirstRuleMatches(options.rules, Accepted(options, answers).value, j);
    AskedDecides(s, options, answers, c, r);
  }

  /** Without such a rule it is the first label and the policy's own ordering. */
  lemma NoRuleDecides(s: Strategy, options: Options, answers: Option<Answers>, c: Catalog, r: Request)
    requires s.policy.labels != [] && UniqueLabels(s.policy.labels) && MatrixIsAsked(s, c, r)
    requires Counts(options, answers) && forall i :: 0 <= i < |options.rules| ==> !Holds(options, options.rules[i], answers.value)
    ensures DecidesUnder(s, options, answers, c, r, Pick(None, None))
  {
    CountedAnswers(options, answers);
    NoRuleMatches(options.rules, Accepted(options, answers).value);
    AskedDecides(s, options, answers, c, r);
  }

  /** And the fallback when there are no answers, or some question has none of its own criteria for an answer. */
  lemma FallbackDecides(s: Strategy, options: Options, answers: Option<Answers>, c: Catalog, r: Request)
    requires s.policy.labels != [] && UniqueLabels(s.policy.labels) && MatrixIsAsked(s, c, r)
    requires !Counts(options, answers)
    ensures DecidesUnder(s, options, answers, c, r, options.fallback)
  {
    CountedAnswers(options, answers);
    AskedDecides(s, options, answers, c, r);
  }

  /** Otherwise the policy decides by itself, or nothing is selectable. */
  lemma MatrixIsPassedBy(s: Strategy, options: Options, answers: Option<Answers>, c: Catalog, r: Request)
    requires s.policy.labels != [] && UniqueLabels(s.policy.labels) && !MatrixIsAsked(s, c, r)
    ensures var selectable := s.policy.selectedModels.Some? ==> exists p :: p in c.profiles && Eligible(s.policy, p);
      MatrixDecide(s, options, answers, c, r) == if selectable then Decide(s, c, r) else Err(NoEnabledModel)
  {
    var candidates := Candidates(s.policy, c);
    assert candidates != [] ==> candidates[0] in candidates;
    if p :| p in c.profiles && Eligible(s.policy, p) {
      assert p in candidates;
    }
  }

  /**
   So a first turn, or one that starts over, ends on a model and a tier if and only if that is
   where the label of the first rule that holds leads.
   */
  lemma FirstRuleRoutesIff(
      s: Strategy, options: Options, answers: Option<Answers>, c: Catalog, r: Request, j: nat, asked: string, name: string, tier: string)
    requires s.policy.labels != [] && UniqueLabels(s.policy.labels) && PositiveWindows(c.profiles)
    requires MatrixIsAsked(s, c, r) && StartsOver(s, c, r)
    requires Counts(options, answers) && IsFirstRule(options, answers.value, j)
    requires options.rules[j].pick.name == Some(asked) && HasLabel(s.policy.labels, asked)
    ensures var o, pick := MatrixDecide(s, options, answers, c, r), options.rules[j].pick;
      var ordered := Ordered(s, if pick.selection.Some? then pick.selection.value else s.policy.selection);
      (o.Ok? && o.value.model == name && o.value.tier == tier) <==>
      LedTo(ordered, c, Query(asked, r.facts.(routeLabel := Some(asked)), None, None), name, tier)
  {
    var pick := options.rules[j].pick;
    FirstRuleDecides(s, options, answers, c, r, j);
    FirstTurnIff(Ordered(s, if pick.selection.Some? then pick.selection.value else s.policy.selection), c, Labelled(r, asked), asked, name, tier);
  }
}
