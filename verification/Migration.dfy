/** Moving a legacy overlay to version 2: each matrix strategy gets an explicit selection of the models it refers to. */
module Migration {
  import opened Wrappers
  import opened Catalogs
  import opened PolicyText
  import opened Selection
  import opened Matrix
  import Reprint
  import Strategies

  /** The parts of a matrix's options that name labels. */
  datatype RawOptions = RawOptions(rules: seq<RawRule>, fallback: RawPick)

  // Which labels and models a strategy refers to

  function ChosenName(pick: RawPick, first: string): string {
    if pick.name.Some? then pick.name.value else if pick.tier.Some? then pick.tier.value else first
  }

  /** The labels a matrix can ask for: its rules', its fallback's, and the first one. */
  function Reachable(labels: seq<Label>, raw: RawOptions): set<string>
    requires labels != []
  {
    (set i | 0 <= i < |raw.rules| :: ChosenName(raw.rules[i].pick, labels[0].name))
    + {ChosenName(raw.fallback, labels[0].name), labels[0].name}
  }

  function TaggedNames(profiles: seq<Profile>, tag: string): (names: seq<string>)
    ensures forall p :: p in profiles && tag in p.tags ==> p.name in names
    ensures forall name :: name in names ==> exists p :: p in profiles && p.name == name && tag in p.tags
  {
    if profiles == [] then []
    else (if tag in profiles[0].tags then [profiles[0].name] else []) + TaggedNames(profiles[1..], tag)
  }

  /** A label's members, enabled or not. */
  function Members(strategy: string, c: Catalog, entry: Label): seq<string> {
    if entry.route.models != [] || entry.route.explicitModels then entry.route.models
    else TaggedNames(c.profiles, RouteTag(strategy, entry.name, entry.route))
  }

  /** What one label contributes: its members, or the default model when it has none. */
  function Contribution(strategy: string, c: Catalog, entry: Label): set<string> {
    var members := Members(strategy, c, entry);
    (set m | m in members) + (if members == [] && c.defaultModel.Some? then {c.defaultModel.value} else {})
  }

  ghost predicate Refers(strategy: string, labels: seq<Label>, c: Catalog, raw: RawOptions, name: string)
    requires labels != []
  {
    exists i :: 0 <= i < |labels| && labels[i].name in Reachable(labels, raw) && name in Contribution(strategy, c, labels[i])
  }

  function NamesIn(profiles: seq<Profile>, selected: set<string>): (names: seq<string>)
    ensures forall name :: name in names <==> name in selected && exists p :: p in profiles && p.name == name
  {
    if profiles == [] then []
    else (if profiles[0].name in selected then [profiles[0].name] else []) + NamesIn(profiles[1..], selected)
  }

  /** The selection of a migrated strategy: the one it had, or the models it refers to. */
  method ReferencedModels<N>(strategy: string, p: Policy<N>, c: Catalog, raw: RawOptions) returns (selected: seq<string>)
    requires p.labels != []
    ensures IsReferenced(strategy, p, c, raw, selected)
  {
    if p.selectedModels.Some? {
      return p.selectedModels.value;
    }
    var reachable := Reachable(p.labels, raw);
    var names: set<string> := {};
    var i := 0;
    while i < |p.labels|
      invariant 0 <= i <= |p.labels|
      invariant forall name :: name in names <==>
        exists j :: 0 <= j < i && p.labels[j].name in reachable && name in Contribution(strategy, c, p.labels[j])
    {
      if p.labels[i].name in reachable {
        names := names + Contribution(strategy, c, p.labels[i]);
      }
      i := i + 1;
    }
    return NamesIn(c.profiles, names);
  }

  ghost predicate AreReferred(strategy: string, labels: seq<Label>, c: Catalog, raw: RawOptions, names: set<string>)
    requires labels != []
  {
    forall name :: name in names <==> Refers(strategy, labels, c, raw, name)
  }

  ghost predicate IsReferenced<N>(strategy: string, p: Policy<N>, c: Catalog, raw: RawOptions, selected: seq<string>)
    requires p.labels != []
  {
    if p.selectedModels.Some? then selected == p.selectedModels.value
    else exists names :: selected == NamesIn(c.profiles, names) && AreReferred(strategy, p.labels, c, raw, names)
  }

  lemma SelectedIff<N>(strategy: string, p: Policy<N>, c: Catalog, raw: RawOptions, selected: seq<string>, q: Profile)
    requires p.labels != [] && IsReferenced(strategy, p, c, raw, selected)
    requires p.selectedModels.None? && q in c.profiles
    ensures q.name in selected <==> Refers(strategy, p.labels, c, raw, q.name)
  {
  }

  // The migrated policy

  function Filter(models: seq<string>, selected: seq<string>): (r: seq<string>)
    ensures forall m :: m in r <==> m in models && m in selected
  {
    if models == [] then []
    else (if models[0] in selected then [models[0]] else []) + Filter(models[1..], selected)
  }

  /** A printed model list loses the models outside the selection and stays a list. */
  function FilterRoute(r: Route, selected: seq<string>): Route {
    if r.models != [] || r.explicitModels then r.(models := Filter(r.models, selected), explicitModels := true) else r
  }

  function FilterLabels(labels: seq<Label>, selected: seq<string>): (r: seq<Label>)
    ensures |r| == |labels| && forall i :: 0 <= i < |labels| ==> r[i] == Label(labels[i].name, FilterRoute(labels[i].route, selected))
  {
    seq(|labels|, i requires 0 <= i < |labels| => Label(labels[i].name, FilterRoute(labels[i].route, selected)))
  }

  function Migrated<N>(p: Policy<N>, selected: seq<string>): Policy<N> {
    p.(labels := FilterLabels(p.labels, selected), selectedModels := Some(selected))
  }

  // Pools after the migration

  lemma MigratedHasLabel<N>(p: Policy<N>, selected: seq<string>, name: string)
    ensures HasLabel(Migrated(p, selected).labels, name) <==> HasLabel(p.labels, name)
    ensures HasLabel(p.labels, name) ==>
      IndexOf(Migrated(p, selected).labels, name) == IndexOf(p.labels, name)
  {
    var labels := FilterLabels(p.labels, selected);
    if HasLabel(p.labels, name) {
      var i :| 0 <= i < |p.labels| && p.labels[i].name == name;
      assert labels[i].name == name;
      Reprint.NormalIndex(p.labels, labels, name);
    }
  }

  /** A list keeps its pool when every eligible model it finds is in the selection. */
  lemma {:induction false} NamedKept<N>(p: Policy<N>, c: Catalog, selected: seq<string>, models: seq<string>)
    requires forall q :: q in c.profiles && Eligible(p, q) && q.name in models ==> q.name in selected
    requires p.selectedModels.Some? ==> p.selectedModels.value == selected
    ensures Named(Migrated(p, selected), c, Filter(models, selected)) == Named(p, c, models)
  {
    if models != [] {
      NamedKept(p, c, selected, models[1..]);
      var found := ByName(c.profiles, models[0]);
      if models[0] in selected {
        assert Filter(models, selected)[1..] == Filter(models[1..], selected);
        assert found.Some? ==> (Eligible(Migrated(p, selected), found.value) <==> Eligible(p, found.value));
      } else {
        assert Filter(models, selected) == Filter(models[1..], selected);
        assert found.Some? ==> found.value.name !in selected && !Eligible(p, found.value);
      }
    }
  }

  lemma {:induction false} TaggedKept<N>(p: Policy<N>, profiles: seq<Profile>, selected: seq<string>, tag: string)
    requires forall q :: q in profiles && Eligible(p, q) && tag in q.tags ==> q.name in selected
    requires p.selectedModels.Some? ==> p.selectedModels.value == selected
    ensures Tagged(EligibleOf(Migrated(p, selected), profiles), tag) == Tagged(EligibleOf(p, profiles), tag)
  {
    if profiles != [] {
      TaggedKept(p, profiles[1..], selected, tag);
      var q := profiles[0];
      assert Eligible(Migrated(p, selected), q) ==> Eligible(p, q);
      TaggedStep(p, profiles, tag);
      TaggedStep(Migrated(p, selected), profiles, tag);
    }
  }

  lemma TaggedStep<N>(p: Policy<N>, profiles: seq<Profile>, tag: string)
    requires profiles != []
    ensures Tagged(EligibleOf(p, profiles), tag) ==
            (if Eligible(p, profiles[0]) && tag in profiles[0].tags then [profiles[0]] else []) + Tagged(EligibleOf(p, profiles[1..]), tag)
  {
    if Eligible(p, profiles[0]) {
      assert EligibleOf(p, profiles)[1..] == EligibleOf(p, profiles[1..]);
    } else {
      assert EligibleOf(p, profiles) == EligibleOf(p, profiles[1..]);
    }
  }

  /** A label the matrix can reach, or any label of a strategy that had a selection already. */
  predicate Covered<N>(p: Policy<N>, raw: RawOptions, name: string)
    requires p.labels != []
  {
    HasLabel(p.labels, name) && (p.selectedModels.Some? || name in Reachable(p.labels, raw))
  }

  lemma MembersSelected<N>(strategy: string, p: Policy<N>, c: Catalog, raw: RawOptions, selected: seq<string>, name: string, q: Profile)
    requires p.labels != [] && IsReferenced(strategy, p, c, raw, selected) && Covered(p, raw, name)
    requires q in c.profiles && Eligible(p, q) && q.name in Members(strategy, c, p.labels[IndexOf(p.labels, name)])
    ensures q.name in selected
  {
    if p.selectedModels.None? {
      var i := IndexOf(p.labels, name);
      assert p.labels[i].name in Reachable(p.labels, raw) && q.name in Contribution(strategy, c, p.labels[i]);
      SelectedIff(strategy, p, c, raw, selected, q);
    }
  }

  /** Every reachable label draws from the same models in the same order. */
  lemma PoolKept<N>(strategy: string, p: Policy<N>, c: Catalog, raw: RawOptions, selected: seq<string>, name: string)
    requires p.labels != [] && IsReferenced(strategy, p, c, raw, selected) && Covered(p, raw, name)
    ensures HasLabel(Migrated(p, selected).labels, name)
    ensures TierPool(strategy, Migrated(p, selected), c, name) == TierPool(strategy, p, c, name)
  {
    MigratedHasLabel(p, selected, name);
    var entry := p.labels[IndexOf(p.labels, name)];
    if entry.route.models != [] || entry.route.explicitModels {
      forall q | q in c.profiles && Eligible(p, q) && q.name in entry.route.models ensures q.name in selected {
        MembersSelected(strategy, p, c, raw, selected, name, q);
      }
      NamedKept(p, c, selected, entry.route.models);
    } else {
      var tag := RouteTag(strategy, name, entry.route);
      forall q | q in c.profiles && Eligible(p, q) && tag in q.tags ensures q.name in selected {
        MembersSelected(strategy, p, c, raw, selected, name, q);
      }
      TaggedKept(p, c.profiles, selected, tag);
    }
  }

  // Selections after the migration

  function After(s: Strategy, selected: seq<string>): Strategy {
    s.(policy := Migrated(s.policy, selected))
  }

  /** The wide pool can only shrink. */
  lemma WidePoolShrinks<N>(p: Policy<N>, c: Catalog, raw: RawOptions, strategy: string, selected: seq<string>, q: Profile)
    requires p.labels != [] && IsReferenced(strategy, p, c, raw, selected) && q in Candidates(Migrated(p, selected), c)
    ensures q in Candidates(p, c)
  {
  }

  lemma AttemptKept(s: Strategy, c: Catalog, raw: RawOptions, selected: seq<string>, q: Query, k: nat)
    requires s.policy.labels != [] && IsReferenced(s.name, s.policy, c, raw, selected) && Covered(s.policy, raw, q.tier)
    requires k < ATTEMPTS
    ensures HasLabel(After(s, selected).policy.labels, q.tier)
    ensures k % 2 == 0 ==> Attempt(After(s, selected), c, q, k) == Attempt(s, c, q, k)
    ensures Attempt(s, c, q, k) == [] ==> Attempt(After(s, selected), c, q, k) == []
  {
    PoolKept(s.name, s.policy, c, raw, selected, q.tier);
    var t := After(s, selected);
    if k % 2 == 1 && Attempt(t, c, q, k) != [] {
      var p := Attempt(t, c, q, k)[0];
      AttemptAdmits(t, c, q, k, p);
      WidePoolShrinks(s.policy, c, raw, s.name, selected, p);
      AttemptAdmits(s, c, q, k, p);
    }
  }

  lemma FirstAttemptKept(s: Strategy, c: Catalog, raw: RawOptions, selected: seq<string>, q: Query)
    requires s.policy.labels != [] && IsReferenced(s.name, s.policy, c, raw, selected) && Covered(s.policy, raw, q.tier)
    requires FirstAttempt(s, c, q) < ATTEMPTS && FirstAttempt(s, c, q) % 2 == 0
    ensures HasLabel(After(s, selected).policy.labels, q.tier)
    ensures FirstAttempt(After(s, selected), c, q) == FirstAttempt(s, c, q)
  {
    var t := After(s, selected);
    var k := FirstAttempt(s, c, q);
    AttemptKept(s, c, raw, selected, q, k);
    forall j | 0 <= j < k ensures Attempt(t, c, q, j) == [] {
      AttemptKept(s, c, raw, selected, q, j);
    }
  }

  /** A selection that came from a reachable label's own pool is made the same way afterwards. */
  lemma LabelSelectionKept(s: Strategy, c: Catalog, raw: RawOptions, selected: seq<string>, q: Query)
    requires s.policy.labels != [] && IsReferenced(s.name, s.policy, c, raw, selected) && Covered(s.policy, raw, q.tier)
    requires Select(s, c, q).Ok? && Select(s, c, q).value.source.LabelPool?
    ensures HasLabel(After(s, selected).policy.labels, q.tier)
    ensures Select(After(s, selected), c, q) == Select(s, c, q)
  {
    var t := After(s, selected);
    PoolKept(s.name, s.policy, c, raw, selected, q.tier);
    FirstAttemptKept(s, c, raw, selected, q);
    var k := FirstAttempt(s, c, q);
    AttemptKept(s, c, raw, selected, q, k);
    Reprint.SameBest(s, t, q.facts, Attempt(s, c, q, k));
  }

  // The global default after the migration

  /** Some reachable label has no members, or has the default model among them. */
  ghost predicate DefaultIsReferred(s: Strategy, c: Catalog, raw: RawOptions)
    requires s.policy.labels != []
  {
    s.policy.selectedModels.Some? || (c.defaultModel.Some? && Refers(s.name, s.policy.labels, c, raw, c.defaultModel.value))
  }

  lemma DefaultKeptIff(s: Strategy, c: Catalog, raw: RawOptions, selected: seq<string>)
    requires s.policy.labels != [] && IsReferenced(s.name, s.policy, c, raw, selected) && DefaultModel(s, c).Ok?
    ensures DefaultModel(After(s, selected), c).Ok? <==> DefaultIsReferred(s, c, raw)
    ensures DefaultModel(After(s, selected), c).Ok? ==> DefaultModel(After(s, selected), c) == DefaultModel(s, c)
  {
    var found := ByName(c.profiles, c.defaultModel.value).value;
    if s.policy.selectedModels.None? {
      SelectedIff(s.name, s.policy, c, raw, selected, found);
    }
  }

  lemma NoDefaultStays(s: Strategy, c: Catalog, raw: RawOptions, selected: seq<string>)
    requires s.policy.labels != [] && IsReferenced(s.name, s.policy, c, raw, selected) && DefaultModel(s, c).Err?
    ensures DefaultModel(After(s, selected), c) == DefaultModel(s, c)
  {
  }

  /**
   A reachable label whose pool is empty is served by the global default. It still is after the
   migration exactly when the strategy refers to that default: when some reachable label has no
   members at all, or lists it. A label whose members are all disabled does not see to that.
   */
  lemma EmptyPoolKeptIff(s: Strategy, c: Catalog, raw: RawOptions, selected: seq<string>, q: Query)
    requires s.policy.labels != [] && IsReferenced(s.name, s.policy, c, raw, selected) && Covered(s.policy, raw, q.tier)
    requires TierPool(s.name, s.policy, c, q.tier) == []
    ensures HasLabel(After(s, selected).policy.labels, q.tier)
    ensures Select(After(s, selected), c, q) == Select(s, c, q) <==> DefaultModel(s, c).Err? || DefaultIsReferred(s, c, raw)
  {
    PoolKept(s.name, s.policy, c, raw, selected, q.tier);
    if DefaultModel(s, c).Ok? {
      DefaultKeptIff(s, c, raw, selected);
    } else {
      NoDefaultStays(s, c, raw, selected);
    }
  }

  lemma {:induction false} NothingTagged(profiles: seq<Profile>, tag: string)
    requires forall q :: q in profiles ==> tag !in q.tags
    ensures Tagged(profiles, tag) == []
  {
    if profiles != [] {
      NothingTagged(profiles[1..], tag);
    }
  }

  /** In particular, a reachable label with no members still reaches the global default. */
  lemma MemberlessLabelKept(s: Strategy, c: Catalog, raw: RawOptions, selected: seq<string>, q: Query)
    requires s.policy.labels != [] && IsReferenced(s.name, s.policy, c, raw, selected) && Covered(s.policy, raw, q.tier)
    requires Members(s.name, c, s.policy.labels[IndexOf(s.policy.labels, q.tier)]) == []
    ensures HasLabel(After(s, selected).policy.labels, q.tier)
    ensures Select(After(s, selected), c, q) == Select(s, c, q)
  {
    var i := IndexOf(s.policy.labels, q.tier);
    var entry := s.policy.labels[i];
    var pool := TierPool(s.name, s.policy, c, q.tier);
    assert pool == [] by {
      if entry.route.models == [] && !entry.route.explicitModels {
        var tag := RouteTag(s.name, entry.name, entry.route);
        assert forall p :: p in c.profiles && tag in p.tags ==> p.name in Members(s.name, c, entry);
        NothingTagged(Candidates(s.policy, c), tag);
      }
    }
    if DefaultModel(s, c).Ok? && s.policy.selectedModels.None? {
      assert entry.name in Reachable(s.policy.labels, raw) && c.defaultModel.value in Contribution(s.name, c, entry);
    }
    EmptyPoolKeptIff(s, c, raw, selected, q);
  }

  // A catalog where the migration takes the default model away from a reachable label

  const DISABLED := Profile("p/off", false, [], 0, 0.0, None, None, true, true, true, 0.0, 0.0)
  const DEFAULT := Profile("p/on", true, [], 0, 0.0, None, None, true, true, true, 0.0, 0.0)
  const TWO_MODELS := Catalog([DISABLED, DEFAULT], Some("p/on"))
  const NO_RULES := RawOptions([], RawPick(None, None, None))
  const ASK := Query("work", Facts(0, None, false, false, false, None), None, None)

  function OneLabel(round: real -> real): Strategy {
    Strategy(
      "matrix",
      Policy(Sticky, "balanced", [Label("work", Route(["p/off"], true, None, "", None))],
             Escalation(2.0, 2.0), Hysteresis(2.0, 45.0, 8.0), [], Budget(None, 0.75), None),
      round)
  }

  lemma ExampleNames()
    ensures DISABLED.name != DEFAULT.name
    ensures ByName(TWO_MODELS.profiles, "p/on") == Some(DEFAULT) && ByName(TWO_MODELS.profiles, "p/off") == Some(DISABLED)
    ensures NamesIn(TWO_MODELS.profiles, {"p/off"}) == ["p/off"]
  {
    assert |DISABLED.name| == 5 && |DEFAULT.name| == 4;
    assert TWO_MODELS.profiles[1..] == [DEFAULT] && [DEFAULT][1..] == [];
    assert NamesIn([DEFAULT], {"p/off"}) == [];
  }

  lemma ExampleRefers(round: real -> real, name: string)
    ensures Refers("matrix", OneLabel(round).policy.labels, TWO_MODELS, NO_RULES, name) <==> name == "p/off"
  {
    var labels := OneLabel(round).policy.labels;
    assert Contribution("matrix", TWO_MODELS, labels[0]) == {"p/off"} by {
      assert Members("matrix", TWO_MODELS, labels[0]) == ["p/off"];
    }
    assert labels[0].name in Reachable(labels, NO_RULES);
  }

  lemma ExampleIsReferenced(round: real -> real)
    ensures IsReferenced("matrix", OneLabel(round).policy, TWO_MODELS, NO_RULES, ["p/off"])
  {
    ExampleNames();
    var names := {"p/off"};
    forall name ensures name in names <==> Refers("matrix", OneLabel(round).policy.labels, TWO_MODELS, NO_RULES, name) {
      ExampleRefers(round, name);
    }
    assert ["p/off"] == NamesIn(TWO_MODELS.profiles, names);
  }

  lemma DisabledMembersLoseTheDefault(round: real -> real)
    ensures var s := OneLabel(round); var t := After(s, ["p/off"]);
      && IsReferenced(s.name, s.policy, TWO_MODELS, NO_RULES, ["p/off"])
      && HasLabel(s.policy.labels, ASK.tier) && HasLabel(t.policy.labels, ASK.tier) && Covered(s.policy, NO_RULES, ASK.tier)
      && Select(s, TWO_MODELS, ASK).Ok? && Select(t, TWO_MODELS, ASK).Err?
  {
    var s := OneLabel(round);
    assert s.policy.labels[0].name == "work";
    ExampleNames();
    ExampleIsReferenced(round);
    ExampleRefers(round, "p/on");
    assert |"p/on"| == 4 && |"p/off"| == 5;
    assert TierPool(s.name, s.policy, TWO_MODELS, "work") == [] by {
      assert ["p/off"][1..] == [];
      assert Named(s.policy, TWO_MODELS, ["p/off"]) == [];
      assert IndexOf(s.policy.labels, "work") == 0;
    }
    assert DefaultModel(s, TWO_MODELS).Ok?;
    PoolKept(s.name, s.policy, TWO_MODELS, NO_RULES, ["p/off"], "work");
    DefaultKeptIff(s, TWO_MODELS, NO_RULES, ["p/off"]);
  }

  // What a matrix can ask for

  /** A validated matrix and the raw options it came from. */
  ghost predicate IsValidated(options: Options, raw: RawOptions, labels: seq<Label>) {
    && |options.rules| == |raw.rules|
    && (forall i :: 0 <= i < |raw.rules| ==> ValidateChoice(raw.rules[i].pick, labels) == Ok(options.rules[i].pick))
    && ValidateChoice(raw.fallback, labels) == Ok(options.fallback)
  }

  lemma {:induction false} FirstMatchSource(rules: seq<Rule>, answers: Answers)
    ensures FirstMatch(rules, answers) == Pick(None, None)
            || exists i :: 0 <= i < |rules| && FirstMatch(rules, answers) == rules[i].pick
  {
    if rules != [] && !Matches(rules[0], answers) {
      FirstMatchSource(rules[1..], answers);
      if i :| 0 <= i < |rules[1..]| && FirstMatch(rules[1..], answers) == rules[1..][i].pick {
        assert rules[i + 1].pick == rules[1..][i].pick;
      }
    }
  }

  /** Whatever the decision provider answers, the label asked for is one whose pool the migration keeps. */
  lemma MatrixAsksForReachable(s: Strategy, options: Options, raw: RawOptions, answers: Option<Answers>)
    requires s.policy.labels != [] && IsValidated(options, raw, s.policy.labels)
    ensures Covered(s.policy, raw, PickedLabel(s, Picked(options, answers)))
  {
    var labels := s.policy.labels;
    assert HasLabel(labels, labels[0].name);
    var accepted := Accepted(options, answers);
    if accepted.Some? {
      FirstMatchSource(options.rules, accepted.value);
      if i :| 0 <= i < |options.rules| && FirstMatch(options.rules, accepted.value) == options.rules[i].pick {
        assert ValidateChoice(raw.rules[i].pick, labels) == Ok(options.rules[i].pick);
        assert ChosenName(raw.rules[i].pick, labels[0].name) == PickedLabel(s, options.rules[i].pick);
      }
    }
  }
}
