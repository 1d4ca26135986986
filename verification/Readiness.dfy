/** The setup page's static readiness check, against what the router does. */
module Readiness {
  import opened Wrappers
  import opened Catalogs
  import opened Selection
  import opened Sessions
  import opened Strategies
  import opened Matrix

  /** Whether some eligible model belongs to a label, the way the projection looks for one. */
  predicate LabelServed(strategy: string, enabled: seq<Profile>, entry: Label) {
    if entry.route.models != [] || entry.route.explicitModels then
      exists p :: p in enabled && p.name in entry.route.models
    else
      exists p :: p in enabled && RouteTag(strategy, entry.name, entry.route) in p.tags
  }

  /** `routing_ready` for the default strategy. */
  predicate RoutingReady(s: Strategy, c: Catalog) {
    var enabled := Candidates(s.policy, c);
    var usable := if c.defaultModel.Some? then ByName(c.profiles, c.defaultModel.value) else None;
    && enabled != []
    && ((usable.Some? && usable.value in enabled)
        || forall i :: 0 <= i < |s.policy.labels| ==> LabelServed(s.name, enabled, s.policy.labels[i]))
  }

  lemma {:induction false} NamedServes<N>(p: Policy<N>, c: Catalog, models: seq<string>)
    requires UniqueNames(c.profiles)
    ensures Named(p, c, models) != [] <==> exists q :: q in Candidates(p, c) && q.name in models
  {
    if models != [] {
      NamedServes(p, c, models[1..]);
      var found := ByName(c.profiles, models[0]);
      if found.Some? && Eligible(p, found.value) {
        assert found.value in Candidates(p, c) && found.value.name in models;
      }
      if Named(p, c, models[1..]) != [] {
        var q :| q in Candidates(p, c) && q.name in models[1..];
        assert q.name in models;
      }
      if q :| q in Candidates(p, c) && q.name in models {
        ByNameOfMember(c.profiles, q);
        assert q.name == models[0] || q.name in models[1..];
      }
    }
  }

  /** The projection's question about a label is whether its pool is empty. */
  lemma ServedIffPool(s: Strategy, c: Catalog, i: nat)
    requires UniqueNames(c.profiles) && UniqueLabels(s.policy.labels) && i < |s.policy.labels|
    ensures HasLabel(s.policy.labels, s.policy.labels[i].name)
    ensures LabelServed(s.name, Candidates(s.policy, c), s.policy.labels[i]) <==>
            TierPool(s.name, s.policy, c, s.policy.labels[i].name) != []
  {
    var entry := s.policy.labels[i];
    assert HasLabel(s.policy.labels, entry.name);
    assert IndexOf(s.policy.labels, entry.name) == i;
    if entry.route.models != [] || entry.route.explicitModels {
      NamedServes(s.policy, c, entry.route.models);
    } else {
      var pool := Tagged(Candidates(s.policy, c), RouteTag(s.name, entry.name, entry.route));
      if pool != [] {
        assert pool[0] in pool;
      }
    }
  }

  /** An automatic request on the first turn of a session. */
  function FirstTurn(facts: Facts): Request {
    Request(facts, None, None, 1, 0.0)
  }

  /** Every first-turn automatic request on one of the strategy's labels gets a model. */
  ghost predicate EveryLabelRoutes(s: Strategy, c: Catalog)
    requires s.policy.labels != [] && UniqueLabels(s.policy.labels)
  {
    forall facts: Facts :: facts.routeLabel.Some? && HasLabel(s.policy.labels, facts.routeLabel.value) ==> Decide(s, c, FirstTurn(facts)).Ok?
  }

  lemma LabelRoutesIff(s: Strategy, c: Catalog, facts: Facts)
    requires s.policy.labels != [] && UniqueLabels(s.policy.labels) && PositiveWindows(c.profiles)
    requires facts.routeLabel.Some? && HasLabel(s.policy.labels, facts.routeLabel.value)
    ensures Decide(s, c, FirstTurn(facts)).Ok? <==>
            TierPool(s.name, s.policy, c, facts.routeLabel.value) != [] || DefaultModel(s, c).Ok?
  {
    var q := Query(facts.routeLabel.value, facts, None, None);
    var pool := TierPool(s.name, s.policy, c, q.tier);
    if pool != [] {
      SelectFailsIff(s, c, q);
      assert pool[0] in pool;
      assert pool[0] in Candidates(s.policy, c);
    }
  }

  /**
   For every catalog: routing is reported ready exactly when every first-turn automatic request,
   on every label and with whatever facts, gets a model without a setup error.
   */
  lemma ReadyIff(s: Strategy, c: Catalog)
    requires s.policy.labels != [] && UniqueLabels(s.policy.labels)
    requires UniqueNames(c.profiles) && PositiveWindows(c.profiles)
    ensures RoutingReady(s, c) <==> EveryLabelRoutes(s, c)
  {
    if RoutingReady(s, c) {
      forall facts: Facts | facts.routeLabel.Some? && HasLabel(s.policy.labels, facts.routeLabel.value)
        ensures Decide(s, c, FirstTurn(facts)).Ok?
      {
        LabelRoutesIff(s, c, facts);
        ServedIffPool(s, c, IndexOf(s.policy.labels, facts.routeLabel.value));
      }
    }
    if EveryLabelRoutes(s, c) {
      forall i | 0 <= i < |s.policy.labels| && DefaultModel(s, c).Err?
        ensures LabelServed(s.name, Candidates(s.policy, c), s.policy.labels[i])
      {
        LabelRoutes(s, c, i);
      }
      if DefaultModel(s, c).Err? {
        LabelRoutes(s, c, 0);
      }
    }
  }

  lemma LabelRoutes(s: Strategy, c: Catalog, i: nat)
    requires s.policy.labels != [] && UniqueLabels(s.policy.labels) && i < |s.policy.labels|
    requires UniqueNames(c.profiles) && PositiveWindows(c.profiles)
    requires EveryLabelRoutes(s, c) && DefaultModel(s, c).Err?
    ensures LabelServed(s.name, Candidates(s.policy, c), s.policy.labels[i]) && Candidates(s.policy, c) != []
  {
    var name := s.policy.labels[i].name;
    assert HasLabel(s.policy.labels, name);
    var facts := Facts(0, None, false, false, false, Some(name));
    assert Decide(s, c, FirstTurn(facts)).Ok?;
    LabelRoutesIff(s, c, facts);
    ServedIffPool(s, c, i);
    var pool := TierPool(s.name, s.policy, c, name);
    assert pool[0] in pool;
    assert pool[0] in Candidates(s.policy, c);
  }

  /** So a ready default matrix routes every first turn, whatever its provider answers. */
  lemma ReadyMatrixRoutes(s: Strategy, options: Options, answers: Option<Answers>, c: Catalog, facts: Facts)
    requires s.policy.labels != [] && UniqueLabels(s.policy.labels) && OptionsOk(options, s.policy.labels)
    requires UniqueNames(c.profiles) && PositiveWindows(c.profiles) && RoutingReady(s, c)
    ensures MatrixDecide(s, options, answers, c, FirstTurn(facts)).Ok?
  {
    var pick := Picked(options, answers);
    PickedLabelExists(s, options, answers);
    var t := Reordered(s, pick);
    assert RoutingReady(t, c) by {
      assert Candidates(t.policy, c) == Candidates(s.policy, c) by { SameEligible(s.policy, t.policy, c.profiles); }
    }
    ReadyIff(t, c);
    var asked := facts.(routeLabel := Some(PickedLabel(s, pick)));
    assert Decide(t, c, FirstTurn(asked)).Ok?;
  }
}
