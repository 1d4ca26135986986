/** Models, routing policies and the pools a label draws from. */
module Catalogs {
  import opened Wrappers

  datatype Profile = Profile(
    name: string, enabled: bool, tags: seq<string>, priority: int, quality: real,
    contextWindow: Option<int>, maxOutputTokens: Option<int>,
    tools: bool, vision: bool, jsonMode: bool,
    inputPerMillion: real, outputPerMillion: real)

  /** One routing label: an explicit model list, or a tag (by default strategy/label). */
  datatype Route = Route(models: seq<string>, explicitModels: bool, tag: Option<string>, description: string, effort: Option<string>)

  datatype Label = Label(name: string, route: Route)

  datatype Mode = Sticky | Cached | Escalate | Adaptive | Fresh

  datatype Escalation<N> = Escalation(maxFailures: N, maxTruncations: N)
  datatype Hysteresis<N> = Hysteresis(minTurns: N, cooldown: N, maxSwitches: N)
  datatype Budget<N> = Budget(maxCost: Option<N>, pressureRatio: N)

  /**
   A routing policy. Labels keep their order; the thresholds are of type `N`, a number where
   the policy is followed and a raw document value where it is printed and parsed.
   */
  datatype Policy<N> = Policy(
    mode: Mode, selection: string, labels: seq<Label>,
    escalation: Escalation<N>, hysteresis: Hysteresis<N>, breakOn: seq<string>, budget: Budget<N>,
    selectedModels: Option<seq<string>>)

  datatype Catalog = Catalog(profiles: seq<Profile>, defaultModel: Option<string>)

  datatype Facts = Facts(
    conversationTokens: nat, requestedMaxTokens: Option<int>,
    needsTools: bool, needsVision: bool, needsJson: bool, routeLabel: Option<string>)

  const CAPABILITY_GAP := "capability_gap"
  const CONTEXT_PRESSURE := "context_pressure"
  const OUTPUT_LIMIT := "output_limit"

  // Models

  predicate Supports(p: Profile, facts: Facts) {
    && (facts.needsTools ==> p.tools)
    && (facts.needsVision ==> p.vision)
    && (facts.needsJson ==> p.jsonMode)
  }

  predicate FitsContext(p: Profile, tokens: int) {
    p.contextWindow.Some? ==> tokens <= p.contextWindow.value
  }

  predicate FitsOutput(p: Profile, tokens: int) {
    p.maxOutputTokens.Some? ==> tokens <= p.maxOutputTokens.value
  }

  function EstimatedCost(p: Profile, prompt: int, output: int): real {
    (prompt as real * p.inputPerMillion + output as real * p.outputPerMillion) / 1000000.0
  }

  /** The first model of that name. */
  function ByName(profiles: seq<Profile>, name: string): (found: Option<Profile>)
    ensures found.Some? ==> found.value in profiles && found.value.name == name
    ensures found.None? ==> forall p :: p in profiles ==> p.name != name
  {
    if profiles == [] then None
    else if profiles[0].name == name then Some(profiles[0])
    else ByName(profiles[1..], name)
  }

  /** Catalog documents reject a model configured twice. */
  ghost predicate UniqueNames(profiles: seq<Profile>) {
    forall i, j :: 0 <= i < j < |profiles| ==> profiles[i].name != profiles[j].name
  }

  /** Limits are positive or unknown. */
  ghost predicate PositiveWindows(profiles: seq<Profile>) {
    forall p :: p in profiles && p.contextWindow.Some? ==> p.contextWindow.value > 0
  }

  lemma {:induction false} ByNameOfMember(profiles: seq<Profile>, p: Profile)
    requires UniqueNames(profiles) && p in profiles
    ensures ByName(profiles, p.name) == Some(p)
  {
    if profiles[0] != p {
      var i :| 0 <= i < |profiles| && profiles[i] == p;
      assert profiles[0].name != profiles[i].name;
      assert profiles[1..][i - 1] == p;
      ByNameOfMember(profiles[1..], p);
    }
  }

  // Labels

  predicate HasLabel(labels: seq<Label>, name: string) {
    exists i :: 0 <= i < |labels| && labels[i].name == name
  }

  /** A label dictionary has one entry per name. */
  ghost predicate UniqueLabels(labels: seq<Label>) {
    forall i, j :: 0 <= i < j < |labels| ==> labels[i].name != labels[j].name
  }

  function IndexOf(labels: seq<Label>, name: string): (i: nat)
    requires HasLabel(labels, name)
    ensures i < |labels| && labels[i].name == name
    ensures forall j :: 0 <= j < i ==> labels[j].name != name
  {
    if labels[0].name == name then 0
    else
      assert HasLabel(labels[1..], name) by {
        var i :| 0 <= i < |labels| && labels[i].name == name;
        assert labels[1..][i - 1].name == name;
      }
      1 + IndexOf(labels[1..], name)
  }

  function RouteOf(labels: seq<Label>, name: string): Route
    requires HasLabel(labels, name)
  {
    labels[IndexOf(labels, name)].route
  }

  // Pools

  predicate Selected<N>(p: Policy<N>, name: string) {
    p.selectedModels.Some? ==> name in p.selectedModels.value
  }

  predicate Eligible<N>(p: Policy<N>, profile: Profile) {
    profile.enabled && Selected(p, profile.name)
  }

  function EligibleOf<N>(p: Policy<N>, profiles: seq<Profile>): (pool: seq<Profile>)
    ensures forall q :: q in pool <==> q in profiles && Eligible(p, q)
  {
    if profiles == [] then []
    else (if Eligible(p, profiles[0]) then [profiles[0]] else []) + EligibleOf(p, profiles[1..])
  }

  /** Every eligible model of the catalog, in catalog order. */
  function Candidates<N>(p: Policy<N>, c: Catalog): seq<Profile> {
    EligibleOf(p, c.profiles)
  }

  function Tagged(profiles: seq<Profile>, tag: string): (pool: seq<Profile>)
    ensures forall q :: q in pool <==> q in profiles && tag in q.tags
  {
    if profiles == [] then []
    else (if tag in profiles[0].tags then [profiles[0]] else []) + Tagged(profiles[1..], tag)
  }

  /** The eligible models of a list, in list order. */
  function Named<N>(p: Policy<N>, c: Catalog, models: seq<string>): (pool: seq<Profile>)
    ensures forall q :: q in pool ==> q in c.profiles && Eligible(p, q) && q.name in models
  {
    if models == [] then []
    else
      var found := ByName(c.profiles, models[0]);
      (if found.Some? && Eligible(p, found.value) then [found.value] else []) + Named(p, c, models[1..])
  }

  function RouteTag(strategy: string, name: string, route: Route): string {
    if route.tag.Some? && route.tag.value != "" then route.tag.value else strategy + "/" + name
  }

  function RoutePool<N>(strategy: string, p: Policy<N>, c: Catalog, name: string, route: Route): (pool: seq<Profile>)
    ensures forall q :: q in pool ==> q in Candidates(p, c)
  {
    if route.models != [] || route.explicitModels then Named(p, c, route.models)
    else Tagged(Candidates(p, c), RouteTag(strategy, name, route))
  }

  /** A label's candidates under one strategy. */
  function TierPool<N>(strategy: string, p: Policy<N>, c: Catalog, tier: string): (pool: seq<Profile>)
    requires HasLabel(p.labels, tier)
    ensures forall q :: q in pool ==> q in Candidates(p, c)
  {
    RoutePool(strategy, p, c, tier, RouteOf(p.labels, tier))
  }

  // A pool depends on the labels and the selection of a policy only

  lemma {:induction false} SameEligible<N>(p: Policy<N>, q: Policy<N>, profiles: seq<Profile>)
    requires p.selectedModels == q.selectedModels
    ensures EligibleOf(p, profiles) == EligibleOf(q, profiles)
  {
    if profiles != [] {
      SameEligible(p, q, profiles[1..]);
    }
  }

  lemma {:induction false} SameNamed<N>(p: Policy<N>, q: Policy<N>, c: Catalog, models: seq<string>)
    requires p.selectedModels == q.selectedModels
    ensures Named(p, c, models) == Named(q, c, models)
  {
    if models != [] {
      SameNamed(p, q, c, models[1..]);
    }
  }

  lemma SamePool<N>(strategy: string, p: Policy<N>, q: Policy<N>, c: Catalog, tier: string)
    requires p.selectedModels == q.selectedModels && p.labels == q.labels && HasLabel(p.labels, tier)
    ensures TierPool(strategy, p, c, tier) == TierPool(strategy, q, c, tier)
  {
    SameEligible(p, q, c.profiles);
    SameNamed(p, q, c, RouteOf(p.labels, tier).models);
  }
}
