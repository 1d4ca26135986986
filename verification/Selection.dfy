/**
 Choosing one model for a label: constraints are relaxed in a fixed order, and within each
 relaxation the label's own pool is tried before the wide one.
 */
module Selection {
  import opened Wrappers
  import opened Catalogs

  const DEFAULT_OUTPUT_TOKENS := 1024

  /** A named policy, with the rounding its cost keys go through. */
  datatype Strategy = Strategy(name: string, policy: Policy<real>, round: real -> real)

  datatype PoolSource = LabelPool | WidenedPool | GlobalDefault | FromSession

  datatype Choice = Choice(profile: Profile, tier: string, relaxed: bool, defaulted: bool, source: PoolSource, candidates: seq<string>)

  datatype SetupIncomplete = NoDefaultModel | NoEnabledModel | ModelNotSelected

  /** One selection: a label, the request, and what a hard requirement adds. */
  datatype Query = Query(tier: string, facts: Facts, exclude: Option<string>, minContext: Option<int>)

  function OutputRequirement(facts: Facts): int {
    if facts.requestedMaxTokens.Some? then (if facts.requestedMaxTokens.value > 1 then facts.requestedMaxTokens.value else 1)
    else DEFAULT_OUTPUT_TOKENS
  }

  function RequiredContext(facts: Facts): int {
    facts.conversationTokens + OutputRequirement(facts)
  }

  // Ordering a pool

  function Cost(facts: Facts, p: Profile): real {
    EstimatedCost(p, facts.conversationTokens, OutputRequirement(facts))
  }

  function MaxCost(facts: Facts, pool: seq<Profile>): real {
    if pool == [] then 0.0
    else
      var rest := MaxCost(facts, pool[1..]);
      var first := Cost(facts, pool[0]);
      if |pool| == 1 || first > rest then first else rest
  }

  function Key(s: Strategy, facts: Facts, pool: seq<Profile>, p: Profile): (real, int) {
    var most := if MaxCost(facts, pool) == 0.0 then 1.0 else MaxCost(facts, pool);
    if s.policy.selection == "cheapest_adequate" then (s.round(Cost(facts, p)), p.priority)
    else if s.policy.selection == "quality_first" then (-p.quality, p.priority)
    else (s.round(0.4 * (Cost(facts, p) / most) - 0.6 * p.quality), p.priority)
  }

  predicate KeyLess(a: (real, int), b: (real, int)) {
    a.0 < b.0 || (a.0 == b.0 && a.1 < b.1)
  }

  /** The head of a stable sort by key: the first position no other position beats. */
  function FirstLeast(keys: seq<(real, int)>): (best: nat)
    requires keys != []
    ensures best < |keys|
    ensures forall i :: 0 <= i < |keys| ==> !KeyLess(keys[i], keys[best])
    ensures forall i :: 0 <= i < best ==> KeyLess(keys[best], keys[i])
  {
    var n := |keys| - 1;
    if n == 0 then 0
    else
      var best := FirstLeast(keys[..n]);
      assert forall i :: 0 <= i < n ==> keys[..n][i] == keys[i];
      if KeyLess(keys[n], keys[best]) then n else best
  }

  function Keys(s: Strategy, facts: Facts, pool: seq<Profile>): seq<(real, int)> {
    seq(|pool|, i requires 0 <= i < |pool| => Key(s, facts, pool, pool[i]))
  }

  /** Where the model that comes first in this strategy's order stands in its pool. */
  function Best(s: Strategy, facts: Facts, pool: seq<Profile>): (best: nat)
    requires pool != []
    ensures best < |pool|
  {
    FirstLeast(Keys(s, facts, pool))
  }

  // The relaxation steps

  datatype Step = Step(strict: bool, context: int, output: Option<int>)

  function Greater(a: int, b: int): int {
    if a > b then a else b
  }

  function ContextNeed(q: Query): int {
    Greater(RequiredContext(q.facts), if q.minContext.Some? then q.minContext.value else 0)
  }

  function Steps(q: Query): seq<Step> {
    [ Step(true, ContextNeed(q), Some(OutputRequirement(q.facts))),
      Step(true, ContextNeed(q), None),
      Step(true, 0, None),
      Step(false, 0, None) ]
  }

  predicate NotExcluded(q: Query, p: Profile) {
    q.exclude.Some? ==> p.name != q.exclude.value
  }

  predicate Admits(q: Query, step: Step, p: Profile) {
    && p.enabled && NotExcluded(q, p)
    && (step.strict ==> Supports(p, q.facts))
    && FitsContext(p, step.context)
    && (step.output.Some? ==> FitsOutput(p, step.output.value))
  }

  function Admitted(q: Query, step: Step, pool: seq<Profile>): (rest: seq<Profile>)
    ensures forall p :: p in rest <==> p in pool && Admits(q, step, p)
  {
    if pool == [] then []
    else (if Admits(q, step, pool[0]) then [pool[0]] else []) + Admitted(q, step, pool[1..])
  }

  /** Attempt 2k tries step k on the label pool, attempt 2k + 1 on the wide pool. */
  const ATTEMPTS: nat := 8

  function Pool(s: Strategy, c: Catalog, q: Query, wide: bool): seq<Profile>
    requires HasLabel(s.policy.labels, q.tier)
  {
    if wide then Candidates(s.policy, c) else TierPool(s.name, s.policy, c, q.tier)
  }

  function Attempt(s: Strategy, c: Catalog, q: Query, k: nat): seq<Profile>
    requires HasLabel(s.policy.labels, q.tier) && k < ATTEMPTS
  {
    Admitted(q, Steps(q)[k / 2], Pool(s, c, q, k % 2 == 1))
  }

  lemma AttemptAdmits(s: Strategy, c: Catalog, q: Query, k: nat, p: Profile)
    requires HasLabel(s.policy.labels, q.tier) && k < ATTEMPTS
    ensures p in Attempt(s, c, q, k) <==> p in Pool(s, c, q, k % 2 == 1) && Admits(q, Steps(q)[k / 2], p)
  {
  }

  function Attempts(s: Strategy, c: Catalog, q: Query): (all: seq<seq<Profile>>)
    requires HasLabel(s.policy.labels, q.tier)
    ensures |all| == ATTEMPTS
  {
    seq(ATTEMPTS, k requires 0 <= k < ATTEMPTS => Attempt(s, c, q, k))
  }

  function FirstNonEmpty<T>(lists: seq<seq<T>>, k: nat): (first: nat)
    requires k <= |lists|
    ensures k <= first <= |lists|
    ensures first < |lists| ==> lists[first] != []
    ensures forall j :: k <= j < first ==> lists[j] == []
    decreases |lists| - k
  {
    if k == |lists| || lists[k] != [] then k else FirstNonEmpty(lists, k + 1)
  }

  /** The first attempt that finds a model. */
  function FirstAttempt(s: Strategy, c: Catalog, q: Query): (first: nat)
    requires HasLabel(s.policy.labels, q.tier)
    ensures first <= ATTEMPTS
    ensures first < ATTEMPTS ==> Attempt(s, c, q, first) != []
    ensures forall j :: 0 <= j < first ==> Attempt(s, c, q, j) == []
  {
    assert forall j :: 0 <= j < ATTEMPTS ==> Attempts(s, c, q)[j] == Attempt(s, c, q, j);
    FirstNonEmpty(Attempts(s, c, q), 0)
  }

  function Names(pool: seq<Profile>): seq<string> {
    seq(|pool|, i requires 0 <= i < |pool| => pool[i].name)
  }

  /** The global default model, whatever the strategy's ordering. */
  function DefaultModel(s: Strategy, c: Catalog): (r: Result<Choice, SetupIncomplete>)
    ensures r.Ok? ==> r.value.profile in c.profiles && Eligible(s.policy, r.value.profile) && r.value.defaulted
  {
    var found := if c.defaultModel.Some? then ByName(c.profiles, c.defaultModel.value) else None;
    if found.None? || !Eligible(s.policy, found.value) then Err(NoDefaultModel)
    else Ok(Choice(found.value, "default", false, true, GlobalDefault, [found.value.name]))
  }

  function FromAttempt(s: Strategy, c: Catalog, q: Query, k: nat): Choice
    requires HasLabel(s.policy.labels, q.tier) && k < ATTEMPTS && Attempt(s, c, q, k) != []
  {
    var pool := Attempt(s, c, q, k);
    var wide := k % 2 == 1;
    Choice(pool[Best(s, q.facts, pool)], q.tier, wide, false, if wide then WidenedPool else LabelPool, Names(pool))
  }

  predicate IsGlobalDefault(s: Strategy, tier: string) {
    tier == "default" && !HasLabel(s.policy.labels, tier)
  }

  /** The selection as a function; no label lookup can fail on a label or on "default". */
  function Select(s: Strategy, c: Catalog, q: Query): Result<Choice, SetupIncomplete>
    requires HasLabel(s.policy.labels, q.tier) || q.tier == "default"
  {
    if IsGlobalDefault(s, q.tier) then DefaultModel(s, c)
    else if TierPool(s.name, s.policy, c, q.tier) == [] then
      match DefaultModel(s, c)
      case Ok(choice) => Ok(choice.(tier := q.tier))
      case Err(e) => Err(e)
    else
      var k := FirstAttempt(s, c, q);
      if k < ATTEMPTS then Ok(FromAttempt(s, c, q, k)) else Fallback(s, c, q)
  }

  function Remaining(q: Query, pool: seq<Profile>): (rest: seq<Profile>)
    ensures forall p :: p in rest <==> p in pool && p.enabled && NotExcluded(q, p)
  {
    if pool == [] then []
    else (if pool[0].enabled && NotExcluded(q, pool[0]) then [pool[0]] else []) + Remaining(q, pool[1..])
  }

  /** What is left when every step has failed. */
  function Fallback(s: Strategy, c: Catalog, q: Query): Result<Choice, SetupIncomplete> {
    var pool := Remaining(q, Candidates(s.policy, c));
    if pool == [] then Err(NoEnabledModel)
    else Ok(Choice(pool[Best(s, q.facts, pool)], q.tier, true, false, WidenedPool, Names(pool)))
  }

  // The selection as it runs: nested loops over steps and pools

  /** The attempt made in the two loops. */
  lemma AttemptNumber(s: Strategy, c: Catalog, q: Query, i: nat, j: nat)
    requires HasLabel(s.policy.labels, q.tier) && i < 4 && j < 2
    ensures (2 * i + j) / 2 == i && ((2 * i + j) % 2 == 1 <==> j == 1)
    ensures Attempt(s, c, q, 2 * i + j) == Admitted(q, Steps(q)[i], Pool(s, c, q, j == 1))
  {
  }

  /** The first attempt that finds something decides. */
  lemma AttemptDecides(s: Strategy, c: Catalog, q: Query, k: nat)
    requires HasLabel(s.policy.labels, q.tier) && TierPool(s.name, s.policy, c, q.tier) != []
    requires k < ATTEMPTS && FirstAttempt(s, c, q) >= k
    ensures Attempt(s, c, q, k) != [] ==> Select(s, c, q) == Ok(FromAttempt(s, c, q, k))
    ensures Attempt(s, c, q, k) == [] ==> FirstAttempt(s, c, q) >= k + 1
  {
  }

  method SelectModel(s: Strategy, c: Catalog, q: Query) returns (r: Result<Choice, SetupIncomplete>)
    requires HasLabel(s.policy.labels, q.tier) || q.tier == "default"
    ensures r == Select(s, c, q)
  {
    if IsGlobalDefault(s, q.tier) {
      return DefaultModel(s, c);
    }
    var tierPool := TierPool(s.name, s.policy, c, q.tier);
    if tierPool == [] {
      r := DefaultModel(s, c);
      return if r.Ok? then Ok(r.value.(tier := q.tier)) else r;
    }
    var steps, pools := Steps(q), [tierPool, Candidates(s.policy, c)];
    var i := 0;
    while i < |steps|
      invariant 0 <= i <= |steps|
      invariant FirstAttempt(s, c, q) >= 2 * i
    {
      var j := 0;
      while j < |pools|
        invariant 0 <= j <= |pools|
        invariant FirstAttempt(s, c, q) >= 2 * i + j
      {
        var candidates := Admitted(q, steps[i], pools[j]);
        AttemptNumber(s, c, q, i, j);
        AttemptDecides(s, c, q, 2 * i + j);
        if candidates != [] {
          return Ok(Choice(candidates[Best(s, q.facts, candidates)], q.tier, j == 1, false,
                           if j == 1 then WidenedPool else LabelPool, Names(candidates)));
        }
        j := j + 1;
      }
      i := i + 1;
    }
    return Fallback(s, c, q);
  }

  // What the selection guarantees

  /**
   The chosen model is the least by (relaxation step, label pool before wide pool, policy key,
   position): no attempt before the one it comes from admits anything, no model of that attempt
   has a smaller key, and none with an equal key stands before it.
   */
  lemma SelectIsLeast(s: Strategy, c: Catalog, q: Query)
    requires HasLabel(s.policy.labels, q.tier) && TierPool(s.name, s.policy, c, q.tier) != []
    requires Select(s, c, q).Ok? && PositiveWindows(c.profiles)
    ensures var choice := Select(s, c, q).value;
      exists k, best ::
        && 0 <= k < ATTEMPTS && 0 <= best < |Attempt(s, c, q, k)|
        && choice.profile == Attempt(s, c, q, k)[best]
        && (choice.relaxed <==> k % 2 == 1)
        && (forall j :: 0 <= j < k ==> Attempt(s, c, q, j) == [])
        && (forall i :: 0 <= i < |Attempt(s, c, q, k)| ==>
              var keys := Keys(s, q.facts, Attempt(s, c, q, k));
              !KeyLess(keys[i], keys[best]) && (i < best ==> KeyLess(keys[best], keys[i])))
  {
    var k := FirstAttempt(s, c, q);
    if k == ATTEMPTS {
      LastStepAdmitsAll(s, c, q);
    }
    var pool := Attempt(s, c, q, k);
    var best := Best(s, q.facts, pool);
    assert Select(s, c, q).value.profile == pool[best];
  }

  // What the three orderings mean

  ghost predicate Monotone(round: real -> real) {
    forall x, y :: x <= y ==> round(x) <= round(y)
  }

  /** What the first of an order satisfies, against any other model of its pool. */
  lemma FirstInOrder(s: Strategy, facts: Facts, pool: seq<Profile>, p: Profile)
    requires p in pool
    ensures !KeyLess(Key(s, facts, pool, p), Key(s, facts, pool, pool[Best(s, facts, pool)]))
  {
    var i :| 0 <= i < |pool| && pool[i] == p;
    assert Keys(s, facts, pool)[i] == Key(s, facts, pool, p);
    assert Keys(s, facts, pool)[Best(s, facts, pool)] == Key(s, facts, pool, pool[Best(s, facts, pool)]);
  }

  /** Quality first: nothing in the pool is better, and nothing as good has a smaller priority number. */
  lemma QualityFirstPicksTheBest(s: Strategy, facts: Facts, pool: seq<Profile>, p: Profile)
    requires s.policy.selection == "quality_first" && p in pool
    ensures var first := pool[Best(s, facts, pool)];
      p.quality <= first.quality && (p.quality == first.quality ==> first.priority <= p.priority)
  {
    FirstInOrder(s, facts, pool, p);
  }

  /** Cheapest adequate: nothing in the pool is cheaper by more than rounding. */
  lemma CheapestPicksTheCheapest(s: Strategy, facts: Facts, pool: seq<Profile>, p: Profile)
    requires s.policy.selection == "cheapest_adequate" && Monotone(s.round) && p in pool
    ensures var first := pool[Best(s, facts, pool)];
      && s.round(Cost(facts, first)) <= s.round(Cost(facts, p))
      && (Cost(facts, p) <= Cost(facts, first) ==> s.round(Cost(facts, p)) == s.round(Cost(facts, first)) && first.priority <= p.priority)
  {
    FirstInOrder(s, facts, pool, p);
  }

  lemma ScaledDown(a: real, b: real, most: real)
    requires a <= b && most > 0.0
    ensures a / most <= b / most
  {
  }

  function Weighed(facts: Facts, pool: seq<Profile>, p: Profile): real {
    0.4 * (Cost(facts, p) / (if MaxCost(facts, pool) == 0.0 then 1.0 else MaxCost(facts, pool))) - 0.6 * p.quality
  }

  /** Balanced: a model that is no dearer and no worse than the first is equal to it, up to rounding, and not ahead in priority. */
  lemma BalancedRespectsDominance(s: Strategy, facts: Facts, pool: seq<Profile>, p: Profile)
    requires s.policy.selection == "balanced" && Monotone(s.round) && p in pool && MaxCost(facts, pool) >= 0.0
    requires var first := pool[Best(s, facts, pool)]; Cost(facts, p) <= Cost(facts, first) && first.quality <= p.quality
    ensures var first := pool[Best(s, facts, pool)];
      s.round(Weighed(facts, pool, p)) == s.round(Weighed(facts, pool, first)) && first.priority <= p.priority
  {
    var first := pool[Best(s, facts, pool)];
    var most := if MaxCost(facts, pool) == 0.0 then 1.0 else MaxCost(facts, pool);
    FirstInOrder(s, facts, pool, p);
    ScaledDown(Cost(facts, p), Cost(facts, first), most);
    assert Weighed(facts, pool, p) <= Weighed(facts, pool, first);
    assert |"balanced"| == 8 && |"cheapest_adequate"| == 17 && |"quality_first"| == 13;
  }

  /** With positive windows the last step admits every eligible model that is not excluded. */
  lemma LastStepAdmitsAll(s: Strategy, c: Catalog, q: Query)
    requires HasLabel(s.policy.labels, q.tier) && PositiveWindows(c.profiles)
    ensures Attempt(s, c, q, 7) == [] <==> Remaining(q, Candidates(s.policy, c)) == []
  {
    var wide := Candidates(s.policy, c);
    var last := Attempt(s, c, q, 7);
    var rest := Remaining(q, wide);
    if rest != [] {
      assert rest[0] in rest;
      AttemptAdmits(s, c, q, 7, rest[0]);
    }
    if last != [] {
      assert last[0] in last;
      AttemptAdmits(s, c, q, 7, last[0]);
      assert last[0] in rest;
    }
  }

  /** Whatever an attempt finds is an eligible model that is not excluded. */
  lemma FoundRemains(s: Strategy, c: Catalog, q: Query, k: nat)
    requires HasLabel(s.policy.labels, q.tier) && k < ATTEMPTS && Attempt(s, c, q, k) != []
    ensures Remaining(q, Candidates(s.policy, c)) != []
  {
    var found := Attempt(s, c, q, k)[0];
    assert found in Attempt(s, c, q, k);
    AttemptAdmits(s, c, q, k, found);
    assert found in Candidates(s.policy, c);
    assert found in Remaining(q, Candidates(s.policy, c));
  }

  lemma SelectErrs(s: Strategy, c: Catalog, q: Query)
    requires HasLabel(s.policy.labels, q.tier) && TierPool(s.name, s.policy, c, q.tier) != []
    requires PositiveWindows(c.profiles)
    ensures Select(s, c, q).Err? <==> Remaining(q, Candidates(s.policy, c)) == []
    ensures FirstAttempt(s, c, q) == ATTEMPTS ==> Select(s, c, q) == Err(NoEnabledModel)
  {
    var k := FirstAttempt(s, c, q);
    if k < ATTEMPTS {
      FoundRemains(s, c, q, k);
    } else {
      LastStepAdmitsAll(s, c, q);
    }
  }

  lemma NoneRemains(s: Strategy, c: Catalog, q: Query)
    ensures Remaining(q, Candidates(s.policy, c)) == [] <==>
            forall p :: p in c.profiles && Eligible(s.policy, p) ==> !NotExcluded(q, p)
  {
    var rest := Remaining(q, Candidates(s.policy, c));
    if rest != [] {
      assert rest[0] in rest;
    }
  }

  /** With a non-empty label pool the trailing fallback can only raise, and exactly when every eligible model is excluded. */
  lemma SelectFailsIff(s: Strategy, c: Catalog, q: Query)
    requires HasLabel(s.policy.labels, q.tier) && TierPool(s.name, s.policy, c, q.tier) != []
    requires PositiveWindows(c.profiles)
    ensures Select(s, c, q).Err? <==> forall p :: p in c.profiles && Eligible(s.policy, p) ==> !NotExcluded(q, p)
    ensures FirstAttempt(s, c, q) == ATTEMPTS ==> Select(s, c, q) == Err(NoEnabledModel)
  {
    SelectErrs(s, c, q);
    NoneRemains(s, c, q);
  }

  /** How well a model serves a request: 3 in full, 2 without its output limit, 1 by capability only, 0 not at all. */
  function Fitness(q: Query, p: Profile): nat {
    if !Supports(p, q.facts) then 0
    else if !FitsContext(p, ContextNeed(q)) then 1
    else if !FitsOutput(p, OutputRequirement(q.facts)) then 2
    else 3
  }

  lemma AdmitsByFitness(q: Query, k: nat, p: Profile)
    requires k < 4 && p.enabled && NotExcluded(q, p) && (p.contextWindow.Some? ==> p.contextWindow.value > 0)
    ensures Admits(q, Steps(q)[k], p) <==> Fitness(q, p) >= 3 - k
  {
  }

  /** What is chosen comes from the first attempt that finds anything, and serves the request as well as its step demands. */
  lemma ChosenFits(s: Strategy, c: Catalog, q: Query)
    requires HasLabel(s.policy.labels, q.tier) && TierPool(s.name, s.policy, c, q.tier) != []
    requires Select(s, c, q).Ok? && PositiveWindows(c.profiles)
    ensures var k := FirstAttempt(s, c, q); var choice := Select(s, c, q).value;
      && k < ATTEMPTS && choice.relaxed == (k % 2 == 1)
      && Fitness(q, choice.profile) >= 3 - k / 2
      && choice.profile in c.profiles && Eligible(s.policy, choice.profile) && NotExcluded(q, choice.profile)
  {
    SelectFailsIff(s, c, q);
    var k := FirstAttempt(s, c, q);
    var pool := Attempt(s, c, q, k);
    var chosen := pool[Best(s, q.facts, pool)];
    assert chosen in pool;
    AttemptAdmits(s, c, q, k, chosen);
    assert chosen in Candidates(s.policy, c);
    AdmitsByFitness(q, k / 2, chosen);
  }

  /** No eligible model serves the request better than the chosen one. */
  lemma NeverPassesOverBetter(s: Strategy, c: Catalog, q: Query, p: Profile)
    requires HasLabel(s.policy.labels, q.tier) && TierPool(s.name, s.policy, c, q.tier) != []
    requires Select(s, c, q).Ok? && PositiveWindows(c.profiles)
    requires p in c.profiles && Eligible(s.policy, p) && NotExcluded(q, p)
    ensures Fitness(q, p) <= Fitness(q, Select(s, c, q).value.profile)
  {
    ChosenFits(s, c, q);
    FitModelIsFound(s, c, q, p);
  }

  /** A model of fitness f is admitted by step 3 - f on the wide pool at the latest. */
  lemma FitModelIsFound(s: Strategy, c: Catalog, q: Query, p: Profile)
    requires HasLabel(s.policy.labels, q.tier) && PositiveWindows(c.profiles)
    requires p in c.profiles && Eligible(s.policy, p) && NotExcluded(q, p)
    ensures FirstAttempt(s, c, q) / 2 <= 3 - Fitness(q, p)
  {
    var k := 2 * (3 - Fitness(q, p)) + 1;
    AdmitsByFitness(q, k / 2, p);
    AttemptAdmits(s, c, q, k, p);
  }

  /** A model of the label's own pool is found by the label attempt its fitness allows. */
  lemma LabelAttemptFinds(s: Strategy, c: Catalog, q: Query, p: Profile, k: nat)
    requires HasLabel(s.policy.labels, q.tier) && p in TierPool(s.name, s.policy, c, q.tier)
    requires PositiveWindows(c.profiles) && NotExcluded(q, p) && k < 4 && Fitness(q, p) >= 3 - k
    ensures Attempt(s, c, q, 2 * k) != []
  {
    assert p in Candidates(s.policy, c);
    assert (2 * k) / 2 == k && (2 * k) % 2 == 0;
    AdmitsByFitness(q, k, p);
    AttemptAdmits(s, c, q, 2 * k, p);
  }

  /** A model of the label's own pool is only passed over for the wide pool when it serves the request worse. */
  lemma LabelPoolFirst(s: Strategy, c: Catalog, q: Query, p: Profile)
    requires HasLabel(s.policy.labels, q.tier) && p in TierPool(s.name, s.policy, c, q.tier)
    requires Select(s, c, q).Ok? && PositiveWindows(c.profiles) && NotExcluded(q, p)
    requires Select(s, c, q).value.relaxed
    ensures Fitness(q, p) < Fitness(q, Select(s, c, q).value.profile)
  {
    ChosenFits(s, c, q);
    var k := FirstAttempt(s, c, q);
    assert 2 * (k / 2) == k - 1;
    if Fitness(q, p) >= 3 - k / 2 {
      LabelAttemptFinds(s, c, q, p, k / 2);
    }
  }
}
