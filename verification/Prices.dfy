/** What the orderings by cost and by balance mean in tokens and prices. */
module Prices {
  import opened Wrappers
  import opened Catalogs
  import opened Selection
  import opened FreshManual

  /** Tokens the answer may take: what was asked for, one at least, or 1024. */
  ghost predicate IsOutput(facts: Facts, output: int) {
    if facts.requestedMaxTokens.None? then output == 1024
    else output >= 1 && output >= facts.requestedMaxTokens.value && (output == 1 || output == facts.requestedMaxTokens.value)
  }

  /** The price of a request whose answer takes this many tokens: each token at its own price per million. */
  ghost predicate IsPrice(p: Profile, facts: Facts, output: int, price: real) {
    1000000.0 * price == facts.conversationTokens as real * p.inputPerMillion + output as real * p.outputPerMillion
  }

  lemma CostIsPrice(p: Profile, facts: Facts, output: int, price: real)
    requires IsOutput(facts, output)
    ensures IsPrice(p, facts, output, price) <==> price == Cost(facts, p)
  {
    assert OutputRequirement(facts) == output;
  }

  /** A model of a pool that stands first in the strategy's order. */
  ghost predicate IsFirst(s: Strategy, facts: Facts, pool: seq<Profile>, first: Profile) {
    exists i: nat :: LeastAt(s, facts, pool, i) && pool[i] == first
  }

  lemma FirstBeats(s: Strategy, facts: Facts, pool: seq<Profile>, first: Profile, p: Profile)
    requires IsFirst(s, facts, pool, first) && p in pool
    ensures !KeyLess(Key(s, facts, pool, p), Key(s, facts, pool, first))
  {
  }

  /** The model a selection ends on stands first among those admitted with it. */
  lemma SelectedIsFirst(s: Strategy, c: Catalog, q: Query, served: Profile) returns (k: nat)
    requires HasLabel(s.policy.labels, q.tier) && ComesFirst(s, c, q, served)
    ensures k < ATTEMPTS && NothingAdmittedBefore(s, c, q, k)
    ensures IsFirst(s, q.facts, Admitted(q, Steps(q)[k / 2], Pool(s, c, q, k % 2 == 1)), served)
  {
    var i: nat;
    k, i :| k < ATTEMPTS && FirstAt(s, c, q, served, k, i);
  }

  /**
   Cheapest adequate: by rounded price of conversation and answer, nothing in the pool is cheaper
   than the first, and of the models that cost as much none has a smaller priority number.
   */
  lemma CheapestByPrice(
      s: Strategy, facts: Facts, pool: seq<Profile>, first: Profile, p: Profile, output: int, lowest: real, other: real)
    requires s.policy.selection == "cheapest_adequate" && IsFirst(s, facts, pool, first) && p in pool
    requires IsOutput(facts, output) && IsPrice(first, facts, output, lowest) && IsPrice(p, facts, output, other)
    ensures s.round(lowest) <= s.round(other)
    ensures s.round(lowest) == s.round(other) ==> first.priority <= p.priority
  {
    FirstBeats(s, facts, pool, first, p);
    CostIsPrice(first, facts, output, lowest);
    CostIsPrice(p, facts, output, other);
  }

  /** Of two models that differ in the price of the conversation only, the dearer one never stands first, once rounding tells them apart. */
  lemma DearerIsNotFirst(s: Strategy, facts: Facts, pool: seq<Profile>, a: Profile, b: Profile, output: int, less: real, more: real)
    requires s.policy.selection == "cheapest_adequate" && Monotone(s.round) && a in pool
    requires a.outputPerMillion == b.outputPerMillion && a.priority == b.priority && a.inputPerMillion < b.inputPerMillion
    requires IsOutput(facts, output) && IsPrice(a, facts, output, less) && IsPrice(b, facts, output, more)
    requires s.round(less) != s.round(more)
    ensures !IsFirst(s, facts, pool, b)
  {
    LessTimes(facts.conversationTokens, a.inputPerMillion, b.inputPerMillion);
    assert less <= more;
    if IsFirst(s, facts, pool, b) {
      CheapestByPrice(s, facts, pool, b, a, output, more, less);
    }
  }

  lemma LessTimes(n: nat, x: real, y: real)
    requires x < y
    ensures n as real * x <= n as real * y
  {
  }

  // Balanced

  /** The greatest price in the pool. */
  ghost predicate IsGreatest(facts: Facts, pool: seq<Profile>, output: int, most: real) {
    && (exists p :: p in pool && IsPrice(p, facts, output, most))
    && forall p, price: real :: p in pool && IsPrice(p, facts, output, price) ==> price <= most
  }

  lemma {:induction false} GreatestIsMax(facts: Facts, pool: seq<Profile>)
    requires pool != []
    ensures (exists p :: p in pool && Cost(facts, p) == MaxCost(facts, pool))
    ensures forall p :: p in pool ==> Cost(facts, p) <= MaxCost(facts, pool)
  {
    if |pool| > 1 {
      GreatestIsMax(facts, pool[1..]);
      if p :| p in pool[1..] && Cost(facts, p) == MaxCost(facts, pool[1..]) {
        assert p in pool;
      }
    }
    assert pool[0] in pool;
  }

  lemma GreatestIff(facts: Facts, pool: seq<Profile>, output: int, most: real)
    requires pool != [] && IsOutput(facts, output)
    ensures IsGreatest(facts, pool, output, most) ==> most == MaxCost(facts, pool)
  {
    GreatestIsMax(facts, pool);
    if IsGreatest(facts, pool, output, most) {
      var p :| p in pool && IsPrice(p, facts, output, most);
      CostIsPrice(p, facts, output, most);
      var q :| q in pool && Cost(facts, q) == MaxCost(facts, pool);
      CostIsPrice(q, facts, output, MaxCost(facts, pool));
    }
  }

  /** Two fifths of the price, as a share of the greatest one, less three fifths of the quality. */
  function Score(price: real, most: real, quality: real): real {
    if most == 0.0 then 0.4 * price - 0.6 * quality else 0.4 * (price / most) - 0.6 * quality
  }

  lemma BalancedKey(s: Strategy, facts: Facts, pool: seq<Profile>, p: Profile)
    requires s.policy.selection == "balanced"
    ensures Key(s, facts, pool, p) == (s.round(Score(Cost(facts, p), MaxCost(facts, pool), p.quality)), p.priority)
  {
    assert |"balanced"| == 8 && |"cheapest_adequate"| == 17 && |"quality_first"| == 13;
    assert Cost(facts, p) / 1.0 == Cost(facts, p);
  }

  /** Balanced: the first has the least rounded score, and of the models that share it the least priority number. */
  lemma BalancedByScore(
      s: Strategy, facts: Facts, pool: seq<Profile>, first: Profile, p: Profile, output: int, own: real, other: real, most: real)
    requires s.policy.selection == "balanced" && IsFirst(s, facts, pool, first) && p in pool
    requires IsOutput(facts, output) && IsPrice(first, facts, output, own) && IsPrice(p, facts, output, other)
    requires IsGreatest(facts, pool, output, most)
    ensures s.round(Score(own, most, first.quality)) <= s.round(Score(other, most, p.quality))
    ensures s.round(Score(own, most, first.quality)) == s.round(Score(other, most, p.quality)) ==> first.priority <= p.priority
  {
    FirstBeats(s, facts, pool, first, p);
    CostIsPrice(first, facts, output, own);
    CostIsPrice(p, facts, output, other);
    GreatestIff(facts, pool, output, most);
    BalancedKey(s, facts, pool, first);
    BalancedKey(s, facts, pool, p);
  }
}
