/** Naming the session's own model in the mode that reroutes every turn: exactly when it serves the request. */
module FreshManual {
  import opened Wrappers
  import opened Catalogs
  import opened Selection
  import opened Sessions
  import opened Strategies

  // When a selection ends on a given model

  /** No relaxation step before attempt k, on either pool, admits any model. */
  ghost predicate NothingAdmittedBefore(s: Strategy, c: Catalog, q: Query, k: nat)
    requires HasLabel(s.policy.labels, q.tier) && k <= ATTEMPTS
  {
    forall j, p :: 0 <= j < k && p in Pool(s, c, q, j % 2 == 1) ==> !Admits(q, Steps(q)[j / 2], p)
  }

  /** Position i is the least of a pool by policy key, and the first with that key. */
  ghost predicate LeastAt(s: Strategy, facts: Facts, pool: seq<Profile>, i: nat) {
    && i < |pool|
    && forall j :: 0 <= j < |pool| ==>
         && !KeyLess(Key(s, facts, pool, pool[j]), Key(s, facts, pool, pool[i]))
         && (j < i ==> KeyLess(Key(s, facts, pool, pool[i]), Key(s, facts, pool, pool[j])))
  }

  /** At the first step and pool that admit anything, this model is admitted and comes first. */
  ghost predicate ComesFirst(s: Strategy, c: Catalog, q: Query, p: Profile)
    requires HasLabel(s.policy.labels, q.tier)
  {
    exists k: nat, i: nat :: k < ATTEMPTS && FirstAt(s, c, q, p, k, i)
  }

  ghost predicate FirstAt(s: Strategy, c: Catalog, q: Query, p: Profile, k: nat, i: nat)
    requires HasLabel(s.policy.labels, q.tier) && k < ATTEMPTS
  {
    var admitted := Admitted(q, Steps(q)[k / 2], Pool(s, c, q, k % 2 == 1));
    NothingAdmittedBefore(s, c, q, k) && LeastAt(s, q.facts, admitted, i) && admitted[i] == p
  }

  lemma NothingAdmittedIff(s: Strategy, c: Catalog, q: Query, j: nat)
    requires HasLabel(s.policy.labels, q.tier) && j < ATTEMPTS
    ensures Attempt(s, c, q, j) == [] <==> forall p :: p in Pool(s, c, q, j % 2 == 1) ==> !Admits(q, Steps(q)[j / 2], p)
  {
    var found := Attempt(s, c, q, j);
    if found != [] {
      assert found[0] in found;
      AttemptAdmits(s, c, q, j, found[0]);
    }
    forall p | found == [] && p in Pool(s, c, q, j % 2 == 1) ensures !Admits(q, Steps(q)[j / 2], p) {
      AttemptAdmits(s, c, q, j, p);
    }
  }

  lemma FirstAttemptIff(s: Strategy, c: Catalog, q: Query, k: nat)
    requires HasLabel(s.policy.labels, q.tier) && k < ATTEMPTS && Attempt(s, c, q, k) != []
    ensures FirstAttempt(s, c, q) == k <==> NothingAdmittedBefore(s, c, q, k)
  {
    forall j | 0 <= j < k
      ensures Attempt(s, c, q, j) == [] <==> forall p :: p in Pool(s, c, q, j % 2 == 1) ==> !Admits(q, Steps(q)[j / 2], p)
    {
      NothingAdmittedIff(s, c, q, j);
    }
  }

  lemma BestIff(s: Strategy, facts: Facts, pool: seq<Profile>, i: nat)
    requires pool != []
    ensures LeastAt(s, facts, pool, i) <==> i == Best(s, facts, pool)
  {
    var keys := Keys(s, facts, pool);
    var best := Best(s, facts, pool);
    assert forall j :: 0 <= j < |pool| ==> keys[j] == Key(s, facts, pool, pool[j]);
  }

  /** The selection ends on a model if and only if that model comes first. */
  lemma SelectsIff(s: Strategy, c: Catalog, q: Query, p: Profile)
    requires HasLabel(s.policy.labels, q.tier) && TierPool(s.name, s.policy, c, q.tier) != []
    requires PositiveWindows(c.profiles)
    ensures (Select(s, c, q).Ok? && Select(s, c, q).value.profile == p) <==> ComesFirst(s, c, q, p)
  {
    SelectErrs(s, c, q);
    var k := FirstAttempt(s, c, q);
    if Select(s, c, q).Ok? && Select(s, c, q).value.profile == p {
      FirstAttemptIff(s, c, q, k);
      var i := Best(s, q.facts, Attempt(s, c, q, k));
      BestIff(s, q.facts, Attempt(s, c, q, k), i);
      assert FirstAt(s, c, q, p, k, i);
    }
    if ComesFirst(s, c, q, p) {
      var l: nat, i: nat :| l < ATTEMPTS && FirstAt(s, c, q, p, l, i);
      assert Attempt(s, c, q, l) == Admitted(q, Steps(q)[l / 2], Pool(s, c, q, l % 2 == 1));
      FirstAttemptIff(s, c, q, l);
      BestIff(s, q.facts, Attempt(s, c, q, l), i);
    }
  }

  // The decision

  function OwnQuery(s: Strategy, r: Request): Query
    requires s.policy.labels != []
  {
    Query(RequestLabel(s, r.facts), r.facts, None, None)
  }

  /**
   In the mode that reroutes every turn, a request that names the session's own model is served
   by it if and only if that model comes first at the first relaxation step and pool of the
   request's label that admit anything, or, when the label has no usable model, if and only if
   it is the usable global default.
   */
  lemma FreshManualIff(s: Strategy, c: Catalog, r: Request)
    requires s.policy.labels != [] && UniqueLabels(s.policy.labels) && s.policy.mode.Fresh?
    requires PositiveWindows(c.profiles) && UniqueNames(c.profiles)
    requires r.manual.Some? && Selected(s.policy, r.manual.value.name)
    requires r.session.Some? && Continues(s, c, r.session.value) && r.session.value.route == r.manual.value.name
    ensures var q := OwnQuery(s, r); var own := ByName(c.profiles, r.manual.value.name).value;
      (Decide(s, c, r).Ok? && Decide(s, c, r).value.model == own.name) <==>
      if HasLabel(s.policy.labels, q.tier) && TierPool(s.name, s.policy, c, q.tier) != []
      then ComesFirst(s, c, q, own)
      else c.defaultModel == Some(own.name)
  {
    var q, own := OwnQuery(s, r), ByName(c.profiles, r.manual.value.name).value;
    ManualCurrentIsAutomatic(s, c, r);
    FreshDecides(s, c, r.(manual := None));
    if HasLabel(s.policy.labels, q.tier) && TierPool(s.name, s.policy, c, q.tier) != [] {
      SelectsIff(s, c, q, own);
      if Select(s, c, q).Ok? {
        ChosenFits(s, c, q);
        ByNameOfMember(c.profiles, Select(s, c, q).value.profile);
      }
    }
  }

  lemma FreshDecides(s: Strategy, c: Catalog, r: Request)
    requires s.policy.labels != [] && UniqueLabels(s.policy.labels) && s.policy.mode.Fresh? && r.manual.None?
    requires r.session.Some? && Continues(s, c, r.session.value)
    ensures var selected := Select(s, c, OwnQuery(s, r));
      && (Decide(s, c, r).Ok? <==> selected.Ok?)
      && (selected.Ok? ==> Decide(s, c, r).value.model == selected.value.profile.name)
  {
  }

  /** It need not: the label's pool may hold another model only. */
  lemma FreshManualCanMove(s: Strategy, c: Catalog, r: Request, other: Profile)
    requires s.policy.labels != [] && UniqueLabels(s.policy.labels) && s.policy.mode.Fresh? && PositiveWindows(c.profiles)
    requires r.manual.Some? && Selected(s.policy, r.manual.value.name)
    requires r.session.Some? && Continues(s, c, r.session.value) && r.session.value.route == r.manual.value.name
    requires other in c.profiles && other.name != r.manual.value.name
    requires var q := OwnQuery(s, r);
      HasLabel(s.policy.labels, q.tier) && TierPool(s.name, s.policy, c, q.tier) == [other] && Fitness(q, other) == 3
    ensures Decide(s, c, r).Ok? && Decide(s, c, r).value.model == other.name
  {
    var q := OwnQuery(s, r);
    assert other in TierPool(s.name, s.policy, c, q.tier);
    assert other in Candidates(s.policy, c);
    AdmitsByFitness(q, 0, other);
    AttemptAdmits(s, c, q, 0, other);
    var pool := Attempt(s, c, q, 0);
    assert pool[Best(s, q.facts, pool)] in pool;
    AttemptAdmits(s, c, q, 0, pool[Best(s, q.facts, pool)]);
    ManualCurrentIsAutomatic(s, c, r);
    FreshDecides(s, c, r.(manual := None));
  }

  // A request that names the session's model and is served by another

  const NAMED := Profile("p/a", true, [], 0, 0.9, None, None, true, true, true, 0.0, 0.0)
  const LISTED := Profile("p/b", true, [], 0, 0.1, None, None, true, true, true, 0.0, 0.0)
  const BOTH := Catalog([NAMED, LISTED], None)
  const PLAIN_FACTS := Facts(10, None, false, false, false, None)

  function FreshStrategy(round: real -> real): Strategy {
    Strategy(
      "task_aware",
      Policy(Fresh, "quality_first", [Label("work", Route(["p/b"], true, None, "", None))],
             Escalation(2.0, 2.0), Hysteresis(2.0, 45.0, 8.0), [], Budget(None, 0.75), None),
      round)
  }

  const NAMING := Request(
    PLAIN_FACTS, Some(Session("s", "p/a", "work", Some(false), None, 0.0, 0.0, None, 1, 0, 0.0, 0, 0, 0, 0.0, [])),
    Some(NAMED), 2, 0.0)

  lemma BothModels()
    ensures NAMED.name != LISTED.name && PositiveWindows(BOTH.profiles)
    ensures ByName(BOTH.profiles, "p/a") == Some(NAMED) && ByName(BOTH.profiles, "p/b") == Some(LISTED)
  {
    assert "p/a"[2] != "p/b"[2];
    assert BOTH.profiles[1..] == [LISTED];
  }

  lemma ListedPool(round: real -> real)
    ensures var s := FreshStrategy(round);
      HasLabel(s.policy.labels, "work") && TierPool(s.name, s.policy, BOTH, "work") == [LISTED]
  {
    var s := FreshStrategy(round);
    BothModels();
    assert s.policy.labels[0].name == "work";
    assert ["p/b"][1..] == [];
    assert Named(s.policy, BOTH, ["p/b"]) == [LISTED];
  }

  /** The session is on p/a, the request names p/a, and p/b serves it. */
  lemma NamedModelDoesNotServe(round: real -> real)
    ensures var s := FreshStrategy(round);
      Decide(s, BOTH, NAMING).Ok? && NAMING.manual.value.name == "p/a" && Decide(s, BOTH, NAMING).value.model == "p/b"
  {
    BothModels();
    ListedPool(round);
    FreshManualCanMove(FreshStrategy(round), BOTH, NAMING, LISTED);
  }
}
