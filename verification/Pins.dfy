/** Pins: exactly when a turn of a pinned session moves it, keeps it or is refused, and what that means over runs. */
module Pins {
  import opened Wrappers
  import opened Catalogs
  import opened Selection
  import opened Sessions
  import opened Strategies
  import opened Engine
  import opened FreshManual
  import opened Gaps
  import opened HardMoves

  // One turn

  /** A pinning strategy whose pins only hard reasons break. */
  ghost predicate PinsForHard(s: Strategy) {
    && s.policy.labels != [] && UniqueLabels(s.policy.labels) && IsPinned(s.policy.mode)
    && forall reason :: reason in s.policy.breakOn ==> !IsQuality(reason)
  }

  /** A turn of a session that goes on with its model, with no other model named. */
  predicate OnPin(s: Strategy, c: Catalog, r: Request) {
    && r.session.Some? && Continues(s, c, r.session.value)
    && (r.manual.Some? ==> r.manual.value.name == r.session.value.route)
  }

  function PinnedModel(s: Strategy, c: Catalog, r: Request): Profile
    requires OnPin(s, c, r)
  {
    ByName(c.profiles, r.session.value.route).value
  }

  /** A listed hard reason takes the pin to another model. */
  ghost predicate Breaking(s: Strategy, c: Catalog, r: Request)
    requires OnPin(s, c, r)
  {
    exists p :: Takes(s, c, PinnedModel(s, c, r), r.session.value.tier, r.facts, p)
  }

  lemma PinnedDecision(s: Strategy, c: Catalog, r: Request)
    requires PinsForHard(s) && OnPin(s, c, r)
    ensures var moved := HardMove(s, c, PinnedModel(s, c, r), r.session.value, r.facts); var o := Decide(s, c, r);
      && (o.Err? <==> moved.Err?)
      && (moved.Ok? && moved.value.None? ==>
            o.value.model == r.session.value.route && o.value.switchedFrom.None? && KnownTier(s, o.value.tier))
      && (moved.Ok? && moved.value.Some? ==> o.value.model == moved.value.value.choice.profile.name)
      && (moved.Ok? && moved.value.Some? && o.value.model != r.session.value.route ==> o.value.switchedFrom == Some(r.session.value.route))
  {
  }

  /**
   With hard reasons only in the list and no other model named, a pinned turn has three ends. It
   moves the session exactly when a listed hard requirement holds and the model that leads its
   query is another one that improves on what was short; it is refused exactly when such a
   requirement finds nothing left to ask; otherwise it stays, whatever the failures, truncations
   and cost.
   */
  lemma PinnedTurnIff(s: Strategy, c: Catalog, r: Request)
    requires PinsForHard(s) && OnPin(s, c, r) && PositiveWindows(c.profiles)
    ensures var o := Decide(s, c, r); var current := PinnedModel(s, c, r);
      && (o.Err? <==> Strands(s, c, current, r.session.value.tier, r.facts))
      && (o.Ok? && o.value.switchedFrom.Some? <==> Breaking(s, c, r))
      && (o.Ok? && o.value.switchedFrom.None? ==> o.value.model == r.session.value.route && KnownTier(s, o.value.tier))
      && forall p :: Takes(s, c, current, r.session.value.tier, r.facts, p) ==>
           o.Ok? && o.value.model == p.name && o.value.switchedFrom == Some(current.name)
  {
    var current, session := PinnedModel(s, c, r), r.session.value;
    var moved := HardMove(s, c, current, session, r.facts);
    PinnedDecision(s, c, r);
    HardMoveIff(s, c, current, session, r.facts, current);
    if moved.Ok? && moved.value.Some? {
      HardMoveIff(s, c, current, session, r.facts, moved.value.value.choice.profile);
    }
    forall p | Takes(s, c, current, session.tier, r.facts, p)
      ensures moved.Ok? && moved.value.Some? && moved.value.value.choice.profile == p
    {
      HardMoveIff(s, c, current, session, r.facts, p);
    }
  }

  /** The request fills less of the window than the policy calls pressure. */
  predicate WithinRatio(s: Strategy, p: Profile, facts: Facts) {
    p.contextWindow.None? || RequiredContext(facts) as real <= p.contextWindow.value as real * s.policy.budget.pressureRatio
  }

  function PressureQuery(r: Request, current: Profile): Query
    requires r.session.Some?
  {
    Query(r.session.value.tier, r.facts, Some(current.name), Some(RequiredContext(r.facts)))
  }

  /** Of a request that is served, only the pressure on the window can be a hard requirement. */
  lemma ServedRequirement(s: Strategy, current: Profile, facts: Facts)
    requires CanServe(current, facts)
    ensures HardRequirement(s, current, facts) ==
            if WithinRatio(s, current, facts) then None else Some(Hard(CONTEXT_PRESSURE, Some(RequiredContext(facts))))
  {
  }

  /** A leading model of the current one's name is the current one. */
  lemma LeadsIsNamed(s: Strategy, c: Catalog, current: Profile, q: Query, p: Profile)
    requires KnownTier(s, q.tier) && PositiveWindows(c.profiles) && q.exclude == Some(current.name)
    requires ByName(c.profiles, current.name) == Some(current) && Leads(s, c, q, p) && p.name == current.name
    ensures p == current
  {
    if !AtDefault(s, c, q.tier) {
      SelectsIff(s, c, q, p);
      ChosenFits(s, c, q);
      assert false;
    }
  }

  /** The model that leads when the pinned one is left out has no larger window. */
  ghost predicate LeaderIsNotLarger(s: Strategy, c: Catalog, current: Profile, q: Query)
    requires KnownTier(s, q.tier)
  {
    exists p :: Leads(s, c, q, p) && !Larger(p.contextWindow, current.contextWindow)
  }

  lemma LeaderIsNotLargerIff(s: Strategy, c: Catalog, current: Profile, q: Query)
    requires KnownTier(s, q.tier) && PositiveWindows(c.profiles)
    ensures LeaderIsNotLarger(s, c, current, q) <==>
            Select(s, c, q).Ok? && !Larger(Select(s, c, q).value.profile.contextWindow, current.contextWindow)
  {
    if Select(s, c, q).Ok? {
      LeadsIff(s, c, q, Select(s, c, q).value.profile);
    }
    if p :| Leads(s, c, q, p) && !Larger(p.contextWindow, current.contextWindow) {
      LeadsIff(s, c, q, p);
    }
  }

  lemma ServedMove(s: Strategy, c: Catalog, current: Profile, session: Session, facts: Facts)
    requires KnownTier(s, session.tier) && CanServe(current, facts)
    ensures var moved := HardMove(s, c, current, session, facts);
      var chosen := Select(s, c, Query(session.tier, facts, Some(current.name), Some(RequiredContext(facts))));
      if WithinRatio(s, current, facts) || !Breaks(s, CONTEXT_PRESSURE) then moved == Ok(None)
      else
        && (moved.Err? <==> chosen.Err?)
        && (moved.Ok? ==>
              (moved.value.Some? <==>
                 chosen.value.profile.name != current.name && Larger(chosen.value.profile.contextWindow, current.contextWindow)))
        && (moved.Ok? && moved.value.Some? ==> moved.value.value.choice.profile == chosen.value.profile)
  {
    ServedRequirement(s, current, facts);
  }

  /**
   A pinned session whose model serves the request in full stays on it if and only if the request
   is within the pressure ratio of its window, or pressure is not listed, or the model that would
   lead instead has no larger window. Serving the request is not enough.
   */
  lemma ServedTurnStaysIff(s: Strategy, c: Catalog, r: Request)
    requires PinsForHard(s) && OnPin(s, c, r) && PositiveWindows(c.profiles)
    requires CanServe(PinnedModel(s, c, r), r.facts)
    ensures var o := Decide(s, c, r); var current := PinnedModel(s, c, r);
      (o.Ok? && o.value.model == r.session.value.route) <==>
      || WithinRatio(s, current, r.facts)
      || CONTEXT_PRESSURE !in s.policy.breakOn
      || LeaderIsNotLarger(s, c, current, PressureQuery(r, current))
  {
    var current, q := PinnedModel(s, c, r), PressureQuery(r, PinnedModel(s, c, r));
    PinnedDecision(s, c, r);
    ServedMove(s, c, current, r.session.value, r.facts);
    LeaderIsNotLargerIff(s, c, current, q);
    if Select(s, c, q).Ok? && Select(s, c, q).value.profile.name == current.name {
      LeadsIff(s, c, q, Select(s, c, q).value.profile);
      LeadsIsNamed(s, c, current, q, Select(s, c, q).value.profile);
    }
  }

  // Runs

  /** One pinning strategy, with or without a matrix in front of it. */
  ghost predicate Pinning(e: Setup) {
    && SetupOk(e) && OneStrategy(e) && PositiveWindows(e.catalog.profiles)
    && PinsForHard(e.runners[0].s)
  }

  /** A live session on this route, with nothing decided but to keep it there. */
  ghost predicate OnRoute(e: Setup, route: string, w: World)
    requires OneStrategy(e)
  {
    && w.session.Some? && w.session.value.route == route && KnownTier(e.runners[0].s, w.session.value.tier)
    && (w.inflight.Some? ==>
          && w.inflight.value.outcome.model == route && w.inflight.value.outcome.switchedFrom.None?
          && KnownTier(e.runners[0].s, w.inflight.value.outcome.tier))
  }

  /** The session is not dropped, and turns name no other model. */
  predicate Ordinary(route: string, event: Engine.Event) {
    !event.Drop? && (event.Turn? && event.manual.Some? ==> event.manual.value.name == route)
  }

  /** The route is one this strategy may use. */
  predicate Routable(e: Setup, route: string)
    requires OneStrategy(e)
  {
    ByName(e.catalog.profiles, route).Some? && Eligible(e.runners[0].s.policy, ByName(e.catalog.profiles, route).value)
  }

  /** The turn is decided, and a listed hard reason takes the pin. */
  ghost predicate Loosens(e: Setup, w: World, event: Engine.Event)
    requires Pinning(e)
  {
    && event.Turn? && event.runner == 0 && w.inflight.None?
    && var asked := Asked(e.runners[0], event.answers, RequestOf(w, event));
       OnPin(asked.0, e.catalog, asked.1) && Breaking(asked.0, e.catalog, asked.1)
  }

  lemma AskedIsPinned(e: Setup, route: string, w: World, event: Engine.Event)
    requires Pinning(e) && OnRoute(e, route, w) && Routable(e, route) && event.Turn? && Ordinary(route, event)
    ensures var asked := Asked(e.runners[0], event.answers, RequestOf(w, event));
      && PinsForHard(asked.0) && OnPin(asked.0, e.catalog, asked.1) && asked.1.session == w.session
      && Candidates(e.runners[0].s.policy, e.catalog) != []
      && forall tier :: KnownTier(asked.0, tier) <==> KnownTier(e.runners[0].s, tier)
  {
    var current := ByName(e.catalog.profiles, route).value;
    assert current in Candidates(e.runners[0].s.policy, e.catalog);
  }

  lemma TurnKeepsRoute(e: Setup, route: string, w: World, event: Engine.Event)
    requires Pinning(e) && OnRoute(e, route, w) && Routable(e, route) && event.Turn? && Ordinary(route, event)
    ensures OnRoute(e, route, Do(e, w, event)) <==> !Loosens(e, w, event)
  {
    if event.runner == 0 && w.inflight.None? {
      var asked := Asked(e.runners[0], event.answers, RequestOf(w, event));
      AskedIsPinned(e, route, w, event);
      RunnerAsks(e.runners[0], e.catalog, event.answers, RequestOf(w, event));
      PinnedTurnIff(asked.0, e.catalog, asked.1);
    }
  }

  lemma EventKeepsRoute(e: Setup, route: string, w: World, event: Engine.Event)
    requires Pinning(e) && OnRoute(e, route, w) && Routable(e, route) && Ordinary(route, event)
    ensures OnRoute(e, route, Do(e, w, event)) <==> !Loosens(e, w, event)
  {
    if event.Turn? {
      TurnKeepsRoute(e, route, w, event);
    } else if event.Write? && w.inflight.Some? {
      PersistedFields(w.session.value, w.inflight.value, event.now);
    }
  }

  /** At every point of the run the session is on the route. */
  ghost predicate HoldsRoute(e: Setup, route: string, start: World, events: seq<Engine.Event>)
    requires Pinning(e)
  {
    if events == [] then OnRoute(e, route, start)
    else HoldsRoute(e, route, start, events[..|events| - 1]) && OnRoute(e, route, Run(e, start, events))
  }

  /** No turn of the run takes the pin. */
  ghost predicate NeverLoosens(e: Setup, start: World, events: seq<Engine.Event>)
    requires Pinning(e)
  {
    if events == [] then true
    else
      var n := |events| - 1;
      NeverLoosens(e, start, events[..n]) && !Loosens(e, Run(e, start, events[..n]), events[n])
  }

  /**
   Over every run, whatever failures, truncations and cost accumulate: a session of a pinning
   strategy keeps its route at every point if and only if at none of its turns a listed hard
   requirement is led by another model that improves on what was short.
   */
  lemma {:induction false} PinHoldsOverRunsIff(e: Setup, route: string, start: World, events: seq<Engine.Event>)
    requires Pinning(e) && OnRoute(e, route, start) && Routable(e, route)
    requires forall i :: 0 <= i < |events| ==> Ordinary(route, events[i])
    ensures HoldsRoute(e, route, start, events) <==> NeverLoosens(e, start, events)
    ensures HoldsRoute(e, route, start, events) ==> OnRoute(e, route, Run(e, start, events))
  {
    if events != [] {
      var n := |events| - 1;
      PinHoldsOverRunsIff(e, route, start, events[..n]);
      if HoldsRoute(e, route, start, events[..n]) {
        EventKeepsRoute(e, route, Run(e, start, events[..n]), events[n]);
      }
    }
  }

  /** The route's model serves the request within the pressure ratio, or pressure is not listed. */
  ghost predicate ServedAtEase(e: Setup, route: string, event: Engine.Event)
    requires OneStrategy(e)
  {
    event.Turn? ==>
      var s, current := e.runners[0].s, ByName(e.catalog.profiles, route);
      current.Some? && CanServe(current.value, event.facts)
      && (WithinRatio(s, current.value, event.facts) || CONTEXT_PRESSURE !in s.policy.breakOn)
  }

  lemma NothingTakes(s: Strategy, c: Catalog, current: Profile, tier: string, facts: Facts)
    requires KnownTier(s, tier) && IsPinned(s.policy.mode) && CanServe(current, facts)
    requires WithinRatio(s, current, facts) || CONTEXT_PRESSURE !in s.policy.breakOn
    ensures forall p :: !Takes(s, c, current, tier, facts, p)
  {
    ServedRequirement(s, current, facts);
  }

  lemma EaseKeeps(e: Setup, route: string, w: World, event: Engine.Event)
    requires Pinning(e) && OnRoute(e, route, w) && Routable(e, route) && Ordinary(route, event) && ServedAtEase(e, route, event)
    ensures !Loosens(e, w, event)
  {
    if event.Turn? {
      var asked := Asked(e.runners[0], event.answers, RequestOf(w, event));
      AskedIsPinned(e, route, w, event);
      var current := ByName(e.catalog.profiles, route).value;
      assert CanServe(current, asked.1.facts) && (WithinRatio(asked.0, current, asked.1.facts) || CONTEXT_PRESSURE !in asked.0.policy.breakOn) by {
        assert RequiredContext(asked.1.facts) == RequiredContext(event.facts);
      }
      NothingTakes(asked.0, e.catalog, current, w.session.value.tier, asked.1.facts);
    }
  }

  /** In particular a session served within the ratio on every turn never leaves its route. */
  lemma {:induction false} ServedPinHolds(e: Setup, route: string, start: World, events: seq<Engine.Event>)
    requires Pinning(e) && OnRoute(e, route, start) && Routable(e, route)
    requires forall i :: 0 <= i < |events| ==> Ordinary(route, events[i]) && ServedAtEase(e, route, events[i])
    ensures HoldsRoute(e, route, start, events) && OnRoute(e, route, Run(e, start, events))
  {
    if events != [] {
      var n := |events| - 1;
      ServedPinHolds(e, route, start, events[..n]);
      EaseKeeps(e, route, Run(e, start, events[..n]), events[n]);
      EventKeepsRoute(e, route, Run(e, start, events[..n]), events[n]);
    }
  }
}
