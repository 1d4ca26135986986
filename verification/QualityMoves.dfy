/**
 Quality reasons: which one a turn answers, whether it may, and where it goes. Failures stay on the
 session's label without its model, truncations start one label up, cost one label down; from there
 the climb ends on the first other model.
 */
module QualityMoves {
  import opened Wrappers
  import opened Catalogs
  import opened Selection
  import opened Sessions
  import opened Strategies
  import opened Gaps
  import opened HardMoves
  import opened Pins
  import opened Routes

  // Paths of tiers

  /** The names of the labels from position i up. */
  function Upwards(s: Strategy, i: nat): seq<string>
    requires i <= |s.policy.labels|
  {
    seq(|s.policy.labels| - i, k requires 0 <= k < |s.policy.labels| - i => s.policy.labels[i + k].name)
  }

  /** Where a tier stands among the labels; the global default stands at the first. */
  ghost predicate StandsAt(s: Strategy, tier: string, i: nat) {
    i < |s.policy.labels| && if HasLabel(s.policy.labels, tier) then s.policy.labels[i].name == tier else tier == "default" && i == 0
  }

  /** The labels from a session's own tier up; above the global default comes the second label, if there is one. */
  function FromOwn(s: Strategy, tier: string, i: nat): seq<string>
    requires i < |s.policy.labels|
  {
    if HasLabel(s.policy.labels, tier) then Upwards(s, i) else [tier] + Upwards(s, if |s.policy.labels| > 1 then 1 else 0)
  }

  ghost predicate AllKnown(s: Strategy, path: seq<string>) {
    path != [] && forall k :: 0 <= k < |path| ==> KnownTier(s, path[k])
  }

  /** Each tier is the one raised from the one before it, up to the top. */
  ghost predicate IsClimb(s: Strategy, path: seq<string>)
    requires s.policy.labels != []
  {
    && AllKnown(s, path)
    && (forall k :: 0 <= k < |path| - 1 ==> RaiseTier(s, path[k]) == path[k + 1] != path[k])
    && RaiseTier(s, path[|path| - 1]) == path[|path| - 1]
  }

  lemma UpwardsKnown(s: Strategy, i: nat)
    requires i < |s.policy.labels| && UniqueLabels(s.policy.labels)
    ensures AllKnown(s, Upwards(s, i))
    ensures forall k :: 0 <= k < |s.policy.labels| - i ==> !IsGlobalDefault(s, Upwards(s, i)[k]) && IndexOf(s.policy.labels, Upwards(s, i)[k]) == i + k
  {
    var labels, path := s.policy.labels, Upwards(s, i);
    forall k | 0 <= k < |path|
      ensures HasLabel(labels, path[k]) && IndexOf(labels, path[k]) == i + k
    {
      assert labels[i + k].name == path[k];
    }
  }

  lemma UpwardsClimbs(s: Strategy, i: nat)
    requires i < |s.policy.labels| && UniqueLabels(s.policy.labels)
    ensures IsClimb(s, Upwards(s, i))
  {
    UpwardsKnown(s, i);
    var labels, path := s.policy.labels, Upwards(s, i);
    forall k | 0 <= k < |path| - 1 ensures RaiseTier(s, path[k]) == path[k + 1] != path[k] {
      assert Rank(s, path[k]) == i + k;
    }
    assert Rank(s, path[|path| - 1]) == |labels| - 1;
  }

  lemma FromOwnClimbs(s: Strategy, tier: string, i: nat)
    requires UniqueLabels(s.policy.labels) && StandsAt(s, tier, i)
    ensures IsClimb(s, FromOwn(s, tier, i)) && FromOwn(s, tier, i)[0] == tier
  {
    if HasLabel(s.policy.labels, tier) {
      UpwardsClimbs(s, i);
    } else {
      var from := if |s.policy.labels| > 1 then 1 else 0;
      UpwardsClimbs(s, from);
      var rest := Upwards(s, from);
      assert Rank(s, tier) == 0;
      assert HasLabel(s.policy.labels, rest[0]) by {
        assert s.policy.labels[from].name == rest[0];
      }
      assert RaiseTier(s, tier) == rest[0] != tier;
    }
  }

  /** The first element that is not passed over is good. */
  ghost predicate FirstIs<T>(path: seq<T>, passed: T -> bool, good: T -> bool) {
    exists j :: 0 <= j < |path| && good(path[j]) && forall k :: 0 <= k < j ==> passed(path[k])
  }

  lemma FirstIsPassed<T>(path: seq<T>, passed: T -> bool, good: T -> bool)
    requires path != [] && passed(path[0]) && !good(path[0])
    ensures FirstIs(path, passed, good) <==> FirstIs(path[1..], passed, good)
  {
    var rest := path[1..];
    if j :| 0 <= j < |path| && good(path[j]) && forall k :: 0 <= k < j ==> passed(path[k]) {
      assert good(rest[j - 1]) && forall k :: 0 <= k < j - 1 ==> passed(rest[k]);
    }
    if j :| 0 <= j < |rest| && good(rest[j]) && forall k :: 0 <= k < j ==> passed(rest[k]) {
      assert good(path[j + 1]) && forall k :: 0 <= k < j + 1 ==> passed(path[k]);
    }
  }

  lemma FirstIsHead<T>(path: seq<T>, passed: T -> bool, good: T -> bool)
    requires path != [] && (|path| == 1 || !passed(path[0]))
    ensures FirstIs(path, passed, good) <==> good(path[0])
  {
    if j :| 0 <= j < |path| && good(path[j]) && forall k :: 0 <= k < j ==> passed(path[k]) {
      assert j == 0;
    }
  }

  // What a climb ends on

  function At(tier: string, facts: Facts, exclude: Option<string>): Query {
    Query(tier, facts, exclude, None)
  }

  /** The tiers that lead to this model and this committed tier. */
  ghost function Leading(s: Strategy, c: Catalog, facts: Facts, exclude: Option<string>, name: string, committed: string): string -> bool {
    (tier: string) => KnownTier(s, tier) && LedTo(s, c, At(tier, facts, exclude), name, committed)
  }

  /** The tiers that lead to this model. */
  ghost function LeadingSomehow(s: Strategy, c: Catalog, facts: Facts, exclude: Option<string>, name: string): string -> bool {
    (tier: string) => exists committed :: Leading(s, c, facts, exclude, name, committed)(tier)
  }

  /** The tiers that lead nowhere. */
  ghost function Leaving(s: Strategy, c: Catalog, facts: Facts, exclude: Option<string>): string -> bool {
    (tier: string) => forall name :: !LeadingSomehow(s, c, facts, exclude, name)(tier)
  }

  /** The first tier of the path that does not lead to the session's own model leads to this one. */
  ghost predicate Reaches(
      s: Strategy, c: Catalog, current: string, facts: Facts, exclude: Option<string>, path: seq<string>, name: string, committed: string)
  {
    && name != current
    && FirstIs(path, LeadingSomehow(s, c, facts, exclude, current), Leading(s, c, facts, exclude, name, committed))
  }

  /** It leads nowhere. */
  ghost predicate EndsNowhere(s: Strategy, c: Catalog, current: string, facts: Facts, exclude: Option<string>, path: seq<string>) {
    FirstIs(path, LeadingSomehow(s, c, facts, exclude, current), Leaving(s, c, facts, exclude))
  }

  lemma LeadingIff(s: Strategy, c: Catalog, facts: Facts, exclude: Option<string>, tier: string, name: string, committed: string)
    requires KnownTier(s, tier) && PositiveWindows(c.profiles)
    ensures var r := Select(s, c, At(tier, facts, exclude));
      Leading(s, c, facts, exclude, name, committed)(tier) <==>
      r.Ok? && r.value.profile.name == name && EffectiveTier(s, r.value) == committed
  {
    LedToIff(s, c, At(tier, facts, exclude), name, committed);
  }

  lemma LeadingSomehowIff(s: Strategy, c: Catalog, facts: Facts, exclude: Option<string>, tier: string, name: string)
    requires KnownTier(s, tier) && PositiveWindows(c.profiles)
    ensures var r := Select(s, c, At(tier, facts, exclude));
      LeadingSomehow(s, c, facts, exclude, name)(tier) <==> r.Ok? && r.value.profile.name == name
  {
    var r := Select(s, c, At(tier, facts, exclude));
    if r.Ok? {
      LeadingIff(s, c, facts, exclude, tier, name, EffectiveTier(s, r.value));
    }
    if committed :| Leading(s, c, facts, exclude, name, committed)(tier) {
      LeadingIff(s, c, facts, exclude, tier, name, committed);
    }
  }

  lemma LeavingIff(s: Strategy, c: Catalog, facts: Facts, exclude: Option<string>, tier: string)
    requires KnownTier(s, tier) && PositiveWindows(c.profiles)
    ensures Leaving(s, c, facts, exclude)(tier) <==> Select(s, c, At(tier, facts, exclude)).Err?
  {
    var r := Select(s, c, At(tier, facts, exclude));
    if r.Ok? {
      LeadingSomehowIff(s, c, facts, exclude, tier, r.value.profile.name);
    } else {
      forall name ensures !LeadingSomehow(s, c, facts, exclude, name)(tier) {
        LeadingSomehowIff(s, c, facts, exclude, tier, name);
      }
    }
  }

  /** The climb as it is seen from outside: the model it ends on and its tier, or that it fails. */
  ghost predicate ClimbIs(
      s: Strategy, c: Catalog, current: string, facts: Facts, exclude: Option<string>, path: seq<string>, name: string, committed: string,
      r: Result<Option<Choice>, SetupIncomplete>)
  {
    && (r.Err? <==> EndsNowhere(s, c, current, facts, exclude, path))
    && ((r.Ok? && r.value.Some? && r.value.value.profile.name == name && r.value.value.tier == committed) <==>
          Reaches(s, c, current, facts, exclude, path, name, committed))
  }

  lemma ClimbStep(
      s: Strategy, c: Catalog, current: string, facts: Facts, exclude: Option<string>, path: seq<string>, name: string, committed: string)
    requires path != [] && KnownTier(s, path[0]) && PositiveWindows(c.profiles)
    ensures var r := Select(s, c, At(path[0], facts, exclude));
      if r.Ok? && r.value.profile.name == current && |path| > 1 then
        && (EndsNowhere(s, c, current, facts, exclude, path) <==> EndsNowhere(s, c, current, facts, exclude, path[1..]))
        && (Reaches(s, c, current, facts, exclude, path, name, committed) <==>
              Reaches(s, c, current, facts, exclude, path[1..], name, committed))
      else
        && (EndsNowhere(s, c, current, facts, exclude, path) <==> r.Err?)
        && (Reaches(s, c, current, facts, exclude, path, name, committed) <==>
              name != current && r.Ok? && r.value.profile.name == name && EffectiveTier(s, r.value) == committed)
  {
    var passed := LeadingSomehow(s, c, facts, exclude, current);
    LeadingIff(s, c, facts, exclude, path[0], name, committed);
    LeadingSomehowIff(s, c, facts, exclude, path[0], current);
    LeavingIff(s, c, facts, exclude, path[0]);
    if passed(path[0]) && |path| > 1 {
      if name != current {
        FirstIsPassed(path, passed, Leading(s, c, facts, exclude, name, committed));
      }
      FirstIsPassed(path, passed, Leaving(s, c, facts, exclude));
    } else {
      FirstIsHead(path, passed, Leading(s, c, facts, exclude, name, committed));
      FirstIsHead(path, passed, Leaving(s, c, facts, exclude));
    }
  }

  lemma RestClimbs(s: Strategy, path: seq<string>)
    requires s.policy.labels != [] && IsClimb(s, path) && |path| > 1
    ensures IsClimb(s, path[1..])
  {
    assert path[1..][|path| - 2] == path[|path| - 1];
  }

  /** The climb along a path of tiers. */
  lemma {:induction false} ClimbEnds(
      s: Strategy, c: Catalog, current: Profile, facts: Facts, exclude: Option<string>, path: seq<string>, name: string, committed: string)
    requires s.policy.labels != [] && UniqueLabels(s.policy.labels) && PositiveWindows(c.profiles) && IsClimb(s, path)
    ensures ClimbIs(s, c, current.name, facts, exclude, path, name, committed, EscalationChoice(s, c, current, At(path[0], facts, exclude)))
    decreases |path|
  {
    ClimbStep(s, c, current.name, facts, exclude, path, name, committed);
    var r := Select(s, c, At(path[0], facts, exclude));
    if r.Ok? && r.value.profile.name == current.name && |path| > 1 {
      RestClimbs(s, path);
      ClimbEnds(s, c, current, facts, exclude, path[1..], name, committed);
      assert RaiseTier(s, path[0]) == path[1] != path[0];
    } else {
      assert |path| == 1 ==> RaiseTier(s, path[0]) == path[0];
    }
  }

  // The three reasons

  ghost predicate Failing(s: Strategy, session: Session) {
    session.failures as real >= s.policy.escalation.maxFailures
  }

  ghost predicate Truncating(s: Strategy, session: Session) {
    !Failing(s, session) && session.truncations as real >= s.policy.escalation.maxTruncations
  }

  /** The cost limit is reached, nothing more urgent is, and there is a lower label. */
  ghost predicate Overspending(s: Strategy, session: Session, i: nat) {
    && !Failing(s, session) && !Truncating(s, session) && i > 0
    && s.policy.budget.maxCost.Some? && session.cost >= s.policy.budget.maxCost.value
  }

  /** The reason is listed, where pins are kept, and the last switch was long enough ago, with switches left. */
  ghost predicate MayMove(s: Strategy, r: Request, reason: string)
    requires r.session.Some?
  {
    var session, h := r.session.value, s.policy.hysteresis;
    && (s.policy.mode == Sticky || s.policy.mode == Cached ==> reason in s.policy.breakOn)
    && session.switchCount as real < h.maxSwitches
    && (session.switchCount > 0 ==>
          (r.turnIndex - session.switchedAtTurn) as real >= h.minTurns && r.now - session.switchedAt >= h.cooldown)
  }

  /** A later turn of a session on a model it may keep, that no hard requirement takes or strands. */
  ghost predicate OnlyQuality(s: Strategy, c: Catalog, r: Request, i: nat) {
    && s.policy.labels != [] && UniqueLabels(s.policy.labels) && PositiveWindows(c.profiles) && s.policy.mode != Fresh
    && OnPin(s, c, r) && StandsAt(s, r.session.value.tier, i)
    && !Strands(s, c, PinnedModel(s, c, r), r.session.value.tier, r.facts) && !Breaking(s, c, r)
  }

  lemma OnlyQualityDecides(s: Strategy, c: Catalog, r: Request, i: nat)
    requires OnlyQuality(s, c, r, i)
    ensures var o, session := Decide(s, c, r), r.session.value; var kept := QualityMove(s, c, PinnedModel(s, c, r), session, r);
      && (o.Err? <==> kept.Err?)
      && (o.Ok? ==> o.value == ContinuedOutcome(s, PinnedModel(s, c, r), session, kept.value))
  {
    var current, session := PinnedModel(s, c, r), r.session.value;
    var moved := HardMove(s, c, current, session, r.facts);
    HardMoveIff(s, c, current, session, r.facts, current);
    if moved.Ok? && moved.value.Some? {
      HardMoveIff(s, c, current, session, r.facts, moved.value.value.choice.profile);
    }
  }

  /** Labels below the top are asked one up, the top label itself. */
  function Up(s: Strategy, i: nat): (up: nat)
    requires i < |s.policy.labels|
    ensures up < |s.policy.labels|
  {
    if i + 1 < |s.policy.labels| then i + 1 else i
  }

  lemma FailuresAnswer(s: Strategy, session: Session, i: nat)
    requires UniqueLabels(s.policy.labels) && KnownTier(s, session.tier) && StandsAt(s, session.tier, i)
    requires Failing(s, session)
    ensures QualityReason(s, session) == Some(Quality(session.tier, UPSTREAM_FAILURES, true))
    ensures var path := FromOwn(s, session.tier, i); IsClimb(s, path) && path[0] == session.tier
  {
    FromOwnClimbs(s, session.tier, i);
  }

  lemma RankIs(s: Strategy, tier: string, i: nat)
    requires UniqueLabels(s.policy.labels) && KnownTier(s, tier) && StandsAt(s, tier, i)
    ensures Rank(s, tier) == i
  {
  }

  lemma TruncationsAnswer(s: Strategy, session: Session, i: nat)
    requires UniqueLabels(s.policy.labels) && KnownTier(s, session.tier) && StandsAt(s, session.tier, i)
    requires Truncating(s, session)
    ensures var path := Upwards(s, Up(s, i));
      IsClimb(s, path) && QualityReason(s, session) == Some(Quality(path[0], OUTPUT_TRUNCATED, false))
  {
    RankIs(s, session.tier, i);
    UpwardsClimbs(s, Up(s, i));
  }

  lemma CostAnswers(s: Strategy, session: Session, i: nat)
    requires UniqueLabels(s.policy.labels) && KnownTier(s, session.tier) && StandsAt(s, session.tier, i)
    requires Overspending(s, session, i)
    ensures var path := Upwards(s, i - 1);
      IsClimb(s, path) && QualityReason(s, session) == Some(Quality(path[0], BUDGET_PRESSURE, false))
  {
    RankIs(s, session.tier, i);
    UpwardsClimbs(s, i - 1);
  }

  lemma NothingAnswers(s: Strategy, session: Session, i: nat)
    requires UniqueLabels(s.policy.labels) && KnownTier(s, session.tier) && StandsAt(s, session.tier, i)
    requires !Failing(s, session) && !Truncating(s, session) && !Overspending(s, session, i)
    ensures QualityReason(s, session) == None
  {
    RankIs(s, session.tier, i);
  }

  /** The turn moved the session for this reason, to this model and tier. */
  ghost predicate Moved(o: Result<Outcome, SetupIncomplete>, r: Request, reason: string, name: string, committed: string)
    requires r.session.Some?
  {
    && o.Ok? && o.value.switchedFrom == Some(r.session.value.route) && o.value.reason.base == reason && !o.value.manual
    && o.value.model == name && o.value.tier == committed
  }

  /** The session is marked as on the global default; one from before that was recorded is if its events say so or no label has the name. */
  ghost predicate CameByDefault(s: Strategy, session: Session) {
    if session.defaulted.Some? then session.defaulted.value
    else
      && session.tier == "default"
      && (|| (forall i :: 0 <= i < |s.policy.labels| ==> s.policy.labels[i].name != "default")
          || exists i :: 0 <= i < |session.events| && SaysDefault(session.events[i]))
  }

  ghost predicate SaysDefault(event: Event) {
    match event
    case Switched(_, _, _, _) => false
    case Decided(_, reason, _) => reason.emptyTag || reason.base == "empty_tag_default"
  }

  /** The turn left the session where it is. */
  ghost predicate Stayed(s: Strategy, o: Result<Outcome, SetupIncomplete>, r: Request)
    requires r.session.Some?
  {
    && o.Ok? && o.value.switchedFrom.None? && o.value.model == r.session.value.route
    && o.value.reason.base == (if s.policy.mode == Sticky || s.policy.mode == Cached then "session_pinned" else "session_sticky")
    && (o.value.tier == if o.value.defaulted then "default" else r.session.value.tier)
    && !o.value.manual && (o.value.defaulted <==> CameByDefault(s, r.session.value))
  }

  lemma {:induction false} ServingTierSettles(s: Strategy, p: Profile, tier: string, i: nat)
    requires i <= |s.policy.labels|
    ensures TierForProfile(s, p, TierForProfile(s, p, tier, i), i) == TierForProfile(s, p, tier, i)
    decreases |s.policy.labels| - i
  {
    if i < |s.policy.labels| {
      ServingTierSettles(s, p, tier, i + 1);
    }
  }

  lemma EffectiveSettles(s: Strategy, choice: Choice)
    ensures EffectiveTier(s, choice.(tier := EffectiveTier(s, choice))) == EffectiveTier(s, choice)
  {
    ServingTierSettles(s, choice.profile, choice.tier, 0);
  }

  lemma {:induction false} EscalationSettles(s: Strategy, c: Catalog, current: Profile, q: Query)
    requires s.policy.labels != [] && UniqueLabels(s.policy.labels) && KnownTier(s, q.tier)
    ensures var r := EscalationChoice(s, c, current, q); r.Ok? && r.value.Some? ==>
      r.value.value.profile.name != current.name && EffectiveTier(s, r.value.value) == r.value.value.tier
    decreases Above(s, q.tier)
  {
    var selected := Select(s, c, q);
    if selected.Ok? {
      EffectiveSettles(s, selected.value);
      if selected.value.profile.name == current.name {
        RaiseClimbs(s, q.tier);
        if RaiseTier(s, q.tier) != q.tier {
          EscalationSettles(s, c, current, q.(tier := RaiseTier(s, q.tier)));
        }
      }
    }
  }

  lemma MayMoveIff(s: Strategy, r: Request, reason: string)
    requires r.session.Some?
    ensures MayMove(s, r, reason) <==> Breaks(s, reason) && HysteresisAllows(s, r.session.value, r.turnIndex, r.now)
  {
  }

  lemma KeptDefault(s: Strategy, current: Profile, session: Session)
    ensures CurrentChoice(s, current, session).defaulted <==> CameByDefault(s, session)
  {
    forall i | 0 <= i < |session.events| ensures SaysDefault(session.events[i]) <==> MentionsEmptyTag(session.events[i]) {
      assert session.events[i] in session.events;
    }
    if e :| e in session.events && MentionsEmptyTag(e) {
      var i :| 0 <= i < |session.events| && session.events[i] == e;
    }
  }

  lemma BlockedStays(s: Strategy, c: Catalog, r: Request, i: nat)
    requires OnlyQuality(s, c, r, i)
    requires var quality := QualityReason(s, r.session.value); quality.None? || !MayMove(s, r, quality.value.reason)
    ensures Stayed(s, Decide(s, c, r), r)
  {
    OtherReasons();
    KeptDefault(s, PinnedModel(s, c, r), r.session.value);
    OnlyQualityDecides(s, c, r, i);
    if QualityReason(s, r.session.value).Some? {
      MayMoveIff(s, r, QualityReason(s, r.session.value).value.reason);
    }
  }

  /** What the turn is, when a climb was started: where the climb ends, or where the session is. */
  ghost predicate TurnIs(s: Strategy, o: Result<Outcome, SetupIncomplete>, r: Request, reason: string, climb: Result<Option<Choice>, SetupIncomplete>)
    requires r.session.Some?
  {
    && (o.Err? <==> climb.Err?)
    && (climb.Ok? && climb.value.None? ==> Stayed(s, o, r))
    && (climb.Ok? && climb.value.Some? ==> Moved(o, r, reason, climb.value.value.profile.name, climb.value.value.tier))
  }

  lemma MoveDecides(s: Strategy, c: Catalog, r: Request, i: nat)
    requires OnlyQuality(s, c, r, i) && QualityReason(s, r.session.value).Some?
    requires MayMove(s, r, QualityReason(s, r.session.value).value.reason)
    ensures var quality, route := QualityReason(s, r.session.value).value, r.session.value.route;
      TurnIs(s, Decide(s, c, r), r, quality.reason,
             EscalationChoice(s, c, PinnedModel(s, c, r), At(quality.tier, r.facts, if quality.excludeCurrent then Some(route) else None)))
  {
    var quality := QualityReason(s, r.session.value).value;
    OtherReasons();
    KeptDefault(s, PinnedModel(s, c, r), r.session.value);
    OnlyQualityDecides(s, c, r, i);
    MayMoveIff(s, r, quality.reason);
    EscalationSettles(s, c, PinnedModel(s, c, r), Query(quality.tier, r.facts, Excluding(PinnedModel(s, c, r), quality.excludeCurrent), None));
  }

  lemma ReasonIff(s: Strategy, session: Session, i: nat)
    requires UniqueLabels(s.policy.labels) && KnownTier(s, session.tier) && StandsAt(s, session.tier, i)
    ensures QualityReason(s, session).Some? <==> Failing(s, session) || Truncating(s, session) || Overspending(s, session, i)
  {
    RankIs(s, session.tier, i);
  }

  lemma BlockedMove(s: Strategy, c: Catalog, current: Profile, session: Session, r: Request)
    requires s.policy.labels != [] && UniqueLabels(s.policy.labels) && KnownTier(s, session.tier)
    ensures var kept := QualityMove(s, c, current, session, r);
      kept.Ok? ==>
        (kept.value.blockedBy == Some("hysteresis") <==>
           !IsPinned(s.policy.mode) && QualityReason(s, session).Some? && !HysteresisAllows(s, session, r.turnIndex, r.now))
  {
  }

  /** A turn is reported as blocked exactly when a reason was kept back by the last switch or the number of switches, in a mode without pins. */
  lemma BlockedIff(s: Strategy, c: Catalog, r: Request, i: nat)
    requires OnlyQuality(s, c, r, i) && Decide(s, c, r).Ok?
    ensures var session, h := r.session.value, s.policy.hysteresis;
      Decide(s, c, r).value.blockedBy == Some("hysteresis") <==>
      && s.policy.mode != Sticky && s.policy.mode != Cached
      && (Failing(s, session) || Truncating(s, session) || Overspending(s, session, i))
      && (|| session.switchCount as real >= h.maxSwitches
          || (session.switchCount > 0
              && ((r.turnIndex - session.switchedAtTurn) as real < h.minTurns || r.now - session.switchedAt < h.cooldown)))
  {
    OnlyQualityDecides(s, c, r, i);
    ReasonIff(s, r.session.value, i);
    BlockedMove(s, c, PinnedModel(s, c, r), r.session.value, r);
  }

  // One turn, by the session's counters

  /** Where a reason that starts at this path may take the turn. */
  ghost predicate TurnFollows(
      s: Strategy, c: Catalog, r: Request, reason: string, exclude: Option<string>, path: seq<string>, name: string, committed: string)
    requires s.policy.labels != [] && UniqueLabels(s.policy.labels) && r.session.Some?
  {
    var o, route := Decide(s, c, r), r.session.value.route;
    && (o.Err? <==> MayMove(s, r, reason) && EndsNowhere(s, c, route, r.facts, exclude, path))
    && (Moved(o, r, reason, name, committed) <==>
          MayMove(s, r, reason) && Reaches(s, c, route, r.facts, exclude, path, name, committed))
    && (o.Ok? ==> Stayed(s, o, r) || Moved(o, r, reason, o.value.model, o.value.tier))
  }

  lemma TurnFollowsClimb(
      s: Strategy, c: Catalog, r: Request, i: nat, exclude: Option<string>, path: seq<string>, name: string, committed: string)
    requires OnlyQuality(s, c, r, i) && IsClimb(s, path)
    requires var quality := QualityReason(s, r.session.value);
      quality.Some? && quality.value.tier == path[0]
      && exclude == if quality.value.excludeCurrent then Some(r.session.value.route) else None
    ensures TurnFollows(s, c, r, QualityReason(s, r.session.value).value.reason, exclude, path, name, committed)
  {
    var quality := QualityReason(s, r.session.value).value;
    if MayMove(s, r, quality.reason) {
      MoveDecides(s, c, r, i);
      ClimbEnds(s, c, PinnedModel(s, c, r), r.facts, exclude, path, name, committed);
    } else {
      BlockedStays(s, c, r, i);
    }
  }

  /**
   Failures come first: at their limit, once the reason may move the session, the turn ends on the
   first model found from the session's own label upwards, that model left out.
   */
  lemma FailuresMoveIff(s: Strategy, c: Catalog, r: Request, i: nat, name: string, committed: string)
    requires OnlyQuality(s, c, r, i) && Failing(s, r.session.value)
    ensures TurnFollows(s, c, r, UPSTREAM_FAILURES, Some(r.session.value.route), FromOwn(s, r.session.value.tier, i), name, committed)
  {
    FailuresAnswer(s, r.session.value, i);
    TurnFollowsClimb(s, c, r, i, Some(r.session.value.route), FromOwn(s, r.session.value.tier, i), name, committed);
  }

  /** Then truncations: it ends on the first other model found from the next label upwards, or on the top one. */
  lemma TruncationsMoveIff(s: Strategy, c: Catalog, r: Request, i: nat, name: string, committed: string)
    requires OnlyQuality(s, c, r, i) && Truncating(s, r.session.value)
    ensures TurnFollows(s, c, r, OUTPUT_TRUNCATED, None, Upwards(s, Up(s, i)), name, committed)
  {
    TruncationsAnswer(s, r.session.value, i);
    TurnFollowsClimb(s, c, r, i, None, Upwards(s, Up(s, i)), name, committed);
  }

  /** Then cost, unless the session is on the lowest label: on the first other model found from one label down. */
  lemma CostMovesIff(s: Strategy, c: Catalog, r: Request, i: nat, name: string, committed: string)
    requires OnlyQuality(s, c, r, i) && Overspending(s, r.session.value, i)
    ensures TurnFollows(s, c, r, BUDGET_PRESSURE, None, Upwards(s, i - 1), name, committed)
  {
    CostAnswers(s, r.session.value, i);
    TurnFollowsClimb(s, c, r, i, None, Upwards(s, i - 1), name, committed);
  }

  /** With none of the three, the session stays. */
  lemma QuietTurnStays(s: Strategy, c: Catalog, r: Request, i: nat)
    requires OnlyQuality(s, c, r, i)
    requires var session := r.session.value; !Failing(s, session) && !Truncating(s, session) && !Overspending(s, session, i)
    ensures Stayed(s, Decide(s, c, r), r)
  {
    NothingAnswers(s, r.session.value, i);
    BlockedStays(s, c, r, i);
  }
}
